/**
 * Character classes and string helpers that the record parser relies on:
 * the ASCII parts of the regular-expression classes \d, \s and \w, the
 * case folding of the `i` flag, maximal runs, and the string operations
 * parseInt, parseFloat, String.prototype.split, trim and Array.prototype.join.
 */
module TextScan {

  predicate IsDigit(c: char) { '0' <= c <= '9' }

  /** The ASCII members of \s: space, tab, line feed, vertical tab, form feed, carriage return. */
  predicate IsSpace(c: char) {
    c == ' ' || c == '\t' || c == '\n' || c == '\U{000B}' || c == '\U{000C}' || c == '\r'
  }

  /** \w: letters, digits and the underscore. */
  predicate IsWordChar(c: char) {
    ('a' <= c <= 'z') || ('A' <= c <= 'Z') || IsDigit(c) || c == '_'
  }

  /** Case folding of the `i` flag, which only relates ASCII letters to ASCII letters. */
  function LowerAscii(c: char): (d: char)
    ensures 'A' <= c <= 'Z' ==> 'a' <= d <= 'z' && d as int == c as int + 32
    ensures !('A' <= c <= 'Z') ==> d == c
  {
    if 'A' <= c <= 'Z' then (c as int + 32) as char else c
  }

  /**
   * Against a character that is not a capital, case folding succeeds exactly
   * when the character is that one or, for a lower-case letter, its capital.
   */
  lemma LowerAsciiMatches(c: char, l: char)
    requires !('A' <= l <= 'Z')
    ensures LowerAscii(c) == l <==> c == l || ('a' <= l <= 'z' && c as int == l as int - 32)
  {
  }

  /** Every character of text[lo..hi] satisfies p. */
  ghost predicate AllIn(text: string, lo: nat, hi: nat, p: char -> bool)
    requires lo <= hi <= |text|
  {
    forall k :: lo <= k < hi ==> p(text[k])
  }

  /**
   * The lower-case literal `kw` occurs at position i, letters compared without
   * regard to case.
   */
  predicate KeywordAt(text: string, i: nat, kw: string)
  {
    i + |kw| <= |text| && forall k :: 0 <= k < |kw| ==> LowerAscii(text[i + k]) == kw[k]
  }

  /**
   * The `i` flag at work: a keyword without capitals occurs at i exactly when
   * each of its characters appears there as itself or, for a letter, as its
   * capital, so "Blood Pressure", "BLOOD PRESSURE" and "blood pressure" all match.
   */
  lemma KeywordAtEitherCase(text: string, i: nat, kw: string)
    requires forall k :: 0 <= k < |kw| ==> !('A' <= kw[k] <= 'Z')
    ensures KeywordAt(text, i, kw) <==>
            i + |kw| <= |text| &&
            forall k :: 0 <= k < |kw| ==>
              text[i + k] == kw[k] || ('a' <= kw[k] <= 'z' && text[i + k] as int == kw[k] as int - 32)
  {
    if i + |kw| <= |text| {
      forall k | 0 <= k < |kw|
        ensures LowerAscii(text[i + k]) == kw[k] <==>
                text[i + k] == kw[k] || ('a' <= kw[k] <= 'z' && text[i + k] as int == kw[k] as int - 32)
      {
        LowerAsciiMatches(text[i + k], kw[k]);
      }
    }
  }

  /** Where the longest run of characters satisfying p that starts at i ends. */
  function RunEnd(text: string, i: nat, p: char -> bool): (e: nat)
    requires i <= |text|
    ensures i <= e <= |text|
    ensures forall k :: i <= k < e ==> p(text[k])
    ensures e == |text| || !p(text[e])
    decreases |text| - i
  {
    if i < |text| && p(text[i]) then RunEnd(text, i + 1, p) else i
  }

  /** A maximal run is determined by its start: any run that cannot be extended is RunEnd's. */
  lemma RunEndUnique(text: string, i: nat, e: nat, p: char -> bool)
    requires i <= e <= |text|
    requires forall k :: i <= k < e ==> p(text[k])
    requires e == |text| || !p(text[e])
    ensures RunEnd(text, i, p) == e
  {
  }

  /** A run that cannot be extended covers every stretch of characters satisfying p. */
  lemma {:induction false} RunEndCovers(text: string, i: nat, c: nat, p: char -> bool)
    requires i <= c <= |text|
    requires forall k :: i <= k < c ==> p(text[k])
    ensures c <= RunEnd(text, i, p)
    decreases c - i
  {
    if i < c {
      RunEndCovers(text, i + 1, c, p);
    }
  }

  // ---------------------------------------------------------------------
  // parseInt and its inverse

  predicate AllDigits(s: string) { forall k :: 0 <= k < |s| ==> IsDigit(s[k]) }

  function DigitValue(c: char): (n: nat)
    requires IsDigit(c)
    ensures n < 10
  {
    c as int - '0' as int
  }

  function Pow10(k: nat): (p: nat)
    ensures p >= 1
  {
    if k == 0 then 1 else 10 * Pow10(k - 1)
  }

  /** parseInt of a non-empty run of decimal digits, without a precision limit. */
  function ParseInt(s: string): (n: nat)
    requires AllDigits(s)
    ensures n < Pow10(|s|)
  {
    if s == [] then 0 else ParseInt(s[..|s| - 1]) * 10 + DigitValue(s[|s| - 1])
  }

  /** The decimal rendering of n, as a template literal shows a number. */
  function ShowNat(n: nat): (s: string)
    ensures |s| > 0 && AllDigits(s)
  {
    var d := ['0' + (n % 10) as char];
    if n < 10 then d else ShowNat(n / 10) + d
  }

  /** parseInt reads back the rendering of every natural number. */
  lemma {:induction false} ParseIntShowNat(n: nat)
    ensures ParseInt(ShowNat(n)) == n
  {
    var s := ShowNat(n);
    if n >= 10 {
      ParseIntShowNat(n / 10);
      assert s[..|s| - 1] == ShowNat(n / 10);
    }
  }

  /** Digits beyond an explicit leading zero change nothing: parseInt("007") is 7. */
  lemma {:induction false} ParseIntLeadingZero(s: string)
    requires AllDigits(s)
    ensures ParseInt("0" + s) == ParseInt(s)
    decreases |s|
  {
    if s != [] {
      var t := "0" + s;
      assert t[..|t| - 1] == "0" + s[..|s| - 1];
      ParseIntLeadingZero(s[..|s| - 1]);
    }
  }

  // ---------------------------------------------------------------------
  // parseFloat of a capture shaped \d+\.?\d*

  predicate IsDecimalCapture(s: string) { |s| > 0 && IsDigit(s[0]) }

  /**
   * parseFloat of a string that starts with a digit and has no exponent: the
   * whole part is the leading digit run, and a following '.' introduces the
   * fraction digits. Exact real arithmetic; no binary rounding.
   */
  function ParseFloat(s: string): (r: real)
    requires IsDecimalCapture(s)
    ensures var w := RunEnd(s, 0, IsDigit);
            ParseInt(s[..w]) as real <= r < ParseInt(s[..w]) as real + 1.0
  {
    var w := RunEnd(s, 0, IsDigit);
    var whole := ParseInt(s[..w]) as real;
    if w < |s| && s[w] == '.' then whole + FractionValue(s[w + 1..RunEnd(s, w + 1, IsDigit)])
    else whole
  }

  /** The value of the digits after a decimal point: 0.d1d2...dk, read from the right. */
  function FractionValue(ds: string): (r: real)
    requires AllDigits(ds)
    ensures 0.0 <= r < 1.0
    ensures ds != [] && ds[0] != '0' ==> r >= 0.1
  {
    if ds == [] then 0.0 else (DigitValue(ds[0]) as real + FractionValue(ds[1..])) / 10.0
  }

  /** x * 10^k: the decimal point of x moved k places to the right, one place at a time. */
  function Scale(x: real, k: nat): real
  {
    if k == 0 then x else Scale(x, k - 1) * 10.0
  }

  /** Moving the point k places is multiplying by 10^k. */
  lemma {:induction false} ScaleIsPow10(x: real, k: nat)
    ensures Scale(x, k) == x * Pow10(k) as real
  {
    if k > 0 {
      ScaleIsPow10(x, k - 1);
      var p := Pow10(k - 1) as real;
      assert (x * p) * 10.0 == x * (10.0 * p);
    }
  }

  /** Moving the point distributes over a sum. */
  lemma {:induction false} ScaleAdd(x: real, y: real, k: nat)
    ensures Scale(x + y, k) == Scale(x, k) + Scale(y, k)
  {
    if k > 0 {
      ScaleAdd(x, y, k - 1);
    }
  }

  /** A tenth moved k + 1 places is the value moved k places. */
  lemma {:induction false} ScaleTenth(x: real, k: nat)
    ensures Scale(x / 10.0, k + 1) == Scale(x, k)
  {
    if k > 0 {
      ScaleTenth(x, k - 1);
    }
  }

  /** A whole part x and a fraction q, moved k places, give the whole part moved plus what the fraction became. */
  lemma ScaleWholeAndFraction(pf: real, x: real, q: real, k: nat, pi: real, r: real)
    requires pf == x + q
    requires Scale(q, k) == r
    requires pi == Scale(x, k) + r
    ensures Scale(pf, k) == pi
  {
    ScaleAdd(x, q, k);
  }

  /** parseInt of two digit strings written one after the other: the first is shifted by the length of the second. */
  lemma {:induction false} ParseIntAppend(a: string, b: string)
    requires AllDigits(a) && AllDigits(b)
    ensures AllDigits(a + b)
    ensures ParseInt(a + b) as real == Scale(ParseInt(a) as real, |b|) + ParseInt(b) as real
    decreases |b|
  {
    if b == [] {
      assert a + b == a;
    } else {
      var b' := b[..|b| - 1];
      assert (a + b)[..|a + b| - 1] == a + b';
      ParseIntAppend(a, b');
    }
  }

  /** The fraction digits moved |ds| places are their integer value: 0.25 becomes 25. */
  lemma {:induction false} FractionValueScaled(ds: string)
    requires AllDigits(ds)
    ensures Scale(FractionValue(ds), |ds|) == ParseInt(ds) as real
    decreases |ds|
  {
    if ds != [] {
      var rest := ds[1..];
      var d := DigitValue(ds[0]) as real;
      FractionValueScaled(rest);
      ScaleTenth(d + FractionValue(rest), |rest|);
      ScaleAdd(d, FractionValue(rest), |rest|);
      assert ds == [ds[0]] + rest;
      ParseIntAppend([ds[0]], rest);
      assert ParseInt([ds[0]]) as real == d by { assert [ds[0]][..0] == []; }
    }
  }

  /** A capture with a point: parseFloat("w.f") is the integer w plus the fraction 0.f. */
  lemma ParseFloatDecimal(w: string, f: string)
    requires |w| > 0 && AllDigits(w) && AllDigits(f)
    ensures IsDecimalCapture(w + "." + f)
    ensures ParseFloat(w + "." + f) == ParseInt(w) as real + FractionValue(f)
  {
    var s := w + "." + f;
    RunEndUnique(s, 0, |w|, IsDigit);
    RunEndUnique(s, |w| + 1, |s|, IsDigit);
    assert s[..|w|] == w;
    assert s[|w| + 1..|s|] == f;
  }

  /**
   * parseFloat("w.f") with the point moved |f| places (times 10^|f|, by
   * ScaleIsPow10) is parseInt of the digits without the point: "25.5" is
   * 255 / 10, so a BMI capture keeps its fraction digits' full value.
   */
  lemma ParseFloatShifted(w: string, f: string)
    requires |w| > 0 && AllDigits(w) && AllDigits(f)
    ensures IsDecimalCapture(w + "." + f) && AllDigits(w + f)
    ensures Scale(ParseFloat(w + "." + f), |f|) == ParseInt(w + f) as real
  {
    ParseFloatDecimal(w, f);
    ParseIntAppend(w, f);
    FractionValueScaled(f);
    ScaleWholeAndFraction(ParseFloat(w + "." + f), ParseInt(w) as real, FractionValue(f), |f|,
                          ParseInt(w + f) as real, ParseInt(f) as real);
  }

  /** A worked capture with one decimal: "27.5" reads as 27.5. */
  lemma ParseFloatOneDecimal()
    ensures ParseFloat("27.5") == 27.5
  {
    assert RunEnd("27.5", 0, IsDigit) == 2 && RunEnd("27.5", 3, IsDigit) == 4;
    assert "27.5"[..2] == "27" && "27"[..1] == "2" && "27.5"[3..4] == "5";
    assert ParseInt("27") == 27;
    assert FractionValue("5") == 0.5 by { assert "5"[1..] == ""; }
  }

  /** A worked capture with two decimals: "31.25" reads as 31.25. */
  lemma ParseFloatTwoDecimals()
    ensures ParseFloat("31.25") == 31.25
  {
    assert RunEnd("31.25", 0, IsDigit) == 2 && RunEnd("31.25", 3, IsDigit) == 5;
    assert "31.25"[..2] == "31" && "31"[..1] == "3" && "31.25"[3..5] == "25";
    assert ParseInt("31") == 31;
    assert FractionValue("25") == 0.25 by { assert "25"[1..] == "5" && "5"[1..] == ""; }
  }

  /** A capture ending in its point has no fraction: "24." reads as 24. */
  lemma ParseFloatTrailingPoint()
    ensures ParseFloat("24.") == 24.0
  {
    assert RunEnd("24.", 0, IsDigit) == 2 && RunEnd("24.", 3, IsDigit) == 3;
    assert "24."[..2] == "24" && "24"[..1] == "2" && "24."[3..3] == "";
    assert ParseInt("24") == 24;
  }

  /** A capture without a '.' parses to the same value under parseFloat and parseInt. */
  lemma ParseFloatOfInteger(s: string)
    requires |s| > 0 && AllDigits(s)
    ensures ParseFloat(s) == ParseInt(s) as real
  {
    RunEndUnique(s, 0, |s|, IsDigit);
    assert s[..|s|] == s;
  }

  // ---------------------------------------------------------------------
  // split, join and trim

  /** Array.prototype.join: the parts with one separator between neighbours. */
  function Join(parts: seq<string>, sep: string): (s: string)
    ensures |parts| == 1 ==> s == parts[0]
  {
    if parts == [] then ""
    else if |parts| == 1 then parts[0]
    else parts[0] + sep + Join(parts[1..], sep)
  }

  /** String.prototype.split on a single character: the pieces between separators, empty ones kept. */
  function Split(s: string, sep: char): (parts: seq<string>)
    ensures |parts| >= 1
    ensures forall k :: 0 <= k < |parts| ==> sep !in parts[k]
    decreases |s|
  {
    var k := RunEnd(s, 0, c => c != sep);
    if k == |s| then
      assert sep !in s;
      [s]
    else
      assert sep !in s[..k];
      [s[..k]] + Split(s[k + 1..], sep)
  }

  /** Joining the pieces of a split with the separator gives back the string. */
  lemma {:induction false} JoinSplit(s: string, sep: char)
    ensures Join(Split(s, sep), [sep]) == s
    decreases |s|
  {
    var k := RunEnd(s, 0, c => c != sep);
    if k < |s| {
      JoinSplit(s[k + 1..], sep);
      assert s == s[..k] + [sep] + s[k + 1..];
    } else {
      assert s[..k] == s;
    }
  }

  /** Splitting a join of separator-free pieces gives back the pieces. */
  lemma {:induction false} SplitJoin(parts: seq<string>, sep: char)
    requires |parts| >= 1
    requires forall k :: 0 <= k < |parts| ==> sep !in parts[k]
    ensures Split(Join(parts, [sep]), sep) == parts
    decreases |parts|
  {
    var s := Join(parts, [sep]);
    var p := parts[0];
    if |parts| == 1 {
      RunEndUnique(s, 0, |s|, c => c != sep);
    } else {
      assert s == p + [sep] + Join(parts[1..], [sep]);
      RunEndUnique(s, 0, |p|, c => c != sep);
      assert s[..|p|] == p;
      assert s[|p| + 1..] == Join(parts[1..], [sep]);
      SplitJoin(parts[1..], sep);
    }
  }

  /** The bounds of String.prototype.trim: the text between leading and trailing whitespace. */
  function TrimBounds(s: string): (b: (nat, nat))
    ensures b.0 <= b.1 <= |s|
    ensures forall k :: 0 <= k < b.0 ==> IsSpace(s[k])
    ensures forall k :: b.1 <= k < |s| ==> IsSpace(s[k])
    ensures b.0 < b.1 ==> !IsSpace(s[b.0]) && !IsSpace(s[b.1 - 1])
    ensures b.0 == b.1 ==> forall k :: 0 <= k < |s| ==> IsSpace(s[k])
  {
    var a := RunEnd(s, 0, IsSpace);
    (a, LastNonSpaceEnd(s, a, |s|))
  }

  /** The least e in [lo, hi] such that s[e..hi] is all whitespace. */
  function LastNonSpaceEnd(s: string, lo: nat, hi: nat): (e: nat)
    requires lo <= hi <= |s|
    ensures lo <= e <= hi
    ensures forall k :: e <= k < hi ==> IsSpace(s[k])
    ensures lo < e ==> !IsSpace(s[e - 1])
    decreases hi
  {
    if hi == lo || !IsSpace(s[hi - 1]) then hi else LastNonSpaceEnd(s, lo, hi - 1)
  }

  function Trim(s: string): (t: string)
    ensures |t| <= |s|
    ensures |t| > 0 ==> !IsSpace(t[0]) && !IsSpace(t[|t| - 1])
  {
    var b := TrimBounds(s);
    s[b.0..b.1]
  }

  /** Trim only removes whitespace: the string is its trimmed form padded by whitespace. */
  lemma TrimOnlyDropsSpace(s: string)
    ensures exists a, b :: 0 <= a <= b <= |s| && s[a..b] == Trim(s) &&
                           (forall k :: 0 <= k < a ==> IsSpace(s[k])) &&
                           (forall k :: b <= k < |s| ==> IsSpace(s[k]))
  {
    var b := TrimBounds(s);
    assert s[b.0..b.1] == Trim(s);
  }

  /** Every character of the trimmed string comes from the string. */
  lemma TrimIsSubstring(s: string)
    ensures forall c :: c in Trim(s) ==> c in s
  {
    var b := TrimBounds(s);
    forall c | c in Trim(s) ensures c in s {
      var k :| 0 <= k < |Trim(s)| && Trim(s)[k] == c;
      assert s[b.0 + k] == c;
    }
  }

  /** Trimming twice is trimming once. */
  lemma TrimIdempotent(s: string)
    ensures Trim(Trim(s)) == Trim(s)
  {
    var t := Trim(s);
    var b := TrimBounds(t);
    if |t| > 0 {
      RunEndUnique(t, 0, 0, IsSpace);
      assert b.0 == 0;
      assert b.1 == |t|;
    }
    assert t[b.0..b.1] == t;
  }

  function TrimAll(parts: seq<string>): (r: seq<string>)
    ensures |r| == |parts|
    ensures forall k :: 0 <= k < |r| ==> r[k] == Trim(parts[k])
  {
    seq(|parts|, k requires 0 <= k < |parts| => Trim(parts[k]))
  }
}
