/**
 * The five extraction rules of parseMedialRecord, each written twice:
 *
 *  - a scanner (`BloodPressureAt`, `NumberAt`, `BmiAt`, `MedicationAt`) that
 *    tries the case-insensitive pattern at one position the way a
 *    backtracking matcher does, returning the captured group(s);
 *  - a declarative description of the match (`BloodPressureMatch`, ...) in
 *    terms of positions: which stretch is the keyword, which the separator
 *    [:\s]+, which the group, with greedy quantifiers taking the longest text
 *    the rest of the pattern allows.
 *
 * Lemmas show the two agree in both directions. `Leftmost` gives the
 * semantics of String.prototype.match for a non-global pattern (the match at
 * the leftmost position), `MedicationCaptures` that of matchAll (successive
 * non-overlapping matches, each search resuming where the previous match ended).
 */
module Patterns {
  import opened Wrappers
  import opened TextScan

  const BloodPressureKeyword: string := "blood pressure"
  const CholesterolKeyword: string := "cholesterol"
  const GlucoseKeyword: string := "glucose"
  const BmiKeyword: string := "bmi"
  const MedicationKeyword: string := "medication"

  /** The separator class [:\s]. */
  predicate IsSep(c: char) { c == ':' || IsSpace(c) }

  /** The medication list class [\w\s,]. */
  predicate IsListChar(c: char) { IsWordChar(c) || IsSpace(c) || c == ',' }

  /**
   * The result at the leftmost position in [from, |text|] at which `at`
   * succeeds, or None when it succeeds nowhere.
   */
  function Leftmost<T>(text: string, at: (string, nat) -> Option<T>, from: nat): (r: Option<T>)
    requires from <= |text|
    decreases |text| - from
  {
    if at(text, from).Some? then at(text, from)
    else if from == |text| then None
    else Leftmost(text, at, from + 1)
  }

  /** A found result is the success at some position, with failures at every earlier one. */
  lemma {:induction false} LeftmostFound<T>(text: string, at: (string, nat) -> Option<T>, from: nat) returns (i: nat)
    requires from <= |text|
    requires Leftmost(text, at, from).Some?
    ensures from <= i <= |text| && at(text, i) == Leftmost(text, at, from)
    ensures forall j :: from <= j < i ==> at(text, j).None?
    decreases |text| - from
  {
    if at(text, from).Some? {
      i := from;
    } else {
      i := LeftmostFound(text, at, from + 1);
    }
  }

  /** No result means failure at every position from `from` on. */
  lemma {:induction false} LeftmostNone<T>(text: string, at: (string, nat) -> Option<T>, from: nat)
    requires from <= |text|
    requires Leftmost(text, at, from).None?
    ensures forall i :: from <= i <= |text| ==> at(text, i).None?
    decreases |text| - from
  {
    if from < |text| {
      LeftmostNone(text, at, from + 1);
    }
  }

  /** A success with failures at every earlier position is the leftmost one. */
  lemma {:induction false} LeftmostAt<T>(text: string, at: (string, nat) -> Option<T>, from: nat, i: nat)
    requires from <= i <= |text|
    requires at(text, i).Some?
    requires forall j :: from <= j < i ==> at(text, j).None?
    ensures Leftmost(text, at, from) == at(text, i)
    decreases i - from
  {
    if from < i {
      LeftmostAt(text, at, from + 1, i);
    }
  }

  // ---------------------------------------------------------------------
  // /blood pressure[:\s]+(\d+)\/(\d+)/i

  function BloodPressureAt(text: string, i: nat): (r: Option<(string, string)>)
    ensures r.Some? ==> |r.value.0| > 0 && AllDigits(r.value.0) && |r.value.1| > 0 && AllDigits(r.value.1)
  {
    if !KeywordAt(text, i, BloodPressureKeyword) then None
    else
      var s := i + |BloodPressureKeyword|;
      var d := RunEnd(text, s, IsSep);
      var e1 := RunEnd(text, d, IsDigit);
      if d == s || e1 == d || e1 == |text| || text[e1] != '/' then None
      else
        var e2 := RunEnd(text, e1 + 1, IsDigit);
        if e2 == e1 + 1 then None else Some((text[d..e1], text[e1 + 1..e2]))
  }

  /**
   * The pattern matches at i: the keyword, a separator ending at d, the first
   * group text[d..e1], a '/', and the second group text[e1+1..e2], which the
   * greedy \d+ extends over every following digit.
   */
  ghost predicate BloodPressureMatch(text: string, i: nat, d: int, e1: int, e2: int)
  {
    && KeywordAt(text, i, BloodPressureKeyword)
    && i + |BloodPressureKeyword| < d < e1 && e1 + 1 < e2 <= |text|
    && AllIn(text, i + |BloodPressureKeyword|, d, IsSep)
    && AllIn(text, d, e1, IsDigit)
    && text[e1] == '/'
    && AllIn(text, e1 + 1, e2, IsDigit)
    && (e2 == |text| || !IsDigit(text[e2]))
  }

  /** Any match is the one the scanner finds: the separator, both groups and their ends are forced. */
  lemma BloodPressureMatchIsScan(text: string, i: nat, d: int, e1: int, e2: int)
    requires BloodPressureMatch(text, i, d, e1, e2)
    ensures BloodPressureAt(text, i) == Some((text[d..e1], text[e1 + 1..e2]))
  {
    var s := i + |BloodPressureKeyword|;
    RunEndUnique(text, s, d, IsSep);
    RunEndUnique(text, d, e1, IsDigit);
    RunEndUnique(text, e1 + 1, e2, IsDigit);
  }

  /** What the scanner finds is a match. */
  lemma BloodPressureScanIsMatch(text: string, i: nat) returns (d: int, e1: int, e2: int)
    requires BloodPressureAt(text, i).Some?
    ensures BloodPressureMatch(text, i, d, e1, e2)
  {
    var s := i + |BloodPressureKeyword|;
    d := RunEnd(text, s, IsSep);
    e1 := RunEnd(text, d, IsDigit);
    e2 := RunEnd(text, e1 + 1, IsDigit);
  }

  lemma BloodPressureAtIsMatch(text: string, i: nat)
    ensures BloodPressureAt(text, i).Some? <==> exists d, e1, e2 :: BloodPressureMatch(text, i, d, e1, e2)
    ensures forall d, e1, e2 :: BloodPressureMatch(text, i, d, e1, e2) ==>
              BloodPressureAt(text, i) == Some((text[d..e1], text[e1 + 1..e2]))
  {
    if BloodPressureAt(text, i).Some? {
      var d, e1, e2 := BloodPressureScanIsMatch(text, i);
    }
    forall d, e1, e2 | BloodPressureMatch(text, i, d, e1, e2)
      ensures BloodPressureAt(text, i) == Some((text[d..e1], text[e1 + 1..e2]))
    {
      BloodPressureMatchIsScan(text, i, d, e1, e2);
    }
  }

  function FindBloodPressure(text: string): Option<(string, string)>
  {
    Leftmost(text, BloodPressureAt, 0)
  }

  /** `match` returns the groups of the leftmost match. */
  lemma FindBloodPressureLeftmost(text: string, i: nat, d: int, e1: int, e2: int)
    requires BloodPressureMatch(text, i, d, e1, e2)
    requires forall j: nat, d', e1', e2' :: j < i ==> !BloodPressureMatch(text, j, d', e1', e2')
    ensures FindBloodPressure(text) == Some((text[d..e1], text[e1 + 1..e2]))
  {
    BloodPressureMatchIsScan(text, i, d, e1, e2);
    forall j: nat | j < i ensures BloodPressureAt(text, j).None? {
      if BloodPressureAt(text, j).Some? {
        var d', e1', e2' := BloodPressureScanIsMatch(text, j);
      }
    }
    LeftmostAt(text, BloodPressureAt, 0, i);
  }

  /** `match` returns null exactly when the pattern matches nowhere. */
  lemma FindBloodPressureNone(text: string)
    ensures FindBloodPressure(text).None? <==>
            forall i: nat, d, e1, e2 :: !BloodPressureMatch(text, i, d, e1, e2)
  {
    if FindBloodPressure(text).Some? {
      var i := LeftmostFound(text, BloodPressureAt, 0);
      var d, e1, e2 := BloodPressureScanIsMatch(text, i);
    } else {
      LeftmostNone(text, BloodPressureAt, 0);
    }
    forall i: nat, d, e1, e2 | BloodPressureMatch(text, i, d, e1, e2)
      ensures i <= |text| && BloodPressureAt(text, i).Some?
    {
      BloodPressureMatchIsScan(text, i, d, e1, e2);
    }
  }

  // ---------------------------------------------------------------------
  // /cholesterol[:\s]+(\d+)/i and /glucose[:\s]+(\d+)/i

  function NumberAt(text: string, i: nat, kw: string): (r: Option<string>)
    ensures r.Some? ==> |r.value| > 0 && AllDigits(r.value)
  {
    if !KeywordAt(text, i, kw) then None
    else
      var s := i + |kw|;
      var d := RunEnd(text, s, IsSep);
      var e := RunEnd(text, d, IsDigit);
      if d == s || e == d then None else Some(text[d..e])
  }

  /** kw[:\s]+(\d+) matches at i with the separator ending at d and the greedy group text[d..e]. */
  ghost predicate NumberMatch(text: string, i: nat, kw: string, d: int, e: int)
  {
    && KeywordAt(text, i, kw)
    && i + |kw| < d < e <= |text|
    && AllIn(text, i + |kw|, d, IsSep)
    && AllIn(text, d, e, IsDigit)
    && (e == |text| || !IsDigit(text[e]))
  }

  lemma NumberMatchIsScan(text: string, i: nat, kw: string, d: int, e: int)
    requires NumberMatch(text, i, kw, d, e)
    ensures NumberAt(text, i, kw) == Some(text[d..e])
  {
    RunEndUnique(text, i + |kw|, d, IsSep);
    RunEndUnique(text, d, e, IsDigit);
  }

  lemma NumberScanIsMatch(text: string, i: nat, kw: string) returns (d: int, e: int)
    requires NumberAt(text, i, kw).Some?
    ensures NumberMatch(text, i, kw, d, e)
  {
    d := RunEnd(text, i + |kw|, IsSep);
    e := RunEnd(text, d, IsDigit);
  }

  lemma NumberAtIsMatch(text: string, i: nat, kw: string)
    ensures NumberAt(text, i, kw).Some? <==> exists d, e :: NumberMatch(text, i, kw, d, e)
    ensures forall d, e :: NumberMatch(text, i, kw, d, e) ==> NumberAt(text, i, kw) == Some(text[d..e])
  {
    if NumberAt(text, i, kw).Some? {
      var d, e := NumberScanIsMatch(text, i, kw);
    }
    forall d, e | NumberMatch(text, i, kw, d, e) ensures NumberAt(text, i, kw) == Some(text[d..e]) {
      NumberMatchIsScan(text, i, kw, d, e);
    }
  }

  function FindNumber(text: string, kw: string): Option<string>
  {
    Leftmost(text, (t, j) => NumberAt(t, j, kw), 0)
  }

  lemma FindNumberLeftmost(text: string, kw: string, i: nat, d: int, e: int)
    requires NumberMatch(text, i, kw, d, e)
    requires forall j: nat, d', e' :: j < i ==> !NumberMatch(text, j, kw, d', e')
    ensures FindNumber(text, kw) == Some(text[d..e])
  {
    NumberMatchIsScan(text, i, kw, d, e);
    forall j: nat | j < i ensures NumberAt(text, j, kw).None? {
      if NumberAt(text, j, kw).Some? {
        var d', e' := NumberScanIsMatch(text, j, kw);
      }
    }
    LeftmostAt(text, (t, j) => NumberAt(t, j, kw), 0, i);
  }

  lemma FindNumberNone(text: string, kw: string)
    ensures FindNumber(text, kw).None? <==> forall i: nat, d, e :: !NumberMatch(text, i, kw, d, e)
  {
    var at := (t, j) => NumberAt(t, j, kw);
    assert FindNumber(text, kw) == Leftmost(text, at, 0);
    if FindNumber(text, kw).Some? {
      var i := LeftmostFound(text, at, 0);
      var d, e := NumberScanIsMatch(text, i, kw);
    } else {
      LeftmostNone(text, at, 0);
    }
    forall i: nat, d, e | NumberMatch(text, i, kw, d, e)
      ensures i <= |text| && at(text, i).Some?
    {
      NumberMatchIsScan(text, i, kw, d, e);
    }
  }

  // ---------------------------------------------------------------------
  // /bmi[:\s]+(\d+\.?\d*)/i

  function BmiAt(text: string, i: nat): (r: Option<string>)
    ensures r.Some? ==> IsDecimalCapture(r.value)
  {
    if !KeywordAt(text, i, BmiKeyword) then None
    else
      var s := i + |BmiKeyword|;
      var d := RunEnd(text, s, IsSep);
      var w := RunEnd(text, d, IsDigit);
      if d == s || w == d then None
      else
        var e := if w < |text| && text[w] == '.' then RunEnd(text, w + 1, IsDigit) else w;
        Some(text[d..e])
  }

  /**
   * The pattern matches at i with the separator ending at d, the greedy \d+
   * covering text[d..w], and the group ending at e: after a '.' at w the
   * greedy \d* runs on to e, and without one the group ends at w.
   */
  ghost predicate BmiMatch(text: string, i: nat, d: int, w: int, e: int)
  {
    && KeywordAt(text, i, BmiKeyword)
    && i + |BmiKeyword| < d < w <= e <= |text|
    && AllIn(text, i + |BmiKeyword|, d, IsSep)
    && AllIn(text, d, w, IsDigit)
    && (w == |text| || !IsDigit(text[w]))
    && if w < |text| && text[w] == '.' then
         && w < e
         && AllIn(text, w + 1, e, IsDigit)
         && (e == |text| || !IsDigit(text[e]))
       else
         e == w
  }

  lemma BmiMatchIsScan(text: string, i: nat, d: int, w: int, e: int)
    requires BmiMatch(text, i, d, w, e)
    ensures BmiAt(text, i) == Some(text[d..e])
  {
    RunEndUnique(text, i + |BmiKeyword|, d, IsSep);
    RunEndUnique(text, d, w, IsDigit);
    if w < |text| && text[w] == '.' {
      RunEndUnique(text, w + 1, e, IsDigit);
    }
  }

  lemma BmiScanIsMatch(text: string, i: nat) returns (d: int, w: int, e: int)
    requires BmiAt(text, i).Some?
    ensures BmiMatch(text, i, d, w, e)
  {
    d := RunEnd(text, i + |BmiKeyword|, IsSep);
    w := RunEnd(text, d, IsDigit);
    e := if w < |text| && text[w] == '.' then RunEnd(text, w + 1, IsDigit) else w;
  }

  lemma BmiAtIsMatch(text: string, i: nat)
    ensures BmiAt(text, i).Some? <==> exists d, w, e :: BmiMatch(text, i, d, w, e)
    ensures forall d, w, e :: BmiMatch(text, i, d, w, e) ==> BmiAt(text, i) == Some(text[d..e])
  {
    if BmiAt(text, i).Some? {
      var d, w, e := BmiScanIsMatch(text, i);
    }
    forall d, w, e | BmiMatch(text, i, d, w, e) ensures BmiAt(text, i) == Some(text[d..e]) {
      BmiMatchIsScan(text, i, d, w, e);
    }
  }

  function FindBmi(text: string): Option<string>
  {
    Leftmost(text, BmiAt, 0)
  }

  lemma FindBmiLeftmost(text: string, i: nat, d: int, w: int, e: int)
    requires BmiMatch(text, i, d, w, e)
    requires forall j: nat, d', w', e' :: j < i ==> !BmiMatch(text, j, d', w', e')
    ensures FindBmi(text) == Some(text[d..e])
  {
    BmiMatchIsScan(text, i, d, w, e);
    forall j: nat | j < i ensures BmiAt(text, j).None? {
      if BmiAt(text, j).Some? {
        var d', w', e' := BmiScanIsMatch(text, j);
      }
    }
    LeftmostAt(text, BmiAt, 0, i);
  }

  lemma FindBmiNone(text: string)
    ensures FindBmi(text).None? <==> forall i: nat, d, w, e :: !BmiMatch(text, i, d, w, e)
  {
    if FindBmi(text).Some? {
      var i := LeftmostFound(text, BmiAt, 0);
      var d, w, e := BmiScanIsMatch(text, i);
    } else {
      LeftmostNone(text, BmiAt, 0);
    }
    forall i: nat, d, w, e | BmiMatch(text, i, d, w, e)
      ensures i <= |text| && BmiAt(text, i).Some?
    {
      BmiMatchIsScan(text, i, d, w, e);
    }
  }

  // ---------------------------------------------------------------------
  // /medications?[:\s]+([\w\s,]+)/gi

  /** The largest position c in [lo, hi] with c < |text| and p(text[c]). */
  function LastWhere(text: string, lo: nat, hi: nat, p: char -> bool): (r: Option<nat>)
    ensures r.Some? ==> lo <= r.value <= hi && r.value < |text| && p(text[r.value])
    ensures r.Some? ==> forall c :: r.value < c <= hi && c < |text| ==> !p(text[c])
    ensures r.None? ==> forall c :: lo <= c <= hi && c < |text| ==> !p(text[c])
    decreases hi
  {
    if hi < lo then None
    else if hi < |text| && p(text[hi]) then Some(hi)
    else if hi == lo then None
    else LastWhere(text, lo, hi - 1, p)
  }

  /** Where the separator starts: after the keyword and, when the next letter is an s, after it too. */
  function MedicationSepStart(text: string, i: nat): nat
  {
    if i + |MedicationKeyword| < |text| && LowerAscii(text[i + |MedicationKeyword|]) == 's'
    then i + |MedicationKeyword| + 1 else i + |MedicationKeyword|
  }

  /**
   * The group of the pattern tried at i, as the span (c, e). The greedy
   * [:\s]+ first takes every separator character; when the character after
   * them cannot start the group it gives back trailing whitespace one
   * character at a time, so the group starts at the last position c in the
   * separator run (or just after it) whose character is in [\w\s,].
   */
  function MedicationAt(text: string, i: nat): (r: Option<(nat, nat)>)
    ensures r.Some? ==> i < r.value.0 < r.value.1 <= |text|
    ensures r.Some? ==> forall k :: r.value.0 <= k < r.value.1 ==> IsListChar(text[k])
  {
    if !KeywordAt(text, i, MedicationKeyword) then None
    else
      var s := MedicationSepStart(text, i);
      var p := RunEnd(text, s, IsSep);
      if p == s then None
      else
        match LastWhere(text, s + 1, p, IsListChar)
        case None => None
        case Some(c) => Some((c, RunEnd(text, c, IsListChar)))
  }

  /**
   * One way the pattern can match at i: the optional s taken exactly when
   * s == i + 11, the separator text[s..c], and the group text[c..e], which
   * the greedy [\w\s,]+ extends as far as it can.
   */
  ghost predicate MedicationPath(text: string, i: nat, s: int, c: int, e: int)
  {
    && KeywordAt(text, i, MedicationKeyword)
    && (s == i + |MedicationKeyword| ||
        (s == i + |MedicationKeyword| + 1 && s <= |text| && LowerAscii(text[s - 1]) == 's'))
    && s < c < e <= |text|
    && AllIn(text, s, c, IsSep)
    && AllIn(text, c, e, IsListChar)
    && (e == |text| || !IsListChar(text[e]))
  }

  /**
   * The path a backtracking matcher reports: no other path takes the optional
   * s where this one does not, and none with the same choice of s has a
   * longer separator.
   */
  ghost predicate MedicationMatch(text: string, i: nat, s: int, c: int, e: int)
  {
    && MedicationPath(text, i, s, c, e)
    && forall s', c', e' :: MedicationPath(text, i, s', c', e') ==> s' < s || (s' == s && c' <= c)
  }

  /** Every path starts its separator where the scanner does and ends it inside the separator run. */
  lemma MedicationPathInRun(text: string, i: nat, s: int, c: int, e: int)
    requires MedicationPath(text, i, s, c, e)
    ensures s == MedicationSepStart(text, i)
    ensures c <= RunEnd(text, s, IsSep)
  {
    assert IsSep(text[s]);
    RunEndCovers(text, s, c, IsSep);
  }

  lemma MedicationMatchIsScan(text: string, i: nat, s: int, c: int, e: int)
    requires MedicationMatch(text, i, s, c, e)
    ensures MedicationAt(text, i) == Some((c, e))
  {
    MedicationPathInRun(text, i, s, c, e);
    var p := RunEnd(text, s, IsSep);
    assert IsListChar(text[c]);
    var c0 := LastWhere(text, s + 1, p, IsListChar).value;
    var e0 := RunEnd(text, c0, IsListChar);
    assert MedicationPath(text, i, s, c0, e0);
    RunEndUnique(text, c, e, IsListChar);
  }

  lemma MedicationScanIsMatch(text: string, i: nat) returns (s: int, c: int, e: int)
    requires MedicationAt(text, i).Some?
    ensures MedicationMatch(text, i, s, c, e)
  {
    s := MedicationSepStart(text, i);
    var p := RunEnd(text, s, IsSep);
    c := LastWhere(text, s + 1, p, IsListChar).value;
    e := RunEnd(text, c, IsListChar);
    assert MedicationPath(text, i, s, c, e);
    forall s', c', e' | MedicationPath(text, i, s', c', e')
      ensures s' < s || (s' == s && c' <= c)
    {
      MedicationPathInRun(text, i, s', c', e');
      assert IsListChar(text[c']);
    }
  }

  lemma MedicationAtIsMatch(text: string, i: nat)
    ensures MedicationAt(text, i).Some? <==> exists s, c, e :: MedicationMatch(text, i, s, c, e)
    ensures forall s, c, e :: MedicationMatch(text, i, s, c, e) ==> MedicationAt(text, i) == Some((c, e))
  {
    if MedicationAt(text, i).Some? {
      var s, c, e := MedicationScanIsMatch(text, i);
    }
    forall s, c, e | MedicationMatch(text, i, s, c, e) ensures MedicationAt(text, i) == Some((c, e)) {
      MedicationMatchIsScan(text, i, s, c, e);
    }
  }

  /** A match found from `from` on lies after `from`, inside the text. */
  lemma MedicationSpanAfter(text: string, from: nat)
    requires from <= |text|
    ensures var r := Leftmost<(nat, nat)>(text, MedicationAt, from);
            r.Some? ==> from < r.value.0 < r.value.1 <= |text|
  {
    var r := Leftmost<(nat, nat)>(text, MedicationAt, from);
    if r.Some? {
      var i := LeftmostFound(text, MedicationAt, from);
      var span := MedicationAt(text, i).value;
      assert i < span.0 < span.1 <= |text|;
    }
  }

  /** The groups of all matches of the global pattern, in order: what matchAll yields. */
  function MedicationCaptures(text: string, from: nat): (caps: seq<string>)
    requires from <= |text|
    ensures forall k :: 0 <= k < |caps| ==> |caps[k]| > 0
    decreases |text| - from
  {
    var r := Leftmost<(nat, nat)>(text, MedicationAt, from);
    MedicationSpanAfter(text, from);
    if r.None? then [] else [text[r.value.0..r.value.1]] + MedicationCaptures(text, r.value.1)
  }

  /**
   * matchAll from `from`: the group of the leftmost match at or after `from`,
   * then the matches after the end of that one.
   */
  lemma MedicationCapturesLeftmost(text: string, from: nat, i: nat, s: int, c: int, e: int)
    requires from <= i
    requires MedicationMatch(text, i, s, c, e)
    requires forall j: nat, s', c', e' :: from <= j < i ==> !MedicationMatch(text, j, s', c', e')
    ensures from <= |text| && 0 <= c <= e <= |text|
    ensures MedicationCaptures(text, from) == [text[c..e]] + MedicationCaptures(text, e)
  {
    MedicationMatchIsScan(text, i, s, c, e);
    forall j: nat | from <= j < i ensures MedicationAt(text, j).None? {
      if MedicationAt(text, j).Some? {
        var s', c', e' := MedicationScanIsMatch(text, j);
      }
    }
    LeftmostAt(text, MedicationAt, from, i);
  }

  /** matchAll from `from` yields nothing exactly when no match starts at or after `from`. */
  lemma MedicationCapturesNone(text: string, from: nat)
    requires from <= |text|
    ensures MedicationCaptures(text, from) == [] <==>
            forall i: nat, s, c, e :: from <= i ==> !MedicationMatch(text, i, s, c, e)
  {
    if Leftmost<(nat, nat)>(text, MedicationAt, from).Some? {
      var i := LeftmostFound<(nat, nat)>(text, MedicationAt, from);
      var s, c, e := MedicationScanIsMatch(text, i);
    } else {
      LeftmostNone<(nat, nat)>(text, MedicationAt, from);
    }
    forall i: nat, s, c, e | from <= i && MedicationMatch(text, i, s, c, e)
      ensures i <= |text| && MedicationAt(text, i).Some?
    {
      MedicationMatchIsScan(text, i, s, c, e);
    }
  }

  /** One group's medications: the group split on commas, each piece trimmed. */
  function MedicationList(capture: string): (meds: seq<string>)
    ensures |meds| >= 1
    ensures forall k :: 0 <= k < |meds| ==> ',' !in meds[k]
    ensures forall k :: 0 <= k < |meds| && |meds[k]| > 0 ==>
              !IsSpace(meds[k][0]) && !IsSpace(meds[k][|meds[k]| - 1])
  {
    var parts := Split(capture, ',');
    var meds := TrimAll(parts);
    forall k | 0 <= k < |meds| ensures ',' !in meds[k] {
      assert ',' !in parts[k];
      TrimIsSubstring(parts[k]);
    }
    meds
  }

  /**
   * `split(',').map(m => m.trim())`: the list has one entry per comma-separated
   * piece of the group, in order, each the piece trimmed; empty pieces and
   * repeated names are kept.
   */
  lemma MedicationListPieces(capture: string)
    ensures var meds := MedicationList(capture);
            exists parts :: |parts| == |meds| && Join(parts, ",") == capture &&
                            forall k :: 0 <= k < |parts| ==> ',' !in parts[k] && meds[k] == Trim(parts[k])
  {
    var parts := Split(capture, ',');
    JoinSplit(capture, ',');
    assert Join(parts, ",") == capture;
  }

  /** The medications of a sequence of groups: each group's list, in order. */
  function MedicationsOf(captures: seq<string>): seq<string>
  {
    if captures == [] then []
    else MedicationsOf(captures[..|captures| - 1]) + MedicationList(captures[|captures| - 1])
  }

  /** One more group appends its list to the medications of the groups before it. */
  lemma MedicationsOfStep(captures: seq<string>, k: nat)
    requires k < |captures|
    ensures MedicationsOf(captures[..k + 1]) == MedicationsOf(captures[..k]) + MedicationList(captures[k])
  {
    assert captures[..k + 1][..k] == captures[..k];
  }

  /** Everything parseMedialRecord pushes onto the medication list for `text`, in order. */
  function MedicationsIn(text: string): seq<string>
  {
    MedicationsOf(MedicationCaptures(text, 0))
  }
  /** The example text starts with the keyword, in the plural and capitalised. */
  lemma KeywordRunOn(t: string)
    requires t == "Medications: A, B medication: C"
    ensures KeywordAt(t, 0, MedicationKeyword) && MedicationSepStart(t, 0) == 11
  {
    forall k | 0 <= k < |MedicationKeyword| ensures LowerAscii(t[k]) == MedicationKeyword[k] {
      LowerAsciiMatches(t[k], MedicationKeyword[k]);
    }
  }

  /** In the example text the first keyword's group runs on to the second keyword's colon. */
  lemma MedicationAtRunOn(t: string)
    requires t == "Medications: A, B medication: C"
    ensures MedicationAt(t, 0) == Some((13, 28))
  {
    KeywordRunOn(t);
    assert t[11] == ':' && t[12] == ' ' && t[13] == 'A';
    RunEndUnique(t, 11, 13, IsSep);
    assert LastWhere(t, 12, 13, IsListChar) == Some(13);
    assert t[28] == ':';
    RunEndUnique(t, 13, 28, IsListChar);
  }

  /** No keyword fits in the three characters left after the first group. */
  lemma MedicationCapturesRunOnTail(t: string)
    requires t == "Medications: A, B medication: C"
    ensures MedicationCaptures(t, 28) == []
  {
    forall j: nat | 28 <= j <= |t| ensures MedicationAt(t, j).None? {
      assert !KeywordAt(t, j, MedicationKeyword);
    }
    assert Leftmost<(nat, nat)>(t, MedicationAt, 31) == None;
    assert Leftmost<(nat, nat)>(t, MedicationAt, 30) == None;
    assert Leftmost<(nat, nat)>(t, MedicationAt, 29) == None;
  }

  /** ... so matchAll yields a single group, which holds the second keyword. */
  lemma MedicationCapturesRunOn(t: string)
    requires t == "Medications: A, B medication: C"
    ensures MedicationCaptures(t, 0) == ["A, B medication"]
  {
    MedicationAtRunOn(t);
    MedicationCapturesRunOnTail(t);
    assert Leftmost<(nat, nat)>(t, MedicationAt, 0) == Some((13, 28));
    assert t[13..28] == "A, B medication";
  }

  /** That group splits at its one comma into "A" and " B medication". */
  lemma SplitRunOn(group: string)
    requires group == "A, B medication"
    ensures Split(group, ',') == ["A", " B medication"]
  {
    var second := " B medication";
    var pieces := ["A", second];
    assert pieces[1..] == [second];
    assert Join(pieces, ",") == "A" + "," + second == group;
    SplitJoin(pieces, ',');
  }

  /** Trimming drops the space before the second piece. */
  lemma TrimRunOn(second: string)
    requires second == " B medication"
    ensures Trim(second) == "B medication"
  {
    assert second[0] == ' ' && second[1] == 'B';
    RunEndUnique(second, 0, 1, IsSpace);
  }

  /** The group's list is "A" and "B medication". */
  lemma MedicationListRunOn(group: string)
    requires group == "A, B medication"
    ensures MedicationList(group) == ["A", "B medication"]
  {
    SplitRunOn(group);
    TrimRunOn(" B medication");
    assert Trim("A") == "A";
  }

  /**
   * The list class [\w\s,] also takes spaces and ordinary words, so a second
   * keyword on the same run becomes part of the first group: "C" is never read.
   */
  lemma MedicationsRunOnIntoNextKeyword()
    ensures MedicationsIn("Medications: A, B medication: C") == ["A", "B medication"]
  {
    var group := "A, B medication";
    MedicationCapturesRunOn("Medications: A, B medication: C");
    MedicationListRunOn(group);
    assert [group][..0] == [];
  }
}
