/**
 * The medical record the panel builds up (medicalData) and, as functions of
 * the record before an operation, what each operation of the panel makes of
 * it: parsing a record's text, filling in placeholder vitals, generating the
 * six-month trends, extracting a PDF and processing a batch of files.
 *
 * Math.random is a parameter `random`: `random(n)` is the value of its n-th
 * call, a real in [0, 1). The session counts the calls made so far, so every
 * operation draws the values that follow the ones already used, in the order
 * in which the source evaluates its Math.random calls.
 */
module Record {
  import opened Wrappers
  import opened TextScan
  import opened Patterns
  import opened Classify

  /** A value Math.random returns. */
  type UnitInterval = u: real | 0.0 <= u < 1.0 witness 0.0

  /** `base + Math.floor(Math.random() * span)`: an integer in [base, base + span). */
  function RandomInt(base: int, span: nat, u: UnitInterval): (n: int)
    requires span > 0
    ensures base <= n < base + span
  {
    FractionOfSpan(u, span);
    base + (u * span as real).Floor
  }

  /** A value of Math.random times a positive span stays below the span. */
  lemma FractionOfSpan(u: UnitInterval, span: nat)
    requires span > 0
    ensures 0.0 <= u * span as real < span as real
  {
    assert span as real - u * span as real == (1.0 - u) * span as real;
  }

  /** `base + Math.random() * span`: a real in [base, base + span). */
  function RandomReal(base: real, span: real, u: UnitInterval): (x: real)
    requires span > 0.0
    ensures base <= x < base + span
  {
    base + u * span
  }

  datatype BloodPressure = BloodPressure(systolic: int, diastolic: int)

  /**
   * medicalData.vitals: each vital is absent until a record supplies it or a
   * placeholder is generated for it. Cholesterol is the total, BMI the value.
   */
  datatype Vitals = Vitals(
    bloodPressure: Option<BloodPressure>,
    cholesterol: Option<int>,
    glucose: Option<int>,
    bmi: Option<real>)

  const NoVitals := Vitals(None, None, None, None)

  predicate Complete(v: Vitals)
  {
    v.bloodPressure.Some? && v.cholesterol.Some? && v.glucose.Some? && v.bmi.Some?
  }

  /** The months the trend charts cover. */
  datatype Month = Jan | Feb | Mar | Apr | May | Jun

  /** generateTrendData's month list has six entries. */
  const MonthCount: nat := 6

  /** The calls of Math.random one series takes: two per month. */
  const SeriesDraws: nat := 2 * MonthCount

  /** Entry i of generateTrendData's month list: Jan, Feb, Mar, Apr, May, Jun. */
  function MonthAt(i: nat): Month
    requires i < MonthCount
  {
    if i == 0 then Jan else if i == 1 then Feb else if i == 2 then Mar
    else if i == 3 then Apr else if i == 4 then May else Jun
  }

  datatype BpSample = BpSample(month: Month, systolic: int, diastolic: int)
  datatype WeightSample = WeightSample(month: Month, weight: int, bmi: real)
  datatype LabSample = LabSample(month: Month, cholesterol: int, glucose: int)

  /** The three trend series of the record (bpTrends, weightTrends, labTrends). */
  datatype Trends = Trends(
    bpTrends: seq<BpSample>,
    weightTrends: seq<WeightSample>,
    labTrends: seq<LabSample>)

  /** The series before the first generation: the source leaves them undefined; here they are empty. */
  const NoTrends := Trends([], [], [])

  /**
   * The panel's record: the vitals, the medication list, the trend series and
   * how many values of Math.random have been drawn.
   */
  datatype Session = Session(
    vitals: Vitals,
    medications: seq<string>,
    trends: Trends,
    draws: nat)

  const FreshSession := Session(NoVitals, [], NoTrends, 0)

  // ---------------------------------------------------------------------
  // Extraction of the vitals

  /** The systolic/diastolic reading of the leftmost blood-pressure match, parsed. */
  function ExtractedBloodPressure(text: string): (bp: Option<BloodPressure>)
    ensures bp.Some? <==> FindBloodPressure(text).Some?
    ensures bp.Some? ==> var g := FindBloodPressure(text).value;
              AllDigits(g.0) && AllDigits(g.1) &&
              bp.value == BloodPressure(ParseInt(g.0), ParseInt(g.1))
  {
    var r := FindBloodPressure(text);
    if r.None? then None
    else
      FindBloodPressureDigits(text);
      Some(BloodPressure(ParseInt(r.value.0), ParseInt(r.value.1)))
  }

  lemma FindBloodPressureDigits(text: string)
    ensures var r := FindBloodPressure(text);
            r.Some? ==> AllDigits(r.value.0) && AllDigits(r.value.1)
  {
    var r := FindBloodPressure(text);
    if r.Some? {
      var i := LeftmostFound(text, BloodPressureAt, 0);
    }
  }

  /** The value of the leftmost `kw[:\s]+(\d+)` match, parsed. */
  function ExtractedNumber(text: string, kw: string): (n: Option<int>)
    ensures n.Some? <==> FindNumber(text, kw).Some?
    ensures n.Some? ==> AllDigits(FindNumber(text, kw).value) &&
                        n.value == ParseInt(FindNumber(text, kw).value)
  {
    var r := FindNumber(text, kw);
    if r.None? then None
    else
      FindNumberDigits(text, kw);
      Some(ParseInt(r.value))
  }

  lemma FindNumberDigits(text: string, kw: string)
    ensures var r := FindNumber(text, kw);
            r.Some? ==> AllDigits(r.value)
  {
    var r := FindNumber(text, kw);
    var at := (t, j) => NumberAt(t, j, kw);
    assert r == Leftmost(text, at, 0);
    if r.Some? {
      var i := LeftmostFound(text, at, 0);
    }
  }

  /** The value of the leftmost BMI match, parsed as a decimal. */
  function ExtractedBmi(text: string): (b: Option<real>)
    ensures b.Some? <==> FindBmi(text).Some?
    ensures b.Some? ==> IsDecimalCapture(FindBmi(text).value) &&
                        b.value == ParseFloat(FindBmi(text).value)
  {
    var r := FindBmi(text);
    if r.None? then None
    else
      FindBmiDecimal(text);
      Some(ParseFloat(r.value))
  }

  lemma FindBmiDecimal(text: string)
    ensures var r := FindBmi(text);
            r.Some? ==> IsDecimalCapture(r.value)
  {
    var r := FindBmi(text);
    if r.Some? {
      var i := LeftmostFound(text, BmiAt, 0);
    }
  }

  /** A newer value where the text has one, the existing value otherwise. */
  function Override<T>(found: Option<T>, current: Option<T>): (r: Option<T>)
    ensures found.Some? ==> r == found
    ensures found.None? ==> r == current
  {
    if found.Some? then found else current
  }

  /** The vitals after the four extraction rules ran over `text`: each match replaces its vital. */
  function ExtractVitals(v: Vitals, text: string): (r: Vitals)
    ensures r.bloodPressure == Override(ExtractedBloodPressure(text), v.bloodPressure)
    ensures r.cholesterol == Override(ExtractedNumber(text, CholesterolKeyword), v.cholesterol)
    ensures r.glucose == Override(ExtractedNumber(text, GlucoseKeyword), v.glucose)
    ensures r.bmi == Override(ExtractedBmi(text), v.bmi)
  {
    Vitals(
      Override(ExtractedBloodPressure(text), v.bloodPressure),
      Override(ExtractedNumber(text, CholesterolKeyword), v.cholesterol),
      Override(ExtractedNumber(text, GlucoseKeyword), v.glucose),
      Override(ExtractedBmi(text), v.bmi))
  }

  /** parseInt of the digit run text[lo..hi]. */
  function DigitsValue(text: string, lo: nat, hi: nat): (n: nat)
    requires lo <= hi <= |text| && AllIn(text, lo, hi, IsDigit)
  {
    assert AllDigits(text[lo..hi]) by {
      forall k | 0 <= k < hi - lo ensures IsDigit(text[lo..hi][k]) {
        assert text[lo..hi][k] == text[lo + k];
      }
    }
    ParseInt(text[lo..hi])
  }

  /**
   * What the blood-pressure rule reads: nothing exactly when the pattern
   * matches nowhere in the text, and otherwise the two groups of the leftmost
   * match, parsed as integers.
   */
  lemma ExtractedBloodPressureIsLeftmost(text: string)
    ensures ExtractedBloodPressure(text).None? <==>
            forall i: nat, d, e1, e2 :: !BloodPressureMatch(text, i, d, e1, e2)
    ensures forall i: nat, d, e1, e2 ::
              BloodPressureMatch(text, i, d, e1, e2) &&
              (forall j: nat, d', e1', e2' :: j < i ==> !BloodPressureMatch(text, j, d', e1', e2')) ==>
              ExtractedBloodPressure(text) == Some(BloodPressure(DigitsValue(text, d, e1), DigitsValue(text, e1 + 1, e2)))
  {
    FindBloodPressureNone(text);
    forall i: nat, d, e1, e2 | BloodPressureMatch(text, i, d, e1, e2) &&
        (forall j: nat, d', e1', e2' :: j < i ==> !BloodPressureMatch(text, j, d', e1', e2'))
      ensures ExtractedBloodPressure(text) == Some(BloodPressure(DigitsValue(text, d, e1), DigitsValue(text, e1 + 1, e2)))
    {
      FindBloodPressureLeftmost(text, i, d, e1, e2);
    }
  }

  /**
   * What the cholesterol and glucose rules read: nothing exactly when the
   * pattern matches nowhere, and otherwise the leftmost match's group, parsed.
   */
  lemma ExtractedNumberIsLeftmost(text: string, kw: string)
    ensures ExtractedNumber(text, kw).None? <==> forall i: nat, d, e :: !NumberMatch(text, i, kw, d, e)
    ensures forall i: nat, d, e ::
              NumberMatch(text, i, kw, d, e) &&
              (forall j: nat, d', e' :: j < i ==> !NumberMatch(text, j, kw, d', e')) ==>
              ExtractedNumber(text, kw) == Some(DigitsValue(text, d, e))
  {
    FindNumberNone(text, kw);
    forall i: nat, d, e | NumberMatch(text, i, kw, d, e) &&
        (forall j: nat, d', e' :: j < i ==> !NumberMatch(text, j, kw, d', e'))
      ensures ExtractedNumber(text, kw) == Some(DigitsValue(text, d, e))
    {
      FindNumberLeftmost(text, kw, i, d, e);
    }
  }

  /**
   * What the BMI rule reads: nothing exactly when the pattern matches nowhere,
   * and otherwise the leftmost match's group, parsed as a decimal.
   */
  lemma ExtractedBmiIsLeftmost(text: string)
    ensures ExtractedBmi(text).None? <==> forall i: nat, d, w, e :: !BmiMatch(text, i, d, w, e)
    ensures forall i: nat, d, w, e ::
              BmiMatch(text, i, d, w, e) &&
              (forall j: nat, d', w', e' :: j < i ==> !BmiMatch(text, j, d', w', e')) ==>
              ExtractedBmi(text) == Some(ParseFloat(text[d..e]))
  {
    FindBmiNone(text);
    forall i: nat, d, w, e | BmiMatch(text, i, d, w, e) &&
        (forall j: nat, d', w', e' :: j < i ==> !BmiMatch(text, j, d', w', e'))
      ensures ExtractedBmi(text) == Some(ParseFloat(text[d..e]))
    {
      FindBmiLeftmost(text, i, d, w, e);
    }
  }

  /**
   * The blood-pressure rule over a text: without a match anywhere the reading
   * is kept; with one, the leftmost match's groups replace it.
   */
  lemma ExtractVitalsBloodPressure(v: Vitals, text: string)
    ensures (forall i: nat, d, e1, e2 :: !BloodPressureMatch(text, i, d, e1, e2)) ==>
            ExtractVitals(v, text).bloodPressure == v.bloodPressure
    ensures forall i: nat, d, e1, e2 ::
              BloodPressureMatch(text, i, d, e1, e2) &&
              (forall j: nat, d', e1', e2' :: j < i ==> !BloodPressureMatch(text, j, d', e1', e2')) ==>
              ExtractVitals(v, text).bloodPressure ==
                Some(BloodPressure(DigitsValue(text, d, e1), DigitsValue(text, e1 + 1, e2)))
  {
    ExtractedBloodPressureIsLeftmost(text);
  }

  /**
   * The cholesterol rule over a text: without a match anywhere the value is
   * kept; with one, the leftmost match's group replaces it.
   */
  lemma ExtractVitalsCholesterol(v: Vitals, text: string)
    ensures (forall i: nat, d, e :: !NumberMatch(text, i, CholesterolKeyword, d, e)) ==>
            ExtractVitals(v, text).cholesterol == v.cholesterol
    ensures forall i: nat, d, e ::
              NumberMatch(text, i, CholesterolKeyword, d, e) &&
              (forall j: nat, d', e' :: j < i ==> !NumberMatch(text, j, CholesterolKeyword, d', e')) ==>
              ExtractVitals(v, text).cholesterol == Some(DigitsValue(text, d, e))
  {
    ExtractedNumberIsLeftmost(text, CholesterolKeyword);
  }

  /**
   * The glucose rule over a text: without a match anywhere the value is kept;
   * with one, the leftmost match's group replaces it.
   */
  lemma ExtractVitalsGlucose(v: Vitals, text: string)
    ensures (forall i: nat, d, e :: !NumberMatch(text, i, GlucoseKeyword, d, e)) ==>
            ExtractVitals(v, text).glucose == v.glucose
    ensures forall i: nat, d, e ::
              NumberMatch(text, i, GlucoseKeyword, d, e) &&
              (forall j: nat, d', e' :: j < i ==> !NumberMatch(text, j, GlucoseKeyword, d', e')) ==>
              ExtractVitals(v, text).glucose == Some(DigitsValue(text, d, e))
  {
    ExtractedNumberIsLeftmost(text, GlucoseKeyword);
  }

  /**
   * The BMI rule over a text: without a match anywhere the value is kept;
   * with one, the leftmost match's group, parsed as a decimal, replaces it.
   */
  lemma ExtractVitalsBmi(v: Vitals, text: string)
    ensures (forall i: nat, d, w, e :: !BmiMatch(text, i, d, w, e)) ==>
            ExtractVitals(v, text).bmi == v.bmi
    ensures forall i: nat, d, w, e ::
              BmiMatch(text, i, d, w, e) &&
              (forall j: nat, d', w', e' :: j < i ==> !BmiMatch(text, j, d', w', e')) ==>
              ExtractVitals(v, text).bmi == Some(ParseFloat(text[d..e]))
  {
    ExtractedBmiIsLeftmost(text);
  }

  // ---------------------------------------------------------------------
  // Placeholders and trends

  /** Every vital present in `before` is unchanged in `after`. */
  predicate KeepsPresent(before: Vitals, after: Vitals)
  {
    (before.bloodPressure.Some? ==> after.bloodPressure == before.bloodPressure) &&
    (before.cholesterol.Some? ==> after.cholesterol == before.cholesterol) &&
    (before.glucose.Some? ==> after.glucose == before.glucose) &&
    (before.bmi.Some? ==> after.bmi == before.bmi)
  }

  /** Every vital absent from `before` is present in `after` and within its placeholder range. */
  predicate PlaceholdersInRange(before: Vitals, after: Vitals)
  {
    (before.bloodPressure.None? ==>
       after.bloodPressure.Some? &&
       120 <= after.bloodPressure.value.systolic <= 139 &&
       70 <= after.bloodPressure.value.diastolic <= 84) &&
    (before.cholesterol.None? ==> after.cholesterol.Some? && 180 <= after.cholesterol.value <= 219) &&
    (before.glucose.None? ==> after.glucose.Some? && 85 <= after.glucose.value <= 114) &&
    (before.bmi.None? ==> after.bmi.Some? && 22.0 <= after.bmi.value < 28.0)
  }

  /**
   * The vitals of generateSampleData: each absent vital drawn in source order
   * (systolic, diastolic, cholesterol, glucose, BMI) from the values of
   * `random` starting at call n; also the number of the next unused call.
   */
  function FillMissing(v: Vitals, random: nat -> UnitInterval, n: nat): (r: (Vitals, nat))
    ensures Complete(r.0)
    ensures KeepsPresent(v, r.0)
    ensures PlaceholdersInRange(v, r.0)
    ensures r.0 == v <==> Complete(v)
    ensures n <= r.1 <= n + 5
    ensures r.1 == n <==> Complete(v)
  {
    var (bp, n1) :=
      if v.bloodPressure.Some? then (v.bloodPressure, n)
      else (Some(BloodPressure(RandomInt(120, 20, random(n)), RandomInt(70, 15, random(n + 1)))), n + 2);
    var (chol, n2) :=
      if v.cholesterol.Some? then (v.cholesterol, n1)
      else (Some(RandomInt(180, 40, random(n1))), n1 + 1);
    var (glucose, n3) :=
      if v.glucose.Some? then (v.glucose, n2)
      else (Some(RandomInt(85, 30, random(n2))), n2 + 1);
    var (bmi, n4) :=
      if v.bmi.Some? then (v.bmi, n3)
      else (Some(RandomReal(22.0, 6.0, random(n3))), n3 + 1);
    (Vitals(bp, chol, glucose, bmi), n4)
  }

  /** The blood-pressure sample of month i in a series begun at call n: calls n + 2i (systolic) and n + 2i + 1 (diastolic). */
  function BpSampleAt(random: nat -> UnitInterval, n: nat, i: nat): BpSample
    requires i < MonthCount
  {
    BpSample(MonthAt(i), RandomInt(115, 20, random(n + 2 * i)), RandomInt(70, 15, random(n + 2 * i + 1)))
  }

  /** The weight sample of month i in a series begun at call n: calls n + 2i (weight) and n + 2i + 1 (BMI). */
  function WeightSampleAt(random: nat -> UnitInterval, n: nat, i: nat): WeightSample
    requires i < MonthCount
  {
    WeightSample(MonthAt(i), RandomInt(150, 10, random(n + 2 * i)), RandomReal(22.0, 4.0, random(n + 2 * i + 1)))
  }

  /** The lab sample of month i in a series begun at call n: calls n + 2i (cholesterol) and n + 2i + 1 (glucose). */
  function LabSampleAt(random: nat -> UnitInterval, n: nat, i: nat): LabSample
    requires i < MonthCount
  {
    LabSample(MonthAt(i), RandomInt(180, 40, random(n + 2 * i)), RandomInt(85, 30, random(n + 2 * i + 1)))
  }

  /** The map over the first `count` months of the blood-pressure series begun at call n. */
  function BpSeries(random: nat -> UnitInterval, n: nat, count: nat): seq<BpSample>
    requires count <= MonthCount
  {
    seq(count, i requires 0 <= i < count => BpSampleAt(random, n, i))
  }

  function WeightSeries(random: nat -> UnitInterval, n: nat, count: nat): seq<WeightSample>
    requires count <= MonthCount
  {
    seq(count, i requires 0 <= i < count => WeightSampleAt(random, n, i))
  }

  function LabSeries(random: nat -> UnitInterval, n: nat, count: nat): seq<LabSample>
    requires count <= MonthCount
  {
    seq(count, i requires 0 <= i < count => LabSampleAt(random, n, i))
  }

  /** One blood-pressure sample per month, labelled with it, each value within the generator's range. */
  predicate BpSeriesInRange(t: seq<BpSample>)
  {
    |t| == MonthCount &&
    forall j :: 0 <= j < |t| ==>
      t[j].month == MonthAt(j) && 115 <= t[j].systolic <= 134 && 70 <= t[j].diastolic <= 84
  }

  /** One weight sample per month, labelled with it, each value within the generator's range. */
  predicate WeightSeriesInRange(t: seq<WeightSample>)
  {
    |t| == MonthCount &&
    forall j :: 0 <= j < |t| ==>
      t[j].month == MonthAt(j) && 150 <= t[j].weight <= 159 && 22.0 <= t[j].bmi < 26.0
  }

  /** One lab sample per month, labelled with it, each value within the generator's range. */
  predicate LabSeriesInRange(t: seq<LabSample>)
  {
    |t| == MonthCount &&
    forall j :: 0 <= j < |t| ==>
      t[j].month == MonthAt(j) && 180 <= t[j].cholesterol <= 219 && 85 <= t[j].glucose <= 114
  }

  /** Three six-month series labelled Jan to Jun, each value within its generator's range. */
  predicate TrendsInRange(t: Trends)
  {
    BpSeriesInRange(t.bpTrends) && WeightSeriesInRange(t.weightTrends) && LabSeriesInRange(t.labTrends)
  }

  /**
   * The series generateTrendData draws from call n of Math.random on: 12
   * calls for blood pressure, then 12 for weight, then 12 for the labs.
   */
  function TrendsDrawn(random: nat -> UnitInterval, n: nat): Trends
  {
    Trends(BpSeries(random, n, MonthCount),
           WeightSeries(random, n + SeriesDraws, MonthCount),
           LabSeries(random, n + SeriesDraws + SeriesDraws, MonthCount))
  }

  /** Fresh trends are three six-month series, labelled Jan to Jun, every value in its range. */
  lemma TrendsDrawnInRange(random: nat -> UnitInterval, n: nat)
    ensures TrendsInRange(TrendsDrawn(random, n))
  {
  }

  /** generateTrendData: all three series replaced by freshly drawn ones, using the next 36 calls. */
  function TrendsGenerated(s: Session, random: nat -> UnitInterval): Session
  {
    s.(trends := TrendsDrawn(random, s.draws), draws := s.draws + SeriesDraws + SeriesDraws + SeriesDraws)
  }

  /** generateSampleData: placeholders for the missing vitals, then fresh trends. */
  function SampleDataGenerated(s: Session, random: nat -> UnitInterval): Session
  {
    var (v, n) := FillMissing(s.vitals, random, s.draws);
    TrendsGenerated(s.(vitals := v, draws := n), random)
  }

  /** generateSampleData field by field, given the outcome of the placeholder step. */
  lemma SampleDataGeneratedFields(s: Session, random: nat -> UnitInterval, v: Vitals, n: nat)
    requires (v, n) == FillMissing(s.vitals, random, s.draws)
    ensures SampleDataGenerated(s, random)
            == Session(v, s.medications, TrendsDrawn(random, n), n + SeriesDraws + SeriesDraws + SeriesDraws)
  {
  }

  /**
   * Sample data fills in only what is missing: afterwards every vital is
   * present, the ones present before are unchanged, the others lie in their
   * placeholder ranges, and the trends are generated.
   */
  lemma SampleDataFills(s: Session, random: nat -> UnitInterval)
    ensures var r := SampleDataGenerated(s, random);
            Complete(r.vitals) && TrendsInRange(r.trends) &&
            KeepsPresent(s.vitals, r.vitals) && PlaceholdersInRange(s.vitals, r.vitals) &&
            r.medications == s.medications &&
            s.draws + 36 <= r.draws <= s.draws + 41
  {
    var (v, n) := FillMissing(s.vitals, random, s.draws);
    TrendsDrawnInRange(random, n);
  }

  /** Generating sample data a second time changes no vital, only the trends. */
  lemma SampleDataIdempotentOnVitals(s: Session, random: nat -> UnitInterval)
    ensures var r := SampleDataGenerated(s, random);
            SampleDataGenerated(r, random).vitals == r.vitals
  {
    var r := SampleDataGenerated(s, random);
    SampleDataFills(s, random);
    SampleDataFills(r, random);
  }

  // ---------------------------------------------------------------------
  // Parsing a record, extracting a PDF, processing a batch

  /**
   * parseMedialRecord: the vitals the text supplies replace the current ones,
   * the medications it lists are appended, and sample data fills the rest.
   */
  function RecordParsed(s: Session, random: nat -> UnitInterval, text: string): Session
  {
    var extracted := ExtractVitals(s.vitals, text);
    SampleDataGenerated(s.(vitals := extracted, medications := s.medications + MedicationsIn(text)), random)
  }

  /**
   * After parsing, the medications of the text follow the earlier ones; every
   * vital the text reports has that value; a vital it does not report keeps its
   * earlier value when there was one; and the record is complete.
   */
  lemma RecordParsedEffect(s: Session, random: nat -> UnitInterval, text: string)
    ensures var r := RecordParsed(s, random, text);
            r.medications == s.medications + MedicationsIn(text) &&
            Complete(r.vitals) && TrendsInRange(r.trends)
    ensures var r := RecordParsed(s, random, text);
            (ExtractedBloodPressure(text).Some? ==> r.vitals.bloodPressure == ExtractedBloodPressure(text)) &&
            (ExtractedNumber(text, CholesterolKeyword).Some? ==>
               r.vitals.cholesterol == ExtractedNumber(text, CholesterolKeyword)) &&
            (ExtractedNumber(text, GlucoseKeyword).Some? ==>
               r.vitals.glucose == ExtractedNumber(text, GlucoseKeyword)) &&
            (ExtractedBmi(text).Some? ==> r.vitals.bmi == ExtractedBmi(text))
    ensures var r := RecordParsed(s, random, text);
            KeepsPresent(ExtractVitals(s.vitals, text), r.vitals) &&
            PlaceholdersInRange(ExtractVitals(s.vitals, text), r.vitals)
  {
    var extracted := ExtractVitals(s.vitals, text);
    SampleDataFills(s.(vitals := extracted, medications := s.medications + MedicationsIn(text)), random);
  }

  /** A PDF as the extractor sees it: the text items of each page, or a document that fails to load. */
  datatype Document = Pages(pages: seq<seq<string>>) | Unreadable

  datatype UploadedFile = UploadedFile(name: string, mimeType: string, document: Document)

  /** The extracted text: each page's items joined by spaces and followed by a newline. */
  function DocumentText(pages: seq<seq<string>>): (text: string)
    ensures |text| >= |pages|
    ensures pages != [] ==> text[|text| - 1] == '\n'
  {
    if pages == [] then ""
    else DocumentText(pages[..|pages| - 1]) + Join(pages[|pages| - 1], " ") + "\n"
  }

  /** The text is built page by page: the pages of a + b give a's text followed by b's. */
  lemma {:induction false} DocumentTextAppend(a: seq<seq<string>>, b: seq<seq<string>>)
    ensures DocumentText(a + b) == DocumentText(a) + DocumentText(b)
    decreases |b|
  {
    if b == [] {
      assert a + b == a;
    } else {
      var init, last := b[..|b| - 1], b[|b| - 1];
      var line := Join(last, " ") + "\n";
      assert (a + b)[..|a + b| - 1] == a + init && (a + b)[|a + b| - 1] == last;
      assert DocumentText(a + b) == DocumentText(a + init) + line;
      assert DocumentText(b) == DocumentText(init) + line;
      DocumentTextAppend(a, init);
      AppendAssoc(DocumentText(a), DocumentText(init), line);
    }
  }

  /** One page contributes its items joined by single spaces, then a newline. */
  lemma DocumentTextSingle(page: seq<string>)
    ensures DocumentText([page]) == Join(page, " ") + "\n"
  {
    assert [page][..0] == [];
  }

  /** extractPDFData: a readable document's text is parsed; a failing one leaves the record as it was. */
  function DocumentProcessed(s: Session, random: nat -> UnitInterval, d: Document): (r: Session)
    ensures d.Unreadable? ==> r == s
    ensures d.Pages? ==> r == RecordParsed(s, random, DocumentText(d.pages))
  {
    match d
    case Unreadable => s
    case Pages(pages) => RecordParsed(s, random, DocumentText(pages))
  }

  /** A document appends the medications its text lists, and only when it loads. */
  lemma DocumentMedications(s: Session, random: nat -> UnitInterval, d: Document)
    ensures DocumentProcessed(s, random, d).medications ==
            s.medications + (if d.Pages? then MedicationsIn(DocumentText(d.pages)) else [])
  {
    if d.Pages? {
      var text := DocumentText(d.pages);
      var t := s.(vitals := ExtractVitals(s.vitals, text), medications := s.medications + MedicationsIn(text));
      var (v, n) := FillMissing(t.vitals, random, t.draws);
      SampleDataGeneratedFields(t, random, v, n);
    } else {
      assert s.medications + [] == s.medications;
    }
  }

  /** A document that loads leaves every vital present and fresh trends. */
  lemma DocumentCompletes(s: Session, random: nat -> UnitInterval, d: Document)
    requires d.Pages?
    ensures Complete(DocumentProcessed(s, random, d).vitals)
    ensures TrendsInRange(DocumentProcessed(s, random, d).trends)
  {
    RecordParsedEffect(s, random, DocumentText(d.pages));
  }

  /** The loop of processFiles: the files' documents processed one after another, in order. */
  function BatchProcessed(s: Session, random: nat -> UnitInterval, files: seq<UploadedFile>): (r: Session)
    ensures files == [] ==> r == s
    decreases |files|
  {
    if files == [] then s
    else DocumentProcessed(BatchProcessed(s, random, files[..|files| - 1]), random, files[|files| - 1].document)
  }

  const PdfMimeType: string := "application/pdf"

  /** The drop handler's filter: the dropped files whose type is application/pdf, in order. */
  function DroppedPdfs(files: seq<UploadedFile>): (r: seq<UploadedFile>)
    ensures |r| <= |files|
    ensures forall f :: f in r <==> f in files && f.mimeType == PdfMimeType
    ensures (forall k :: 0 <= k < |files| ==> files[k].mimeType == PdfMimeType) ==> r == files
  {
    if files == [] then []
    else
      var last := files[|files| - 1];
      var init := files[..|files| - 1];
      assert files == init + [last];
      DroppedPdfs(init) + (if last.mimeType == PdfMimeType then [last] else [])
  }

  lemma AppendAssoc<T>(x: seq<T>, y: seq<T>, z: seq<T>)
    ensures (x + y) + z == x + (y + z)
  {
  }

  /** The drop filter works file by file: filtering a + b is filtering a, then b. */
  lemma {:induction false} DroppedPdfsAppend(a: seq<UploadedFile>, b: seq<UploadedFile>)
    ensures DroppedPdfs(a + b) == DroppedPdfs(a) + DroppedPdfs(b)
    decreases |b|
  {
    if b == [] {
      assert a + b == a;
    } else {
      var init, last := b[..|b| - 1], b[|b| - 1];
      var kept := if last.mimeType == PdfMimeType then [last] else [];
      assert (a + b)[..|a + b| - 1] == a + init && (a + b)[|a + b| - 1] == last;
      assert DroppedPdfs(a + b) == DroppedPdfs(a + init) + kept;
      assert DroppedPdfs(b) == DroppedPdfs(init) + kept;
      DroppedPdfsAppend(a, init);
      AppendAssoc(DroppedPdfs(a), DroppedPdfs(init), kept);
    }
  }

  /** One dropped file is kept exactly when it is a PDF. */
  lemma DroppedPdfsSingle(f: UploadedFile)
    ensures DroppedPdfs([f]) == if f.mimeType == PdfMimeType then [f] else []
  {
    assert [f][..0] == [];
  }

  // ---------------------------------------------------------------------
  // The dashboard

  /** What the dashboard's data-driven parts show. */
  datatype Summary = Summary(
    reading: BloodPressure,
    bloodPressure: BpStatus,
    bmi: BmiStatus,
    risk: RiskProfile,
    medications: seq<string>)

  /**
   * The outcome of processFiles: nothing shown for an empty batch; the
   * dashboard filled in; or updateDashboard failing on a vital that is absent
   * (the first such read is `bp.systolic` when there is no reading), so
   * nothing on the dashboard is filled in. Every record the panel can reach
   * has either all four vitals or none (BatchCompletes), so Broken arises
   * only for a record without any vital.
   */
  datatype Dashboard = NotShown | Shown(summary: Summary) | Broken

  /** The medication card lists the extracted medications, or two fixed examples when there are none. */
  const ExampleMedications: seq<string> := ["Lisinopril 10mg", "Metformin 500mg"]

  function DisplayedMedications(meds: seq<string>): (shown: seq<string>)
    ensures meds != [] ==> shown == meds
    ensures meds == [] ==> shown == ExampleMedications
  {
    if |meds| > 0 then meds else ExampleMedications
  }

  /** updateDashboard over the record's vitals and medications. */
  function DashboardFor(s: Session): (d: Dashboard)
    ensures d.Shown? <==> Complete(s.vitals)
    ensures d.Broken? <==> !Complete(s.vitals)
    ensures d.Shown? ==>
              var bp := s.vitals.bloodPressure.value;
              d.summary.reading == bp &&
              d.summary.bloodPressure == BloodPressureStatus(bp.systolic, bp.diastolic) &&
              d.summary.bmi == BmiStatusOf(s.vitals.bmi.value) &&
              d.summary.risk.stroke == d.summary.risk.cardiovascular &&
              d.summary.risk.cardiovascular == CardiovascularRisk(bp.systolic, s.vitals.cholesterol.value) &&
              d.summary.risk.diabetes == Risk.Low &&
              |d.summary.medications| > 0
  {
    if !Complete(s.vitals) then Broken
    else
      var bp := s.vitals.bloodPressure.value;
      Shown(Summary(bp,
                    BloodPressureStatus(bp.systolic, bp.diastolic),
                    BmiStatusOf(s.vitals.bmi.value),
                    AssessRisk(bp.systolic, s.vitals.cholesterol.value),
                    DisplayedMedications(s.medications)))
  }

  /** processFiles as a whole: the batch, then the dashboard, unless the batch is empty. */
  function FilesProcessed(s: Session, random: nat -> UnitInterval, files: seq<UploadedFile>): (r: (Session, Dashboard))
    ensures files == [] ==> r == (s, NotShown)
    ensures files != [] ==> r.0 == BatchProcessed(s, random, files) && r.1 == DashboardFor(r.0)
  {
    if files == [] then (s, NotShown)
    else
      var t := BatchProcessed(s, random, files);
      (t, DashboardFor(t))
  }
}
