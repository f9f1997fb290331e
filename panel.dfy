/**
 * The MedicalAdvicePanel object: its record lives in mutable fields, and
 * each method updates them step by step as the source does. Every method is
 * proved to leave the record in the state the matching function of the
 * Record module describes, so the properties proved about those functions
 * hold of the object.
 */
module Panel {
  import opened Wrappers
  import opened TextScan
  import opened Patterns
  import opened Record

  class MedicalAdvicePanel {
    /** The source of Math.random: the value of its n-th call. */
    const random: nat -> UnitInterval
    /** How many values have been drawn from `random` so far. */
    var draws: nat
    var vitals: Vitals
    var medications: seq<string>
    var bpTrends: seq<BpSample>
    var weightTrends: seq<WeightSample>
    var labTrends: seq<LabSample>

    function State(): Session
      reads this
    {
      Session(vitals, medications, Trends(bpTrends, weightTrends, labTrends), draws)
    }

    /** An empty record: no vitals, no medications, no trends. */
    constructor (random: nat -> UnitInterval)
      ensures this.random == random
      ensures State() == FreshSession
    {
      this.random := random;
      draws := 0;
      vitals := NoVitals;
      medications := [];
      bpTrends := [];
      weightTrends := [];
      labTrends := [];
    }

    /** One call of Math.random. */
    method NextRandom() returns (u: UnitInterval)
      modifies this`draws
      ensures u == random(old(draws))
      ensures draws == old(draws) + 1
    {
      u := random(draws);
      draws := draws + 1;
    }

    /** The blood-pressure series, drawn month by month: systolic, then diastolic. */
    method DrawBpTrend() returns (bp: seq<BpSample>)
      modifies this`draws
      ensures bp == BpSeries(random, old(draws), MonthCount)
      ensures draws == old(draws) + SeriesDraws
    {
      bp := [];
      for k := 0 to MonthCount
        invariant draws == old(draws) + 2 * k
        invariant bp == BpSeries(random, old(draws), k)
      {
        var systolic := NextRandom();
        var diastolic := NextRandom();
        bp := bp + [BpSample(MonthAt(k), RandomInt(115, 20, systolic), RandomInt(70, 15, diastolic))];
      }
    }

    /** The weight series, drawn month by month: weight, then BMI. */
    method DrawWeightTrend() returns (weight: seq<WeightSample>)
      modifies this`draws
      ensures weight == WeightSeries(random, old(draws), MonthCount)
      ensures draws == old(draws) + SeriesDraws
    {
      weight := [];
      for k := 0 to MonthCount
        invariant draws == old(draws) + 2 * k
        invariant weight == WeightSeries(random, old(draws), k)
      {
        var w := NextRandom();
        var b := NextRandom();
        weight := weight + [WeightSample(MonthAt(k), RandomInt(150, 10, w), RandomReal(22.0, 4.0, b))];
      }
    }

    /** The lab series, drawn month by month: cholesterol, then glucose. */
    method DrawLabTrend() returns (labs: seq<LabSample>)
      modifies this`draws
      ensures labs == LabSeries(random, old(draws), MonthCount)
      ensures draws == old(draws) + SeriesDraws
    {
      labs := [];
      for k := 0 to MonthCount
        invariant draws == old(draws) + 2 * k
        invariant labs == LabSeries(random, old(draws), k)
      {
        var cholesterol := NextRandom();
        var glucose := NextRandom();
        labs := labs + [LabSample(MonthAt(k), RandomInt(180, 40, cholesterol), RandomInt(85, 30, glucose))];
      }
    }

    /** Six months of blood-pressure, weight and lab samples replace the previous series. */
    method GenerateTrendData()
      modifies this`draws, this`bpTrends, this`weightTrends, this`labTrends
      ensures Trends(bpTrends, weightTrends, labTrends) == TrendsDrawn(random, old(draws))
      ensures draws == old(draws) + SeriesDraws + SeriesDraws + SeriesDraws
    {
      bpTrends := DrawBpTrend();
      weightTrends := DrawWeightTrend();
      labTrends := DrawLabTrend();
    }

    /** The placeholder half of generateSampleData: a random value for each vital that is missing. */
    method FillMissingVitals()
      modifies this`vitals, this`draws
      ensures (vitals, draws) == FillMissing(old(vitals), random, old(draws))
    {
      if vitals.bloodPressure.None? {
        var systolic := NextRandom();
        var diastolic := NextRandom();
        vitals := vitals.(bloodPressure := Some(BloodPressure(RandomInt(120, 20, systolic), RandomInt(70, 15, diastolic))));
      }
      if vitals.cholesterol.None? {
        var total := NextRandom();
        vitals := vitals.(cholesterol := Some(RandomInt(180, 40, total)));
      }
      if vitals.glucose.None? {
        var value := NextRandom();
        vitals := vitals.(glucose := Some(RandomInt(85, 30, value)));
      }
      if vitals.bmi.None? {
        var value := NextRandom();
        vitals := vitals.(bmi := Some(RandomReal(22.0, 6.0, value)));
      }
    }

    /** A placeholder for each missing vital, then fresh trends. */
    method GenerateSampleData()
      modifies this`vitals, this`draws, this`bpTrends, this`weightTrends, this`labTrends
      ensures State() == SampleDataGenerated(old(State()), random)
    {
      ghost var before := State();
      FillMissingVitals();
      SampleDataGeneratedFields(before, random, vitals, draws);
      GenerateTrendData();
    }

    /** The four extraction rules: each vital the text reports replaces the current one. */
    method ExtractVitalsFrom(text: string)
      modifies this`vitals
      ensures vitals == ExtractVitals(old(vitals), text)
    {
      var bp := ExtractedBloodPressure(text);
      if bp.Some? {
        vitals := vitals.(bloodPressure := bp);
      }
      var cholesterol := ExtractedNumber(text, CholesterolKeyword);
      if cholesterol.Some? {
        vitals := vitals.(cholesterol := cholesterol);
      }
      var glucose := ExtractedNumber(text, GlucoseKeyword);
      if glucose.Some? {
        vitals := vitals.(glucose := glucose);
      }
      var bmi := ExtractedBmi(text);
      if bmi.Some? {
        vitals := vitals.(bmi := bmi);
      }
    }

    /** Each match of the medication pattern, in order, has its comma-separated list appended. */
    method AppendMedications(text: string)
      modifies this`medications
      ensures medications == old(medications) + MedicationsIn(text)
    {
      var captures := MedicationCaptures(text, 0);
      for k := 0 to |captures|
        invariant medications == old(medications) + MedicationsOf(captures[..k])
      {
        MedicationsOfStep(captures, k);
        AppendAssoc(old(medications), MedicationsOf(captures[..k]), MedicationList(captures[k]));
        medications := medications + MedicationList(captures[k]);
      }
      assert captures[..|captures|] == captures;
    }

    /**
     * Reads the vitals and medications a record's text reports into the
     * record, then generates sample data for whatever is still missing.
     */
    method ParseMedicalRecord(text: string)
      modifies this`vitals, this`medications, this`draws, this`bpTrends, this`weightTrends, this`labTrends
      ensures State() == RecordParsed(old(State()), random, text)
    {
      ghost var before := State();
      ExtractVitalsFrom(text);
      AppendMedications(text);
      assert State() == before.(vitals := ExtractVitals(before.vitals, text), medications := before.medications + MedicationsIn(text));
      GenerateSampleData();
    }

    /** The text of every page, page after page, parsed as one record; a document that fails to load changes nothing. */
    method ExtractPdfData(document: Document)
      modifies this
      ensures State() == DocumentProcessed(old(State()), random, document)
    {
      match document
      case Unreadable =>
      case Pages(pages) =>
        var fullText := "";
        for i := 0 to |pages|
          invariant fullText == DocumentText(pages[..i])
        {
          assert pages[..i + 1][..i] == pages[..i];
          var pageText := Join(pages[i], " ");
          fullText := fullText + pageText + "\n";
        }
        assert pages[..|pages|] == pages;
        ParseMedicalRecord(fullText);
    }

    /**
     * Nothing happens for an empty batch; otherwise the files are processed
     * one after another and the dashboard is filled in from the record.
     */
    method ProcessFiles(files: seq<UploadedFile>) returns (dashboard: Dashboard)
      modifies this
      ensures (State(), dashboard) == FilesProcessed(old(State()), random, files)
    {
      if |files| == 0 {
        return NotShown;
      }
      for i := 0 to |files|
        invariant State() == BatchProcessed(old(State()), random, files[..i])
      {
        assert files[..i + 1][..i] == files[..i];
        ExtractPdfData(files[i].document);
      }
      assert files[..|files|] == files;
      dashboard := DashboardFor(State());
    }

    /** Files chosen through the file input are processed as they are. */
    method HandleFileSelect(files: seq<UploadedFile>) returns (dashboard: Dashboard)
      modifies this
      ensures (State(), dashboard) == FilesProcessed(old(State()), random, files)
    {
      dashboard := ProcessFiles(files);
    }

    /** Of the dropped files, only those of type application/pdf are processed. */
    method HandleFileDrop(files: seq<UploadedFile>) returns (dashboard: Dashboard)
      modifies this
      ensures (State(), dashboard) == FilesProcessed(old(State()), random, DroppedPdfs(files))
    {
      dashboard := ProcessFiles(DroppedPdfs(files));
    }
  }
}
