/**
 * Properties of processing a batch of files: processing composes over
 * concatenated batches, documents that fail to load change nothing, the
 * medication list accumulates every readable record's medications in order,
 * one readable document completes the vitals, the last record that reports a
 * vital decides it, and on a fresh record the dashboard breaks exactly when
 * no document of the batch loads.
 */
module Batch {
  import opened Wrappers
  import opened TextScan
  import opened Patterns
  import opened Record

  /** The files whose document loads, in order. */
  function Readable(files: seq<UploadedFile>): (r: seq<UploadedFile>)
    ensures |r| <= |files|
    ensures forall k :: 0 <= k < |r| ==> r[k].document.Pages?
    ensures r == [] <==> forall k :: 0 <= k < |files| ==> files[k].document.Unreadable?
    ensures forall f :: f in r <==> f in files && f.document.Pages?
    decreases |files|
  {
    if files == [] then []
    else
      var init := files[..|files| - 1];
      var last := files[|files| - 1];
      var r := Readable(init) + (if last.document.Pages? then [last] else []);
      assert forall k :: 0 <= k < |init| ==> init[k] == files[k];
      assert files == init + [last];
      r
  }

  /** Readable works file by file: the readable files of a + b are those of a, then those of b. */
  lemma {:induction false} ReadableAppend(a: seq<UploadedFile>, b: seq<UploadedFile>)
    ensures Readable(a + b) == Readable(a) + Readable(b)
    decreases |b|
  {
    if b == [] {
      assert a + b == a;
    } else {
      var init, last := b[..|b| - 1], b[|b| - 1];
      var kept := if last.document.Pages? then [last] else [];
      assert (a + b)[..|a + b| - 1] == a + init && (a + b)[|a + b| - 1] == last;
      assert Readable(a + b) == Readable(a + init) + kept;
      assert Readable(b) == Readable(init) + kept;
      ReadableAppend(a, init);
      AppendAssoc(Readable(a), Readable(init), kept);
    }
  }

  /** One file is kept exactly when its document loads. */
  lemma ReadableSingle(f: UploadedFile)
    ensures Readable([f]) == if f.document.Pages? then [f] else []
  {
    assert [f][..0] == [];
  }

  /** The medications a batch contributes: those of each readable document's text, in file order. */
  function BatchMedications(files: seq<UploadedFile>): seq<string>
    decreases |files|
  {
    if files == [] then []
    else
      var last := files[|files| - 1];
      BatchMedications(files[..|files| - 1]) +
        (if last.document.Pages? then MedicationsIn(DocumentText(last.document.pages)) else [])
  }

  /** Processing a + b is processing a, then b from where a left the record. */
  lemma {:induction false} BatchAppend(s: Session, random: nat -> UnitInterval, a: seq<UploadedFile>, b: seq<UploadedFile>)
    ensures BatchProcessed(s, random, a + b) == BatchProcessed(BatchProcessed(s, random, a), random, b)
    decreases |b|
  {
    if b == [] {
      assert a + b == a;
    } else {
      var init, last := b[..|b| - 1], b[|b| - 1];
      assert b == init + [last];
      assert a + b == (a + init) + [last];
      BatchSnoc(s, random, a + init, last);
      BatchAppend(s, random, a, init);
      BatchSnoc(BatchProcessed(s, random, a), random, init, last);
    }
  }

  /** Processing one more file is processing its document after the others. */
  lemma BatchSnoc(s: Session, random: nat -> UnitInterval, files: seq<UploadedFile>, f: UploadedFile)
    ensures BatchProcessed(s, random, files + [f]) ==
            DocumentProcessed(BatchProcessed(s, random, files), random, f.document)
  {
    assert (files + [f])[..|files|] == files;
  }

  /** A file whose document fails to load leaves the record as it was. */
  lemma UnreadableSkipped(s: Session, random: nat -> UnitInterval, files: seq<UploadedFile>, f: UploadedFile)
    requires f.document.Unreadable?
    ensures BatchProcessed(s, random, files + [f]) == BatchProcessed(s, random, files)
  {
    assert (files + [f])[..|files|] == files;
  }

  /** Only the readable documents matter: the batch acts as its readable files alone. */
  lemma {:induction false} BatchIgnoresUnreadable(s: Session, random: nat -> UnitInterval, files: seq<UploadedFile>)
    ensures BatchProcessed(s, random, files) == BatchProcessed(s, random, Readable(files))
    decreases |files|
  {
    if files != [] {
      var init := files[..|files| - 1];
      var last := files[|files| - 1];
      assert files == init + [last];
      BatchIgnoresUnreadable(s, random, init);
      BatchSnoc(s, random, init, last);
      if last.document.Pages? {
        assert Readable(files) == Readable(init) + [last];
        BatchSnoc(s, random, Readable(init), last);
      } else {
        assert Readable(files) == Readable(init) + [];
        assert Readable(init) + [] == Readable(init);
      }
    }
  }

  /** A batch in which no document loads changes nothing. */
  lemma NoReadableNoChange(s: Session, random: nat -> UnitInterval, files: seq<UploadedFile>)
    requires forall k :: 0 <= k < |files| ==> files[k].document.Unreadable?
    ensures BatchProcessed(s, random, files) == s
  {
    BatchIgnoresUnreadable(s, random, files);
  }

  /** The medication list only grows: each readable record's medications are appended in file order. */
  lemma {:induction false} MedicationsAccumulate(s: Session, random: nat -> UnitInterval, files: seq<UploadedFile>)
    ensures BatchProcessed(s, random, files).medications == s.medications + BatchMedications(files)
    decreases |files|
  {
    if files != [] {
      var init, last := files[..|files| - 1], files[|files| - 1];
      MedicationsAccumulate(s, random, init);
      DocumentMedications(BatchProcessed(s, random, init), random, last.document);
    }
  }

  /**
   * After a batch, all four vitals are present and the trends generated
   * exactly when they were before or some document of the batch loaded.
   */
  lemma {:induction false} BatchCompletes(s: Session, random: nat -> UnitInterval, files: seq<UploadedFile>)
    ensures var r := BatchProcessed(s, random, files);
            Complete(r.vitals) <==>
              Complete(s.vitals) || exists k :: 0 <= k < |files| && files[k].document.Pages?
    ensures var r := BatchProcessed(s, random, files);
            (exists k :: 0 <= k < |files| && files[k].document.Pages?) ==> TrendsInRange(r.trends)
    decreases |files|
  {
    if files != [] {
      var init := files[..|files| - 1];
      var last := files[|files| - 1];
      BatchCompletes(s, random, init);
      assert forall k :: 0 <= k < |init| ==> init[k] == files[k];
      if last.document.Pages? {
        DocumentCompletes(BatchProcessed(s, random, init), random, last.document);
      } else {
        assert (exists k :: 0 <= k < |files| && files[k].document.Pages?) ==>
               (exists k :: 0 <= k < |init| && init[k].document.Pages?);
      }
    }
  }

  /** The blood-pressure reading of a document's text, if it reports one. */
  function DocumentBloodPressure(d: Document): Option<BloodPressure>
  {
    if d.Pages? then ExtractedBloodPressure(DocumentText(d.pages)) else None
  }

  /** A document without a reading keeps a blood pressure that is already present. */
  lemma NoReadingKeeps(t: Session, random: nat -> UnitInterval, d: Document)
    requires t.vitals.bloodPressure.Some?
    requires DocumentBloodPressure(d).None?
    ensures DocumentProcessed(t, random, d).vitals.bloodPressure == t.vitals.bloodPressure
  {
    if d.Pages? {
      RecordParsedEffect(t, random, DocumentText(d.pages));
    }
  }

  /** A run of documents without a reading keeps a blood pressure that is already present. */
  lemma {:induction false} NoReadingsKeep(t: Session, random: nat -> UnitInterval, files: seq<UploadedFile>)
    requires t.vitals.bloodPressure.Some?
    requires forall k :: 0 <= k < |files| ==> DocumentBloodPressure(files[k].document).None?
    ensures BatchProcessed(t, random, files).vitals.bloodPressure == t.vitals.bloodPressure
    decreases |files|
  {
    if files != [] {
      var init := files[..|files| - 1];
      assert forall k :: 0 <= k < |init| ==> init[k] == files[k];
      NoReadingsKeep(t, random, init);
      NoReadingKeeps(BatchProcessed(t, random, init), random, files[|files| - 1].document);
    }
  }

  /**
   * The last record that reports a blood pressure decides it: later records
   * without a reading keep it rather than drawing a placeholder.
   */
  lemma LastBloodPressureWins(s: Session, random: nat -> UnitInterval,
                              before: seq<UploadedFile>, f: UploadedFile, after: seq<UploadedFile>)
    requires DocumentBloodPressure(f.document).Some?
    requires forall k :: 0 <= k < |after| ==> DocumentBloodPressure(after[k].document).None?
    ensures BatchProcessed(s, random, before + [f] + after).vitals.bloodPressure == DocumentBloodPressure(f.document)
  {
    BatchAppend(s, random, before + [f], after);
    BatchSnoc(s, random, before, f);
    var t := BatchProcessed(s, random, before + [f]);
    RecordParsedEffect(BatchProcessed(s, random, before), random, DocumentText(f.document.pages));
    NoReadingsKeep(t, random, after);
  }

  /**
   * On a fresh record, processing a non-empty batch breaks the dashboard
   * exactly when no document of the batch loads.
   */
  lemma FreshBatchDashboard(random: nat -> UnitInterval, files: seq<UploadedFile>)
    requires files != []
    ensures FilesProcessed(FreshSession, random, files).1.Broken? <==>
            forall k :: 0 <= k < |files| ==> files[k].document.Unreadable?
    ensures FilesProcessed(FreshSession, random, files).1.Shown? <==>
            exists k :: 0 <= k < |files| && files[k].document.Pages?
  {
    BatchCompletes(FreshSession, random, files);
  }

  /**
   * On a fresh record, once some document of the batch loads, the dashboard
   * lists the medications of the readable documents in file order, or the two
   * example medications when those list none.
   */
  lemma FreshBatchMedicationsShown(random: nat -> UnitInterval, files: seq<UploadedFile>)
    requires exists k :: 0 <= k < |files| && files[k].document.Pages?
    ensures var d := FilesProcessed(FreshSession, random, files).1;
            d.Shown? &&
            d.summary.medications == if BatchMedications(files) != [] then BatchMedications(files) else ExampleMedications
  {
    BatchCompletes(FreshSession, random, files);
    MedicationsAccumulate(FreshSession, random, files);
    assert [] + BatchMedications(files) == BatchMedications(files);
  }

  /** Dropping files processes only the PDFs among them, in the order they were dropped. */
  lemma DropIgnoresOtherTypes(s: Session, random: nat -> UnitInterval, files: seq<UploadedFile>, f: UploadedFile)
    requires f.mimeType != PdfMimeType
    ensures BatchProcessed(s, random, DroppedPdfs(files + [f])) == BatchProcessed(s, random, DroppedPdfs(files))
  {
    assert (files + [f])[..|files|] == files;
    assert DroppedPdfs(files + [f]) == DroppedPdfs(files) + [];
    assert DroppedPdfs(files) + [] == DroppedPdfs(files);
  }
}
