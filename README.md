# Medical Advice Panel — a verified model of the record pipeline

The Medical Advice Panel is a single-page browser application. A user uploads
PDF medical records; the panel reads their text, extracts a few vitals and the
medication list with regular expressions, fills whatever is missing with random
placeholders, generates six months of trend data, classifies blood pressure,
BMI and cardiovascular risk, and shows the result on a dashboard.

This project models the class `MedicalAdvicePanel` of `js/app.js`. That covers
the record it builds (`medicalData`), the file handlers, the PDF text
extraction, the record parser, the sample-data generator, the trend generator
and the data-driven parts of the dashboard.

Modules:

- `Wrappers` (`wrappers.dfy`) defines `Option`.
- `TextScan` (`text_scan.dfy`) holds the character classes `\d`, `\s` and `\w`
  and the case folding of the `i` flag. It also models maximal runs,
  `parseInt`, `parseFloat`, `split`, `trim` and `join`. These come with their
  round trips and idempotence lemmas.
- `Patterns` (`patterns.dfy`) covers the five regular expressions of
  `parseMedialRecord`:
  - each is written twice: once as a scanner that tries the pattern at one
    position, once as a declarative predicate on positions (keyword,
    separator, greedy groups);
  - lemmas prove the two agree in both directions;
  - `Leftmost` gives the meaning of `String.prototype.match`, and
    `MedicationCaptures` that of `matchAll`.
- `Classify` (`classify.dfy`) holds the threshold classifiers of the health
  summary and the risk assessment.
- `Record` (`record.dfy`) defines the record (`Session`) and a function per
  operation, stating the new record in terms of the old one. It also states
  the properties of these functions: what parsing puts in the record, that
  placeholders fill exactly the missing vitals and stay in their ranges, and
  the shape of the trends.
- `Batch` (`batch.dfy`) states properties of processing a batch of files:
  - processing composes over concatenated batches;
  - documents that fail to load change nothing;
  - medications accumulate in order;
  - the last reading wins;
  - on a fresh record, the dashboard breaks exactly when no document of the batch loads.
- `Panel` (`panel.dfy`) holds the class `MedicalAdvicePanel`. Its fields hold
  the record; its methods update them step by step, with the loops of the
  source. Each method is proved to leave the object in the state that the
  matching `Record` function describes.

`Math.random` is a parameter: `random(n)` is the value of its n-th call, a
real in [0, 1). The record counts the calls made so far, and every operation
draws its values in the order in which the source evaluates its calls. So a
placeholder or a trend value is a known function of the calls it used.

The model follows the code where the code differs from the behaviour
described for the application. The medication pattern `[\w\s,]+` runs across
line breaks and ordinary words. So in "Medications: Lisinopril, Metformin"
followed on a later line by "medication: Aspirin", the first group runs on up
to the colon of the second keyword. That second keyword is then part of the
first match, and "Aspirin" is not extracted. A third entry appears only when
a character outside `[\w\s,]` (such as a period) ends the first list.
`MedicationCaptures` and `MedicationCapturesLeftmost` state the code's
behaviour, and `MedicationsRunOnIntoNextKeyword` works one case through:
"Medications: A, B medication: C" gives exactly ["A", "B medication"].

## Model

| member | source | states |
|---|---|---|
| TextScan.LowerAsciiMatches | js/app.js:125 | under the `i` flag a character matches a pattern character that is not a capital exactly when it is that character or, for a letter, its capital |
| TextScan.KeywordAtEitherCase | js/app.js:125 | a lower-case keyword matches at a position exactly when each of its characters appears there as itself or, for a letter, as its capital: every capitalisation matches, nothing else does |
| TextScan.ParseInt | js/app.js:128-129 | a run of k digits reads as a number below 10^k |
| TextScan.ParseIntShowNat | js/app.js:128-129 | parseInt reads back the decimal rendering of every natural number |
| TextScan.ParseIntLeadingZero | js/app.js:128-129 | a leading zero does not change the value parseInt reads |
| TextScan.ParseFloat | js/app.js:156 | the value of a `\d+\.?\d*` capture lies between its integer part and the next integer |
| TextScan.ParseIntAppend | js/app.js:128-129 | parseInt of two digit strings written together is the first shifted by the length of the second plus the second |
| TextScan.ScaleIsPow10 | js/app.js:156 | moving the decimal point k places multiplies by 10^k |
| TextScan.FractionValueScaled | js/app.js:156 | the digits after the point, moved as many places as there are digits, are their integer value |
| TextScan.ParseFloatDecimal | js/app.js:156 | for every digit string w (non-empty) and f, parseFloat("w.f") is parseInt(w) plus the fraction 0.f |
| TextScan.ParseFloatShifted | js/app.js:156 | for every digit string w (non-empty) and f, parseFloat("w.f") times 10 to the number of digits of f is parseInt of w followed by f: the value of every fraction digit is kept |
| TextScan.ParseFloatOneDecimal | js/app.js:156 | "27.5" reads as 27.5 |
| TextScan.ParseFloatTwoDecimals | js/app.js:156 | "31.25" reads as 31.25 |
| TextScan.ParseFloatTrailingPoint | js/app.js:156 | "24." reads as 24 (a point without digits adds nothing) |
| TextScan.ParseFloatOfInteger | js/app.js:156 | on a capture without a point, parseFloat and parseInt agree |
| TextScan.Split | js/app.js:165 | split on a character gives at least one piece, and no piece contains the separator |
| TextScan.JoinSplit | js/app.js:165 | joining the pieces of a split with the separator gives back the string |
| TextScan.SplitJoin | js/app.js:165 | splitting a join of separator-free pieces gives back the pieces |
| TextScan.Join | js/app.js:111 | joining a single item gives that item |
| TextScan.TrimBounds | js/app.js:165 | trim keeps the stretch between the leading and trailing whitespace, and that stretch starts and ends with non-space characters |
| TextScan.Trim | js/app.js:165 | a trimmed string is no longer than the string and neither starts nor ends with whitespace |
| TextScan.TrimOnlyDropsSpace | js/app.js:165 | the string is its trimmed form with whitespace before and after |
| TextScan.TrimIsSubstring | js/app.js:165 | every character of the trimmed string occurs in the string |
| TextScan.TrimIdempotent | js/app.js:165 | trimming twice is trimming once |
| Patterns.LeftmostFound | js/app.js:125 | a successful `match` is the success at some position, with the pattern failing at every earlier position |
| Patterns.LeftmostNone | js/app.js:125 | `match` returns null only when the pattern fails at every position |
| Patterns.LeftmostAt | js/app.js:125 | a success with failures at every earlier position is what `match` returns |
| Patterns.BloodPressureAt | js/app.js:125 | a blood-pressure match captures two non-empty digit runs |
| Patterns.BloodPressureMatchIsScan | js/app.js:125 | any way the pattern matches at a position yields the scanner's groups: separator and greedy digit runs are forced |
| Patterns.BloodPressureScanIsMatch | js/app.js:125 | what the scanner finds is a match of the pattern |
| Patterns.BloodPressureAtIsMatch | js/app.js:125 | the scanner succeeds at a position exactly when the pattern matches there, with the same groups |
| Patterns.FindBloodPressureLeftmost | js/app.js:125 | `match` returns the groups of the leftmost match |
| Patterns.FindBloodPressureNone | js/app.js:125 | `match` returns null exactly when the pattern matches nowhere |
| Patterns.NumberAt | js/app.js:135-144 | a cholesterol or glucose match captures a non-empty digit run |
| Patterns.NumberMatchIsScan | js/app.js:135-144 | any match of `kw[:\s]+(\d+)` at a position yields the scanner's group |
| Patterns.NumberScanIsMatch | js/app.js:135-144 | what the scanner finds is a match |
| Patterns.NumberAtIsMatch | js/app.js:135-144 | the scanner succeeds exactly when the pattern matches, with the same group |
| Patterns.FindNumberLeftmost | js/app.js:135-144 | `match` returns the group of the leftmost match |
| Patterns.FindNumberNone | js/app.js:135-144 | `match` returns null exactly when the pattern matches nowhere |
| Patterns.BmiAt | js/app.js:153 | a BMI match captures a non-empty group that starts with a digit, as parseFloat needs |
| Patterns.BmiMatchIsScan | js/app.js:153 | any match yields the scanner's group, with `\.?` taken exactly when a point follows the digits |
| Patterns.BmiScanIsMatch | js/app.js:153 | what the scanner finds is a match |
| Patterns.BmiAtIsMatch | js/app.js:153 | the scanner succeeds exactly when the pattern matches, with the same group |
| Patterns.FindBmiLeftmost | js/app.js:153 | `match` returns the group of the leftmost match |
| Patterns.FindBmiNone | js/app.js:153 | `match` returns null exactly when the pattern matches nowhere |
| Patterns.MedicationAt | js/app.js:162 | a medication match captures a non-empty stretch of `[\w\s,]` characters after the keyword |
| Patterns.MedicationMatchIsScan | js/app.js:162 | the match a backtracking matcher reports (optional s taken when possible, longest separator that still lets the group match) is the scanner's |
| Patterns.MedicationScanIsMatch | js/app.js:162 | what the scanner finds is that reported match |
| Patterns.MedicationAtIsMatch | js/app.js:162 | the scanner succeeds exactly when the pattern matches, with the same group |
| Patterns.MedicationCaptures | js/app.js:162-164 | every group `matchAll` yields is non-empty |
| Patterns.MedicationCapturesLeftmost | js/app.js:162-164 | `matchAll` yields the group of the leftmost match, then the matches from where that one ended |
| Patterns.MedicationCapturesNone | js/app.js:162-164 | `matchAll` yields nothing exactly when no match starts at or after the position |
| Patterns.MedicationList | js/app.js:165 | one group gives at least one medication; none contains a comma or starts or ends with whitespace (what the entries are is stated by `MedicationListPieces`) |
| Patterns.MedicationListPieces | js/app.js:165 | the list is the group's comma-separated pieces in order, each trimmed: as many entries as pieces, the pieces joined with commas give back the group, empty pieces and duplicates kept |
| Patterns.MedicationsOfStep | js/app.js:164-166 | each further match appends its list to the medications of the matches before it |
| Patterns.MedicationsRunOnIntoNextKeyword | js/app.js:162-166 | on "Medications: A, B medication: C" the list is exactly ["A", "B medication"]: the first group swallows the second keyword and "C" is never read |
| Classify.BloodPressureStatus | js/app.js:260-269 | Normal exactly when systolic ≤ 130 and diastolic ≤ 80; High exactly when systolic > 140 or diastolic > 90; Elevated otherwise |
| Classify.BmiStatusOf | js/app.js:271-280 | Normal exactly for BMI ≤ 25, Overweight for 25 < BMI ≤ 30, Obese above 30 |
| Classify.CardiovascularRisk | js/app.js:320-331 | High exactly when systolic > 140 and cholesterol > 240; Low exactly when systolic ≤ 130 and cholesterol ≤ 200; Medium otherwise |
| Classify.AssessRisk | js/app.js:320-345 | the stroke tier repeats the cardiovascular tier, the diabetes tier is always Low |
| Classify.BloodPressureStatusMonotone | js/app.js:260-269 | higher readings never give a milder blood-pressure status |
| Classify.CardiovascularRiskMonotone | js/app.js:320-331 | higher readings never give a lower cardiovascular tier |
| Classify.ClassificationBoundaries | js/app.js:260-331 | the thresholds are strict: 140/90 is Elevated, 130/80 Normal, BMI 25 Normal and 30 Overweight, cholesterol 200 alone Low, 141 with 240 Medium |
| Record.RandomInt | js/app.js:177-190 | `base + Math.floor(Math.random() * span)` lies in [base, base + span) |
| Record.RandomReal | js/app.js:196 | `base + Math.random() * span` lies in [base, base + span) |
| Record.ExtractedBloodPressureIsLeftmost | js/app.js:125-132 | no reading exactly when the pattern matches at no position; otherwise the two groups of the leftmost match, parsed as integers |
| Record.ExtractedNumberIsLeftmost | js/app.js:135-150 | no value exactly when `kw[:\s]+(\d+)` matches at no position; otherwise the group of the leftmost match, parsed as an integer |
| Record.ExtractedBmiIsLeftmost | js/app.js:153-159 | no value exactly when the pattern matches at no position; otherwise the group of the leftmost match, parsed as a decimal |
| Record.ExtractVitalsBloodPressure | js/app.js:125-132 | without a match anywhere the reading is kept; with one, the leftmost match's groups replace it |
| Record.ExtractVitalsCholesterol | js/app.js:135-141 | without a match anywhere the cholesterol is kept; with one, the leftmost match's group replaces it |
| Record.ExtractVitalsGlucose | js/app.js:143-150 | without a match anywhere the glucose is kept; with one, the leftmost match's group replaces it |
| Record.ExtractVitalsBmi | js/app.js:153-159 | without a match anywhere the BMI is kept; with one, the leftmost match's group, parsed as a decimal, replaces it |
| Record.FillMissing | js/app.js:175-198 | afterwards all four vitals are present; present vitals are unchanged; new ones lie in their placeholder ranges; nothing changes and no call is used exactly when the record was complete; at most five calls are used |
| Record.TrendsDrawnInRange | js/app.js:204-225 | fresh trends are three series of six samples labelled Jan to Jun, every value in its generator's range |
| Record.SampleDataGeneratedFields | js/app.js:173-202 | generateSampleData keeps the medications, fills the vitals, draws fresh trends from the next call on, and uses 36 calls for them |
| Record.SampleDataFills | js/app.js:173-202 | after generateSampleData the vitals are complete, present ones unchanged, placeholders in range, medications unchanged, trends in range, and 36 to 41 calls used |
| Record.SampleDataIdempotentOnVitals | js/app.js:173-198 | running generateSampleData again changes no vital |
| Record.RecordParsedEffect | js/app.js:123-171 | after parsing, the text's medications follow the earlier ones; each vital the text reports has that value; vitals present before and not reported are kept; the rest are placeholders in range; the record is complete and the trends are in range |
| Record.DocumentText | js/app.js:105-113 | the text holds at least one character per page and, when there is a page, ends with the newline added after the last one |
| Record.DocumentTextAppend | js/app.js:105-113 | the text is built page by page in page order: the pages of a + b give a's text followed by b's |
| Record.DocumentTextSingle | js/app.js:110-111 | one page contributes its text items joined by single spaces, followed by a newline |
| Record.DocumentMedications | js/app.js:101-121 | a document appends the medications of its text, and only when it loads |
| Record.DocumentCompletes | js/app.js:101-121 | a document that loads leaves all vitals present and the trends in range |
| Record.DroppedPdfs | js/app.js:62-65 | the drop filter keeps exactly the files of type application/pdf, and all of them when every file is a PDF |
| Record.DroppedPdfsAppend | js/app.js:62-65 | filtering a + b is filtering a, then b: the kept files stay in their order and each keeps its multiplicity |
| Record.DroppedPdfsSingle | js/app.js:62-65 | a single dropped file is kept exactly when its type is application/pdf |
| Batch.Readable | js/app.js:88-120 | a file is kept exactly when its document loads, and none is kept exactly when every document fails to load |
| Batch.ReadableAppend | js/app.js:88-120 | the readable files of a + b are those of a followed by those of b, so file order and multiplicity are kept |
| Batch.ReadableSingle | js/app.js:88-120 | a single file is kept exactly when its document loads |
| Batch.BatchAppend | js/app.js:88-90 | processing a + b is processing a, then b from the record a left |
| Batch.BatchSnoc | js/app.js:88-90 | one more file is processed after all the earlier ones |
| Batch.UnreadableSkipped | js/app.js:101-121 | a file whose document fails to load leaves the record as it was |
| Batch.BatchIgnoresUnreadable | js/app.js:88-121 | a batch acts as its readable files alone |
| Batch.NoReadableNoChange | js/app.js:88-121 | a batch in which no document loads changes nothing |
| Batch.MedicationsAccumulate | js/app.js:88-90 | after a batch, the medication list is the earlier list followed by each readable document's medications in file order |
| Batch.BatchCompletes | js/app.js:88-99 | after a batch all vitals are present exactly when they were before or some document loaded; if one loaded, the trends are in range |
| Batch.NoReadingKeeps | js/app.js:125-132 | a document without a blood-pressure reading keeps a reading already present |
| Batch.NoReadingsKeep | js/app.js:125-132 | a run of documents without a reading keeps a reading already present |
| Batch.LastBloodPressureWins | js/app.js:125-132 | the blood pressure after a batch is that of the last document reporting one, when later documents report none |
| Batch.FreshBatchDashboard | js/app.js:67-99 | on a fresh record, a non-empty batch breaks the dashboard exactly when no document loads, and fills it in exactly when one does |
| Batch.FreshBatchMedicationsShown | js/app.js:349-370 | on a fresh record, once a document loads, the medication card lists the readable documents' medications in file order, or the two examples when they list none |
| Batch.DropIgnoresOtherTypes | js/app.js:62-65 | a dropped file that is not a PDF changes nothing |
| Panel.MedicalAdvicePanel.constructor | js/app.js:3-13 | a new panel has no vitals, no medications, no trends and has drawn nothing |
| Panel.MedicalAdvicePanel.NextRandom | js/app.js:177 | a call of Math.random returns the next value and counts it |
| Panel.MedicalAdvicePanel.DrawBpTrend | js/app.js:208-212 | the blood-pressure series, month by month, equals the series drawn from the next twelve calls |
| Panel.MedicalAdvicePanel.DrawWeightTrend | js/app.js:214-218 | the weight series, month by month, equals the series drawn from the next twelve calls |
| Panel.MedicalAdvicePanel.DrawLabTrend | js/app.js:220-224 | the lab series, month by month, equals the series drawn from the next twelve calls |
| Panel.MedicalAdvicePanel.GenerateTrendData | js/app.js:204-225 | the three series are replaced by the trends drawn from the next 36 calls |
| Panel.MedicalAdvicePanel.FillMissingVitals | js/app.js:175-198 | the four `if` blocks leave the vitals and the call count that FillMissing describes |
| Panel.MedicalAdvicePanel.GenerateSampleData | js/app.js:173-202 | the object ends in the record generateSampleData describes |
| Panel.MedicalAdvicePanel.ExtractVitalsFrom | js/app.js:124-159 | the four extraction rules leave the vitals ExtractVitals describes |
| Panel.MedicalAdvicePanel.AppendMedications | js/app.js:161-167 | the loop over the matches appends exactly the text's medications, in order |
| Panel.MedicalAdvicePanel.ParseMedicalRecord | js/app.js:123-171 | the object ends in the record RecordParsed describes |
| Panel.MedicalAdvicePanel.ExtractPdfData | js/app.js:101-121 | the page loop builds the document text and parses it; a document that fails to load changes nothing |
| Panel.MedicalAdvicePanel.ProcessFiles | js/app.js:67-99 | the record and dashboard are those FilesProcessed describes |
| Panel.MedicalAdvicePanel.HandleFileSelect | js/app.js:57-60 | the selected files are processed as they are |
| Panel.MedicalAdvicePanel.HandleFileDrop | js/app.js:62-65 | the files processed are those the drop filter keeps, the PDFs among the dropped files |

## Left out

- DOM work is not modelled:
  - the upload area, loading overlay, file list (names and sizes in MB), tab switching and section visibility;
  - the HTML strings of every dashboard card, including the CSS classes next to each status;
  - the static cards of `updateRecentTests`, `updateAIInsights` and `updateRecommendations`.
- Charts are not modelled: `initializeCharts` and Chart.js draw the trends; the model produces the series they draw, not the drawing.
- PDF.js is replaced by a value: `Document` holds the text items of each page, or is `Unreadable`, which stands for any failure inside the `try` block.
- `async`/`await` is left out: files are processed one after another, as the source's `await` in the loop does. Two batches started while one is still running, interleaving at an `await`, are not modelled.
- `console.error` and `alert` in the failure branch are output only; they are not modelled.
- The `date: new Date()` field of extracted readings and the "Last Check-up" date are not modelled: the clock is not part of this model.
- `medicalData.labResults`, `conditions` and `appointments` are never written by the source, so they are left out.
- Numbers are unbounded integers and exact reals:
  - `parseInt` above 2^53 and the floating-point rounding of `parseFloat` and of `base + Math.random() * span` are not modelled. In doubles the sum itself can round up: with Math.random at 1 - 2^-52, `22 + Math.random() * 6` is exactly 28 and `22 + Math.random() * 4` exactly 26. The strict upper bounds of the BMI placeholder in `FillMissing` (below 28) and of the trend BMI in `TrendsDrawnInRange` (below 26) therefore hold only in exact arithmetic;
  - `toFixed` formatting is not modelled either.
- `\s` and `trim` cover only the ASCII whitespace characters. The other characters JavaScript treats as whitespace in both (U+00A0, U+FEFF, U+2028, U+2029 and the Zs space separators) are not modelled, so `Trim` keeps them at the ends of a medication name where `trim()` removes them.
- The trend series are undefined in the source until the first generation; the model starts them empty.
- The three series are kept as separate fields of the object and grouped as one `Trends` value in the record.
- `updateDashboard` on a record without a blood pressure throws a TypeError where it reads `bp.systolic` (js/app.js:230). The model represents any record with an absent vital as the `Broken` dashboard and does not model what the page shows afterwards. Only the record with no vitals at all can reach the dashboard incomplete, because every readable document fills all four vitals (`BatchCompletes`).
- TextScan.Join: its own contract states only the one-item case; the round trip with `split` is stated by `JoinSplit`.
- TextScan.ParseFloat: its own contract bounds the value by the integer part; the value of the fraction digits is stated by `ParseFloatDecimal` and `ParseFloatShifted`.
- TextScan.ParseInt: its own contract is a bound; its meaning as the inverse of the decimal rendering is stated by `ParseIntShowNat`.
