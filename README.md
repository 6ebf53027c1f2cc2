# FrontendSIH self-assessment wizard in Dafny

FrontendSIH is a five-step React wizard. Faculty members use it to fill in a
self-assessment and post each section to a remote API. This project models the
logic behind the wizard's event handlers and proves properties of it:

- the step controller that moves between the five sections;
- four row-based sections, each a list of rows edited in place by handlers:
  attendance of students, lecture engagement, result performance and guided
  projects;
- the academic-profile record.

Each component becomes a `class` whose fields are the component's state. Each
handler becomes a method that states the whole new state. The arithmetic and
threshold rules are functions, with lemmas stating what the source promises.

Modules:

- `Js` (`js.dfy`). The JavaScript behaviour the components rely on:
  - the stored values, numbers or text (`Value`);
  - truthiness;
  - `parseFloat`, `parseInt(s, 10)`, `parseInt(s)` with no radix (which also
    reads a `0x` hexadecimal literal) and `Number(s)`, written out over
    decimal literals;
  - `trim`;
  - `toFixed(2)` read back as a number (`Round2`, rounding halves away from
    zero).

  NaN is `None`.
- `Seqs` (`seqs.dfy`). `Array.prototype.filter` and the keyed `map`/`filter`
  updates that the id-addressed lists use, with their order and uniqueness
  facts.
- `Wizard` (`wizard.dfy`). The step controller and section switch of
  HandlingNextPrev.js.
- `AttendanceTable` (`attendance_table.dfy`). StudentTable.js: index-addressed
  rows with serial numbers, derived attendance, factor, credits and the column
  mean.
- `LectureTable` (`lecture_table.dfy`). Hello.js: id-addressed rows, coercion
  of the period counts, the displayed percentage and credits, and per-row
  submission.
- `ResultTable` (`result_table.dfy`). PerformanceResultTable.js: id-addressed
  rows, credits recomputed from the class average, deletion refused at one row,
  and submission of the row found by identity.
- `ProjectGuidance` (`project_guidance.dfy`). StudentInnovation.js: the project
  list, the innovation narrative and the total credits that the effect keeps up
  to date.
- `Assessment` (`assessment.dfy`). Assessment.js: the field table, the initial
  record and the one-field update.

The model follows the code, with one exception.

- **Readings that are not numbers.** One could expect such readings to be
  refused rather than credited. PerformanceResultTable.js compares them with
  the tier bounds, every comparison with NaN is false, and so they fall into
  the lowest tier (2 credits). `ResultTable.Factor` does the same.
- **The attendance recomputation guard (the exception).** The derived columns
  are meant to be recomputed only when all three readings are numbers and
  the lectures times the roll is not zero, so that the division is defined (a
  present count of 0 is a valid reading and gives attendance 0). StudentTable.js tests the
  truthiness of the typed text instead, and the text "0" passes that test.
  The model's `AttendanceTable.Table.HandleInputChange` recomputes under the
  corrected rule `AttendanceTable.CanDerive`. The written rule is
  `AttendanceTable.TruthyInputs`, and the discrepancy is shown under Findings.

## Model

| member | source | states |
|---|---|---|
| Wizard.NextStep | HandlingNextPrev.js:9-13 | the step after `next`; its range and cases are stated by `Wizard.NextSpec` |
| Wizard.PreviousStep | HandlingNextPrev.js:15-19 | the step after `previous`; its range and cases are stated by `Wizard.PreviousSpec` |
| Wizard.Render | HandlingNextPrev.js:20-35 | the section the switch renders for a step, with the buttons it is handed; stated by `Wizard.RenderTotalOnRange` and `Wizard.RenderOffersOnlyMovingButtons` |
| Wizard.Controller.constructor | HandlingNextPrev.js:8 | the wizard starts on step 1 |
| Wizard.Controller.Next | HandlingNextPrev.js:9-13 | `next` moves one step forward below step 5, does nothing at step 5, and keeps the step in 1..5 |
| Wizard.Controller.Previous | HandlingNextPrev.js:15-19 | `previous` moves one step back above step 1, does nothing at step 1, and keeps the step in 1..5 |
| Wizard.Controller.Current | HandlingNextPrev.js:20-35 | the current step always renders a section, so the `default` branch is never reached |
| Wizard.NextSpec | HandlingNextPrev.js:9-13 | from a step in range, `next` stays in range, adds one below 5 and is a no-op at 5 |
| Wizard.PreviousSpec | HandlingNextPrev.js:15-19 | from a step in range, `previous` stays in range, subtracts one above 1 and is a no-op at 1 |
| Wizard.RunStaysInRange | HandlingNextPrev.js:8-19 | any sequence of button presses from a step in range stays in 1..5 |
| Wizard.RunConcat | HandlingNextPrev.js:9-19 | pressing two sequences of buttons one after the other equals pressing their concatenation |
| Wizard.NextThenPrevious | HandlingNextPrev.js:9-19 | `next` then `previous` returns to the starting step whenever it is below 5 |
| Wizard.RenderTotalOnRange | HandlingNextPrev.js:20-35 | a step renders a section exactly when it is in 1..5, and distinct steps render distinct sections |
| Wizard.RenderOffersOnlyMovingButtons | HandlingNextPrev.js:22-31 | a section gets `next` (`previous`) exactly when pressing it would change the step |
| Js.Truthy | StudentTable.js:47 | JavaScript truthiness of a stored value: a number other than 0, or a non-empty text |
| Js.IsSpace | StudentInnovation.js:34 | the characters `trim()` removes and number parsing skips: the white-space characters and line terminators of JavaScript |
| Js.Trim | StudentInnovation.js:34 | `trim()`; stated by `Js.TrimEmptyIffAllSpace` |
| Js.ParseFloat | Hello.js:12 | `parseFloat`: the longest decimal prefix after leading white space, `None` for NaN; stated on digit texts by `Js.DigitStringReadsBack` |
| Js.ToNumber | StudentTable.js:113 | `Number` on text: the whole trimmed text must be a decimal literal, and blank text is 0; stated by `Js.NumberOfReadsBack` |
| Js.ParseInt | Assessment.js:31 | `parseInt(s, 10)`: an optional sign and the longest run of digits; stated on digit texts by `Js.DigitStringReadsBack` |
| Js.ParseIntAuto | PerformanceResultTable.js:44 | `parseInt(s)` with no radix: a `0x` or `0X` after the white space and sign switches to hexadecimal and needs a hexadecimal digit after it, and any other text reads as `parseInt(s, 10)` |
| Js.HexTextReadsBack | PerformanceResultTable.js:44 | with no radix, `0x` or `0X` and hexadecimal digits read as their value, where radix 10 reads 0 |
| Js.DigitStringReadsBackAuto | PerformanceResultTable.js:44 | with no radix, a string of decimal digits reads as the number it writes |
| Js.HexSixteen | PerformanceResultTable.js:44 | with no radix `0x10` is 16, and in radix 10 it is 0 |
| Js.NumberOfReadsBack | StudentTable.js:113-116 | `Number` sends a stored number as itself, a digit text as the number it writes, and blank text as 0 |
| Js.Round2 | StudentTable.js:21 | `toFixed(2)` read back as a number; stated by `Js.Round2Near`, `Js.Round2OfCents` and `Js.Round2Monotone` |
| Js.TrimEmptyIffAllSpace | StudentInnovation.js:34 | `trim()` gives `''` exactly when every character is white space |
| Js.DigitStringReadsBack | Hello.js:12 | a string of digits reads as the number it writes under `parseFloat`, `Number` and `parseInt` |
| Js.DigitReadsBack | Hello.js:12 | a one-digit text reads as its digit |
| Js.DigitPairReadsBack | PerformanceResultTable.js:35 | a two-digit text reads as ten times the first digit plus the second |
| Js.Trunc | Hello.js:39-40 | `parseInt` of a stored number cuts it toward zero: the result is within one of the number and on the zero side of it |
| Js.Round2Near | StudentTable.js:21 | `toFixed(2)` read back moves a number by at most half a hundredth and lands on two decimals |
| Js.Round2OfCents | StudentTable.js:32 | `toFixed(2)` leaves a number with at most two decimals as it is |
| Js.Round2Monotone | StudentTable.js:37 | `toFixed(2)` never reverses the order of two numbers |
| Seqs.Filter | Hello.js:72 | `filter` never lengthens the list |
| Seqs.FilterMembers | Hello.js:72 | `filter` keeps only elements that pass the test and keeps every element that passes |
| Seqs.FilterConcat | Hello.js:72 | filtering a concatenation filters each part |
| Seqs.FilterKeepsAll | Hello.js:72 | a filter that every element passes changes nothing |
| Seqs.FilterDropsOne | Hello.js:72 | a filter that fails exactly one position removes that element and keeps the rest in order |
| Seqs.RemoveKey | Hello.js:72 | removing by key keeps exactly the elements with another key |
| Seqs.UniqueKeysWithout | Hello.js:72 | dropping one position keeps the keys unique |
| Seqs.RemoveKeyAt | Hello.js:72 | with unique keys, removing the key at position `i` drops exactly that element, shortens the list by one and keeps keys unique |
| Seqs.RemoveMissingKey | Hello.js:72 | removing a key that no element has changes nothing |
| Seqs.RemoveKeyKeepsUnique | Hello.js:72 | a removal keeps unique keys unique |
| Seqs.UpdateKey | Hello.js:13-15 | the keyed `map` keeps the length, replaces the elements with the key and leaves the others |
| Seqs.UpdateMissingKey | Hello.js:13-15 | a keyed update for a key that no element has changes nothing |
| Seqs.UpdateKeyAt | Hello.js:13-15 | with unique keys, the keyed update replaces the one addressed element alone |
| Seqs.UpdateKeepsKeys | Hello.js:13-15 | an update that keeps each element's key keeps the keys unique |
| AttendanceTable.SetField | StudentTable.js:43 | the row with one typed field replaced |
| AttendanceTable.AverageAttendance | StudentTable.js:20-22 | the rounded attendance percentage; stated by `AttendanceTable.AverageAttendanceNear` |
| AttendanceTable.CreditsEarned | StudentTable.js:31-33 | the credits of a factor; stated by `AttendanceTable.CreditsAreTenTimesFactor` |
| AttendanceTable.TruthyInputs | StudentTable.js:47 | the recomputation guard as written: the three typed readings are truthy |
| AttendanceTable.CanDerive | StudentTable.js:47 | the corrected guard: truthy readings that read as numbers with a non-zero denominator; related to the written guard by `AttendanceTable.CanDeriveRefinesTruthyInputs` |
| AttendanceTable.SumAttendance | StudentTable.js:36 | the `reduce` over the rows' attendance; stated by `AttendanceTable.SumAttendanceBounds` |
| AttendanceTable.ColumnMean | StudentTable.js:35-38 | the rounded mean attendance; stated by `AttendanceTable.ColumnMeanBounds` |
| AttendanceTable.RowComplete | StudentTable.js:100 | `validateData`'s test of one row: the five required fields are truthy |
| AttendanceTable.PayloadReadings | StudentTable.js:113-116 | the payload sends each typed column that holds a number as that number, and each that holds a digit text as the number the text writes |
| AttendanceTable.AverageAttendanceNear | StudentTable.js:20-22 | the attendance is present * 100 / (lectures * roll) to within half a hundredth |
| AttendanceTable.PerformanceFactor | StudentTable.js:24-29 | the factor is always one of 1.0, 0.7, 0.5 and 0.2 |
| AttendanceTable.PerformanceFactorTiers | StudentTable.js:24-29 | the factor is 1.0 exactly from 81, 0.7 exactly on [61, 81), 0.5 exactly on [41, 61), and 0.2 exactly below 41 |
| AttendanceTable.PerformanceFactorMonotone | StudentTable.js:24-29 | a higher average never earns a lower factor |
| AttendanceTable.CreditsAreTenTimesFactor | StudentTable.js:31-33 | credits are exactly ten times the factor: 10, 7, 5 or 2 |
| AttendanceTable.Derive | StudentTable.js:45-63 | recomputation leaves the typed fields and the column mean alone; the attendance is that of the readings, the factor that of the attendance and the credits ten times the factor |
| AttendanceTable.SumAttendanceOnlyReadsAttendance | StudentTable.js:35-38 | the column mean depends on the rows' attendance only |
| AttendanceTable.SumAttendanceBounds | StudentTable.js:36 | the sum of attendances in [lo, hi] lies between n * lo and n * hi |
| AttendanceTable.ColumnMeanBounds | StudentTable.js:35-38 | the column mean lies between the rounded lowest and highest attendance |
| AttendanceTable.ToPayload | StudentTable.js:111-118 | the submitted row keeps serial number, course, opinion and the derived columns, and sends semester, present, lectures and roll as `Number` reads them |
| AttendanceTable.Payload | StudentTable.js:111 | the payload has one entry per row, in order |
| AttendanceTable.AttendanceExample | StudentTable.js:20-33 | readings 45, 50 and 1 give attendance 90.00, factor 1.0 and 10 credits |
| AttendanceTable.ColumnMeanExample | StudentTable.js:35-38 | attendances 90.00 and 50.00 give a column mean of 70.00 |
| AttendanceTable.TruthyInputsAdmitZeroDenominator | StudentTable.js:47 | with any truthy number present, the guard as written lets the texts "0" for lectures and "1" for the roll through, with a denominator of zero, which the corrected guard refuses |
| AttendanceTable.CanDeriveRefinesTruthyInputs | StudentTable.js:47 | the corrected guard implies the written one and agrees with it when the inputs are stored numbers |
| AttendanceTable.Table.constructor | StudentTable.js:6-18 | the table starts with one default row numbered 1 |
| AttendanceTable.Table.HandleInputChange | StudentTable.js:40-67 | the edited field of the row at `index` takes the typed text; its derived columns are recomputed only for an attendance input the guard admits, otherwise left; the other rows are unchanged; every row carries the new column mean |
| AttendanceTable.Table.AddRow | StudentTable.js:69-86 | one default row numbered one past the old length is appended and the earlier rows are unchanged |
| AttendanceTable.Table.DeleteRow | StudentTable.js:88-96 | with one row left nothing changes; otherwise exactly the row at `index` goes, the rest keep their order and are renumbered 1..n |
| AttendanceTable.Table.ValidateData | StudentTable.js:98-106 | the result is false exactly when some row has a falsy semester, course, present, lectures or roll |
| AttendanceTable.Table.HandleSubmit | StudentTable.js:108-118 | nothing is built when a row is incomplete; otherwise the payload of all rows |
| LectureTable.PercentageAchieved | Hello.js:18-21 | the displayed percentage; stated by `LectureTable.PercentageSpec` |
| LectureTable.CreditsEarned | Hello.js:23-26 | the displayed credits; stated by `LectureTable.CreditsSpec` |
| LectureTable.UpdateRows | Hello.js:13-15 | the keyed update of the rows; stated by `LectureTable.EditSpec` |
| LectureTable.RemoveRows | Hello.js:72 | the filter removing an id; stated by `LectureTable.DeleteSpec` |
| LectureTable.SubmitReady | Hello.js:29 | the submission guard: semester, course and both period counts are truthy |
| LectureTable.ToPayload | Hello.js:35-43 | the data sent for a row; stated by `LectureTable.PayloadOfReadyRow` |
| LectureTable.CoerceNumber | Hello.js:12 | a period cell stores `''` exactly when `parseFloat` gives NaN or 0, and otherwise the number read |
| LectureTable.SetField | Hello.js:14 | an edit keeps the row's identity and factor |
| LectureTable.SetFieldFrame | Hello.js:12-14 | an edit stores the coerced value in a period field and the text verbatim in the others; every other field is unchanged |
| LectureTable.PercentageSpec | Hello.js:18-21 | the percentage is blank exactly when a period count is blank; it never divides by zero; it is engaged / allotted * 100 to within half a hundredth |
| LectureTable.CreditsSpec | Hello.js:23-26 | the credits are blank exactly when the percentage is, and are otherwise 20 * pct / 100 * mf to within half a hundredth |
| LectureTable.CreditsBounded | Hello.js:18-26 | at the default factor, engaging at most the allotted periods earns between 0 and 4 credits |
| LectureTable.LectureExample | Hello.js:18-26 | 40 periods engaged of 50 gives 80.00 percent and 3.20 credits |
| LectureTable.EditSpec | Hello.js:11-16 | an edit keeps length and identities; an unknown id changes nothing; with unique ids only the addressed row changes |
| LectureTable.DeleteSpec | Hello.js:71-73 | an unknown id changes nothing; with unique ids exactly the matching row goes, the rest keep their order, and the length drops by one |
| LectureTable.DeleteFromShownButton | Hello.js:153 | deleting a row after the first, the only rows showing Delete, keeps the first row, so the list is never emptied |
| LectureTable.PayloadOfReadyRow | Hello.js:35-43 | a row that passes the guard sends integer counts within one of the stored counts, a non-blank opinion (default `'good'`), and its text fields and factor unchanged |
| LectureTable.Table.constructor | Hello.js:6-9 | one default row and no error |
| LectureTable.Table.HandleInputChange | Hello.js:11-16 | the rows become the keyed update of the old rows; identities stay unique |
| LectureTable.Table.AddRow | Hello.js:67-69 | one default row with a fresh id is appended after the unchanged earlier rows |
| LectureTable.Table.DeleteRow | Hello.js:71-73 | the rows become the old rows without the matching id; identities stay unique |
| LectureTable.Table.HandleSubmitRow | Hello.js:28-43 | submission is refused, with the error set, exactly when semester, course or a period count is falsy; otherwise the payload is built; the rows never change |
| ResultTable.Factor | PerformanceResultTable.js:35-37 | the factor of the typed class average, with NaN falling to 0.2; stated by `ResultTable.CreditsSpec` |
| ResultTable.CreditsEarned | PerformanceResultTable.js:33-39 | the credits of the typed class average; stated by `ResultTable.CreditsSpec` |
| ResultTable.EditRow | PerformanceResultTable.js:22-28 | the edit of one row, recomputing the credits for the average; stated by `ResultTable.EditRowSpec` |
| ResultTable.UpdateRows | PerformanceResultTable.js:20-31 | the keyed update of the rows; stated by `ResultTable.EditSpec` |
| ResultTable.RemoveRows | PerformanceResultTable.js:84 | the filter removing an id; stated by `ResultTable.DeleteSpec` |
| ResultTable.ToPayload | PerformanceResultTable.js:43-47 | the data sent for a row: the semester read by `parseInt` with no radix, the course, and the average result by `parseFloat`; stated by `ResultTable.SemesterReadings`, `ResultTable.DefaultPayload` and `ResultTable.PayloadIgnoresDerived` |
| ResultTable.SemesterReadings | PerformanceResultTable.js:44 | the semester is sent as a stored number cut toward zero, a digit text as the number it writes, and `0x` or `0X` followed by hexadecimal digits as their hexadecimal value |
| ResultTable.SetField | PerformanceResultTable.js:23 | an edit keeps the identity, the credits and the factor column |
| ResultTable.CreditsSpec | PerformanceResultTable.js:33-39 | the credits are blank exactly for blank text, and otherwise 10 from 81, 7 on [61, 81), 5 on [41, 61), 2 below 41 or for text that is not a number |
| ResultTable.CreditsAgreeWithAttendance | PerformanceResultTable.js:35-38 | for readable text the credits are the attendance section's credits of the same number |
| ResultTable.CreditsMonotone | PerformanceResultTable.js:35-37 | a higher readable average never earns fewer credits |
| ResultTable.CreditsBoundaryExample | PerformanceResultTable.js:33-39 | text reading as 81 earns 10 credits and text reading as 80.99 earns 7 |
| ResultTable.CreditsOfEightyOne | PerformanceResultTable.js:33-39 | the text `81` earns 10 credits |
| ResultTable.EditRowSpec | PerformanceResultTable.js:22-28 | editing the average sets the credits to those of the new text; other edits leave them; credits matching the average keep matching |
| ResultTable.EditSpec | PerformanceResultTable.js:20-31 | an edit keeps length and identities; an unknown id changes nothing; with unique ids only the addressed row changes |
| ResultTable.DeleteSpec | PerformanceResultTable.js:82-88 | with more than one row the list stays non-empty, an unknown id changes nothing, and a known id removes exactly that row, keeping the order |
| ResultTable.Find | PerformanceResultTable.js:42 | `find` returns a row exactly when one holds the id, and the row it returns holds it |
| ResultTable.FindUnique | PerformanceResultTable.js:42 | with unique ids it returns the one row holding the id |
| ResultTable.DefaultPayload | PerformanceResultTable.js:43-47 | an untouched row submits semester 0, no course and average result 0 |
| ResultTable.PayloadIgnoresDerived | PerformanceResultTable.js:43-47 | the payload depends only on semester, course and average result |
| ResultTable.Table.constructor | PerformanceResultTable.js:7-18 | one default row whose credits agree with its average |
| ResultTable.Table.HandleInputChange | PerformanceResultTable.js:20-31 | the rows become the keyed update; ids stay unique and every row's credits stay those of its average |
| ResultTable.Table.AddRow | PerformanceResultTable.js:69-80 | one default row with a fresh id is appended after the unchanged earlier rows |
| ResultTable.Table.DeleteRow | PerformanceResultTable.js:82-88 | refused, with the list unchanged, exactly when one row is left; otherwise the matching row is removed |
| ResultTable.Table.HandleSubmit | PerformanceResultTable.js:41-47 | nothing is built exactly when no row holds the id; otherwise the payload of the row that holds it |
| ProjectGuidance.CreditOf | StudentInnovation.js:32 | one project's reading: blank text counts as 0, otherwise `parseFloat` |
| ProjectGuidance.Sum | StudentInnovation.js:32 | the `reduce` over the readings; stated by `ProjectGuidance.SumSomeIff`, `ProjectGuidance.SumNonNegative` and `ProjectGuidance.SumReplace` |
| ProjectGuidance.Capped | StudentInnovation.js:33 | `Math.min(x, 6)` |
| ProjectGuidance.Bonus | StudentInnovation.js:34 | the innovation bonus; stated by `ProjectGuidance.BonusSpec` |
| ProjectGuidance.TotalCredits | StudentInnovation.js:31-36 | the total credits; stated by `ProjectGuidance.TotalCreditsBounds` |
| ProjectGuidance.UpdateProjects | StudentInnovation.js:21-25 | the keyed update of the projects; stated by `ProjectGuidance.EditSpec` |
| ProjectGuidance.SumReplace | StudentInnovation.js:32 | replacing one reading by another number changes the sum by their difference |
| ProjectGuidance.SaturatedCreditEdit | StudentInnovation.js:33 | once the credits reach 6, raising the credits of one project leaves the total unchanged |
| ProjectGuidance.SetField | StudentInnovation.js:23 | an edit keeps the project's identity and, unless it is the credits, its credits |
| ProjectGuidance.SumSomeIff | StudentInnovation.js:32 | the sum is a number exactly when every project's credits are |
| ProjectGuidance.SumNonNegative | StudentInnovation.js:32 | non-negative credits add up to a non-negative sum |
| ProjectGuidance.SumAppend | StudentInnovation.js:32 | appending a project adds its credits to the sum |
| ProjectGuidance.BonusSpec | StudentInnovation.js:34 | the bonus is 4 exactly when the narrative holds a non-space character, and 0 otherwise |
| ProjectGuidance.TotalCreditsBounds | StudentInnovation.js:31-36 | the total is a number exactly when all credits are, never exceeds 10, and is not negative when no credits are |
| ProjectGuidance.SaturatedTotal | StudentInnovation.js:33 | once the credits reach 6, a further project with non-negative credits leaves the total unchanged |
| ProjectGuidance.EmptyProjectAddsNothing | StudentInnovation.js:10-19 | appending an empty project never changes the total |
| ProjectGuidance.SumOfFourTwos | StudentInnovation.js:32 | four credits of 2 add up to 8 |
| ProjectGuidance.TotalCreditsExample | StudentInnovation.js:31-36 | four projects of 2 credits and a narrative give min(8, 6) + 4 = 10 |
| ProjectGuidance.TwoCredits | StudentInnovation.js:32 | the text `2` counts as 2 credits |
| ProjectGuidance.EditSpec | StudentInnovation.js:21-25 | an edit keeps length and identities; an unknown id changes nothing; with unique ids only the addressed project changes |
| ProjectGuidance.EditKeepsTotal | StudentInnovation.js:21-29 | an edit of a field other than the credits leaves the total unchanged |
| ProjectGuidance.GuidanceForm.constructor | StudentInnovation.js:5-8 | no projects, blank narrative and opinion, total 0 |
| ProjectGuidance.GuidanceForm.CalculateTotalCredits | StudentInnovation.js:31-36 | the total becomes that of the current projects and narrative; nothing else changes |
| ProjectGuidance.GuidanceForm.AddProject | StudentInnovation.js:10-19 | one empty project with a fresh id is appended and the total does not move |
| ProjectGuidance.GuidanceForm.HandleProjectChange | StudentInnovation.js:21-33 | the projects become the keyed update; the total is kept up to date; it is unchanged unless credits are edited, and unchanged when credits that already reach 6 are raised |
| ProjectGuidance.GuidanceForm.SetInnovation | StudentInnovation.js:27-29 | the narrative is replaced and the total kept up to date |
| ProjectGuidance.GuidanceForm.SetReportingOfficerOpinion | StudentInnovation.js:7 | only the opinion changes |
| Assessment.CoerceInput | Assessment.js:31 | a number input stores `parseInt(value, 10)`, or 0 when that is NaN, always a whole number; a text input stores the text verbatim |
| Assessment.FieldsCoverRecord | Assessment.js:5-29 | every field names a key of the record, every key has a field, and no two fields share a name |
| Assessment.NumberInputsAreNumericKeys | Assessment.js:5-29 | the number inputs are exactly academicYear, payScale and workingInThisInstitution; those start at 0 and every other key at `''` |
| Assessment.AssessmentForm.constructor | Assessment.js:18-29 | the record starts as the initial record |
| Assessment.AssessmentForm.HandleInputChange | Assessment.js:30-33 | exactly the named entry is overwritten with the coerced value; every other entry and the set of keys are unchanged |

## Left out

- Network requests are not modelled: `fetch`, response handling, `toast`, `alert` and `console`. So is the `setError` call that follows a response. Submission stops at the payload and returns it.
- Validation and refusal outcomes are returned as an `Option` or `bool`. The one exception is the error message of Hello.js, a field of the lecture table.
- JSX rendering and CSS are not modelled. The one UI fact used is that only rows after the first show a Delete button (`LectureTable.DeleteFromShownButton`).
- Numbers are exact reals, so IEEE floating point is not modelled.
- `toFixed(2)` is modelled as rounding to two decimals, read back as a number. Its text form is not modelled.
- Exponent-form output of `String(number)` is not modelled, so `Js.Trunc` stands for `parseInt` of a stored number. This matters for numbers below 1e-6 or from 1e21 up.
- Js.ToNumber: it does not read the `0x`, `0o` and `0b` prefixed literals or `Infinity`, which `Number` accepts (`Number("0b10")` is 2; the model gives `None`). It applies wherever the source calls `Number` on typed text, for example the semester at StudentTable.js:113.
- Js.ParseFloat: it does not read `Infinity`, which `parseFloat` accepts.
- `uuidv4()` and `Date.now()` are not modelled. Ids are method parameters that must not already be in the list.
- React scheduling is not modelled: batching, effects and stale closures over `rows`. Each handler is one atomic state change. The effect of StudentInnovation.js is modelled as `CalculateTotalCredits`, run where the effect would run.
- The body `JSON.stringify(...payload)` (StudentTable.js:126) spreads the payload, so only its first row is serialised. Serialisation is not modelled: `AttendanceTable.Table.HandleSubmit` returns the payload of all rows.
- `handleSubmit` of StudentInnovation.js only logs the form, so it is not modelled.
- `handleSubmit` of Assessment.js only posts the record, so it is not modelled.
- AttendanceTable.Derive: it does not model the code path where the guard as written passes with a zero denominator or with readings that are not numbers. JavaScript then stores `Infinity` or `NaN` text. The model recomputes only under the corrected guard `CanDerive` (see Findings).
- LectureTable.Table.HandleSubmitRow: it does not model the `error` reset on a successful response, because that depends on the network. It takes the row value captured by the button, as the source does.
- ResultTable.Table.HandleSubmit: with no row holding the id, the source fails reading `undefined` before any request. The model returns `None`.
- AttendanceTable.Table.HandleInputChange: requires `index` to be a row of the table, because every input that calls it passes its own row's index (StudentTable.js:167-184). For any other index the source would not fail. It would spread `undefined` into a partial row written past the end of the list. That case is not modelled.
- Assessment.AssessmentForm.HandleInputChange: requires the edited field to be one of `formFields`, because the handler is wired only to those inputs.
- `handleInputChange` of Hello.js can be called with any field name. Only the fields the inputs edit are modelled: `mfTeaching` is never edited.
- The `performanceFactors` column of PerformanceResultTable.js is never written, so it stays `''`.

## Findings

| source | as written | input that shows it | evidently intended | confidence | as-written member | corrected member |
|---|---|---|---|---|---|---|
| StudentTable.js:47 | derived columns are recomputed when the typed texts are truthy | present "45", lectures "0", roll "1": the text "0" is truthy, the denominator is 0, and the attendance becomes Infinity, giving factor 1.0 and 10 credits | recompute only when the readings are numbers and the denominator is not zero | not executed | AttendanceTable.TruthyInputsAdmitZeroDenominator | AttendanceTable.CanDerive |
