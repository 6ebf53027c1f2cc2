/**
 * The attendance section of StudentTable.js: an index-addressed list of rows
 * with display serial numbers, per-row derived attendance, factor and credits,
 * and the column mean of the attendance stamped onto every row.
 */
module AttendanceTable {

  import opened Js

  datatype Row = Row(
    sNo: int,
    semester: Value,
    course: Value,
    studentPresent: Value,
    lectureEngaged: Value,
    studentRoll: Value,
    averageAttendence: real,
    averageOfColumn: real,
    performanceFactor: real,
    creditsEarned: real,
    reportingOfficerOpinion: Value)

  /** The row the table starts with and `addRow` appends. */
  function DefaultRow(sNo: int): Row {
    Row(sNo, Num(0.0), Blank, Num(0.0), Num(0.0), Num(0.0), 0.0, 0.0, 0.0, 0.0, Blank)
  }

  /** The fields the table's inputs edit; the derived columns are read-only. */
  datatype Field = Semester | Course | StudentPresent | LectureEngaged | StudentRoll | ReportingOfficerOpinion

  predicate IsAttendanceInput(field: Field) {
    field == StudentPresent || field == LectureEngaged || field == StudentRoll
  }

  /** `{ ...row, [field]: value }` */
  function SetField(row: Row, field: Field, value: Value): Row {
    match field
    case Semester => row.(semester := value)
    case Course => row.(course := value)
    case StudentPresent => row.(studentPresent := value)
    case LectureEngaged => row.(lectureEngaged := value)
    case StudentRoll => row.(studentRoll := value)
    case ReportingOfficerOpinion => row.(reportingOfficerOpinion := value)
  }

  /** The fields a user types into, with the serial number; everything but the derived columns. */
  function RawFields(row: Row): Row {
    row.(averageAttendence := 0.0, averageOfColumn := 0.0, performanceFactor := 0.0, creditsEarned := 0.0)
  }

  // ---------------------------------------------------------------------------
  // Derivations
  // ---------------------------------------------------------------------------

  /** `calculateAverageAttendance`: present * 100 / (lectures * roll), to two decimals. */
  function AverageAttendance(present: real, lectures: real, roll: real): real
    requires lectures * roll != 0.0
  {
    Round2(present * 100.0 / (lectures * roll))
  }

  /** The attendance is the exact ratio to within half a hundredth. */
  lemma AverageAttendanceNear(present: real, lectures: real, roll: real)
    requires lectures * roll != 0.0
    ensures -0.005 <= AverageAttendance(present, lectures, roll) - present * 100.0 / (lectures * roll) <= 0.005
  {
    Round2Near(present * 100.0 / (lectures * roll));
  }

  /** `calculatePerformanceFactor`: the first tier whose lower bound the average reaches. */
  function PerformanceFactor(average: real): (f: real)
    ensures f == 1.0 || f == 0.7 || f == 0.5 || f == 0.2
  {
    if average >= 81.0 then 1.0
    else if average >= 61.0 then 0.7
    else if average >= 41.0 then 0.5
    else 0.2
  }

  /** `calculateCreditsEarned`: ten times the factor, to two decimals. */
  function CreditsEarned(factor: real): real {
    Round2(10.0 * factor)
  }

  /** Each tier is the half-open band of averages between its bound and the next one up. */
  lemma PerformanceFactorTiers(average: real)
    ensures PerformanceFactor(average) == 1.0 <==> average >= 81.0
    ensures PerformanceFactor(average) == 0.7 <==> 61.0 <= average < 81.0
    ensures PerformanceFactor(average) == 0.5 <==> 41.0 <= average < 61.0
    ensures PerformanceFactor(average) == 0.2 <==> average < 41.0
  {
  }

  /** A higher average never earns a lower factor. */
  lemma PerformanceFactorMonotone(a: real, b: real)
    requires a <= b
    ensures PerformanceFactor(a) <= PerformanceFactor(b)
  {
  }

  /** Credits are exactly ten times the factor: 10, 7, 5 or 2. */
  lemma CreditsAreTenTimesFactor(average: real)
    ensures CreditsEarned(PerformanceFactor(average)) == 10.0 * PerformanceFactor(average)
    ensures CreditsEarned(PerformanceFactor(average)) in {10.0, 7.0, 5.0, 2.0}
  {
    var f := PerformanceFactor(average);
    assert IsCents(10.0 * f) by {
      assert (10.0 * f * 100.0).Floor as real == 10.0 * f * 100.0;
    }
    Round2OfCents(10.0 * f);
  }

  /** The guard of `handleInputChange` as written: the three raw inputs are truthy. */
  predicate TruthyInputs(row: Row) {
    Truthy(row.studentPresent) && Truthy(row.lectureEngaged) && Truthy(row.studentRoll)
  }

  /** `parseFloat(lectureEngaged) * parseFloat(studentRoll)`, None when either reads as NaN. */
  function Denominator(row: Row): Option<real> {
    match (ParseFloatOf(row.lectureEngaged), ParseFloatOf(row.studentRoll))
    case (Some(l), Some(r)) => Some(l * r)
    case _ => None
  }

  /**
   * When the derived columns are recomputed: the three inputs are truthy, all
   * three read as numbers, and the denominator is not zero.
   */
  predicate CanDerive(row: Row) {
    TruthyInputs(row) && ParseFloatOf(row.studentPresent).Some? &&
    Denominator(row).Some? && Denominator(row).value != 0.0
  }

  /** The row with its attendance, factor and credits recomputed from its raw inputs. */
  function Derive(row: Row): (d: Row)
    requires CanDerive(row)
    ensures RawFields(d) == RawFields(row) && d.averageOfColumn == row.averageOfColumn
    ensures d.performanceFactor == PerformanceFactor(d.averageAttendence)
    ensures d.creditsEarned == 10.0 * d.performanceFactor
    ensures d.averageAttendence == AverageAttendance(ParseFloatOf(row.studentPresent).value,
                                                     ParseFloatOf(row.lectureEngaged).value,
                                                     ParseFloatOf(row.studentRoll).value)
  {
    var present := ParseFloatOf(row.studentPresent).value;
    var lectures := ParseFloatOf(row.lectureEngaged).value;
    var roll := ParseFloatOf(row.studentRoll).value;
    var average := AverageAttendance(present, lectures, roll);
    var factor := PerformanceFactor(average);
    CreditsAreTenTimesFactor(average);
    row.(averageAttendence := average, performanceFactor := factor, creditsEarned := CreditsEarned(factor))
  }

  /** `rows.reduce((sum, row) => sum + parseFloat(row.averageAttendence || 0), 0)` */
  function SumAttendance(rows: seq<Row>): real {
    if rows == [] then 0.0 else SumAttendance(rows[..|rows| - 1]) + rows[|rows| - 1].averageAttendence
  }

  /** `calculateAverageOfColumn`: the mean attendance over all rows, to two decimals. */
  function ColumnMean(rows: seq<Row>): real
    requires |rows| > 0
  {
    Round2(SumAttendance(rows) / |rows| as real)
  }

  /** The column mean depends on the rows' attendance only. */
  lemma {:induction false} SumAttendanceOnlyReadsAttendance(a: seq<Row>, b: seq<Row>)
    requires |a| == |b|
    requires forall i :: 0 <= i < |a| ==> a[i].averageAttendence == b[i].averageAttendence
    ensures SumAttendance(a) == SumAttendance(b)
  {
    if a != [] {
      SumAttendanceOnlyReadsAttendance(a[..|a| - 1], b[..|b| - 1]);
    }
  }

  /** When every row's attendance lies in [lo, hi], so does their sum divided by the count. */
  lemma {:induction false} SumAttendanceBounds(rows: seq<Row>, lo: real, hi: real)
    requires forall i :: 0 <= i < |rows| ==> lo <= rows[i].averageAttendence <= hi
    ensures |rows| as real * lo <= SumAttendance(rows) <= |rows| as real * hi
  {
    if rows != [] {
      var n := |rows| - 1;
      SumAttendanceBounds(rows[..n], lo, hi);
      assert (n + 1) as real * lo == n as real * lo + lo;
      assert (n + 1) as real * hi == n as real * hi + hi;
    }
  }

  /** A total between `n * lo` and `n * hi` gives a quotient by `n` between `lo` and `hi`. */
  lemma QuotientBounds(total: real, n: real, lo: real, hi: real)
    requires n > 0.0 && n * lo <= total <= n * hi
    ensures lo <= total / n <= hi
  {
    assert (total / n) * n == total;
  }

  /** The column mean lies between the lowest and the highest attendance (each rounded). */
  lemma ColumnMeanBounds(rows: seq<Row>, lo: real, hi: real)
    requires |rows| > 0
    requires forall i :: 0 <= i < |rows| ==> lo <= rows[i].averageAttendence <= hi
    ensures Round2(lo) <= ColumnMean(rows) <= Round2(hi)
  {
    var n := |rows| as real;
    SumAttendanceBounds(rows, lo, hi);
    var mean := SumAttendance(rows) / n;
    QuotientBounds(SumAttendance(rows), n, lo, hi);
    Round2Monotone(lo, mean);
    Round2Monotone(mean, hi);
  }

  // ---------------------------------------------------------------------------
  // Submission
  // ---------------------------------------------------------------------------

  /** `validateData`'s test for one row: the five required fields are truthy. */
  predicate RowComplete(row: Row) {
    Truthy(row.semester) && Truthy(row.course) && Truthy(row.studentPresent)
    && Truthy(row.lectureEngaged) && Truthy(row.studentRoll)
  }

  /** One row of the submitted payload; a number that `Number` reads as NaN is `None`. */
  datatype PayloadRow = PayloadRow(
    sNo: int,
    semester: Option<real>,
    course: Value,
    studentPresent: Option<real>,
    lectureEngaged: Option<real>,
    studentRoll: Option<real>,
    averageAttendence: real,
    averageOfColumn: real,
    performanceFactor: real,
    creditsEarned: real,
    reportingOfficerOpinion: Value)

  /** `{ ...row, semester: Number(row.semester), ..., averageAttendence: Number(row.averageAttendence) }` */
  function ToPayload(row: Row): (p: PayloadRow)
    ensures p.sNo == row.sNo && p.course == row.course && p.reportingOfficerOpinion == row.reportingOfficerOpinion
    ensures p.averageAttendence == row.averageAttendence && p.averageOfColumn == row.averageOfColumn
    ensures p.performanceFactor == row.performanceFactor && p.creditsEarned == row.creditsEarned
    ensures p.semester == NumberOf(row.semester) && p.studentPresent == NumberOf(row.studentPresent)
    ensures p.lectureEngaged == NumberOf(row.lectureEngaged) && p.studentRoll == NumberOf(row.studentRoll)
  {
    PayloadRow(row.sNo, NumberOf(row.semester), row.course, NumberOf(row.studentPresent),
               NumberOf(row.lectureEngaged), NumberOf(row.studentRoll), row.averageAttendence,
               row.averageOfColumn, row.performanceFactor, row.creditsEarned, row.reportingOfficerOpinion)
  }

  /** `rows.map(...)` building the payload, one entry per row in order. */
  function Payload(rows: seq<Row>): (p: seq<PayloadRow>)
    ensures |p| == |rows|
    ensures forall i :: 0 <= i < |rows| ==> p[i] == ToPayload(rows[i])
  {
    if rows == [] then [] else [ToPayload(rows[0])] + Payload(rows[1..])
  }

  /**
   * What the payload sends for the four typed columns: a stored number as
   * itself, and a text of digits as the number it writes.
   */
  lemma PayloadReadings(row: Row)
    ensures row.semester.Num? ==> ToPayload(row).semester == Some(row.semester.n)
    ensures IsDigitText(row.semester) ==> ToPayload(row).semester == Some(DigitsValue(row.semester.s) as real)
    ensures row.studentPresent.Num? ==> ToPayload(row).studentPresent == Some(row.studentPresent.n)
    ensures IsDigitText(row.studentPresent) ==> ToPayload(row).studentPresent == Some(DigitsValue(row.studentPresent.s) as real)
    ensures row.lectureEngaged.Num? ==> ToPayload(row).lectureEngaged == Some(row.lectureEngaged.n)
    ensures IsDigitText(row.lectureEngaged) ==> ToPayload(row).lectureEngaged == Some(DigitsValue(row.lectureEngaged.s) as real)
    ensures row.studentRoll.Num? ==> ToPayload(row).studentRoll == Some(row.studentRoll.n)
    ensures IsDigitText(row.studentRoll) ==> ToPayload(row).studentRoll == Some(DigitsValue(row.studentRoll.s) as real)
  {
    NumberOfReadsBack(row.semester);
    NumberOfReadsBack(row.studentPresent);
    NumberOfReadsBack(row.lectureEngaged);
    NumberOfReadsBack(row.studentRoll);
  }

  // ---------------------------------------------------------------------------
  // Worked examples
  // ---------------------------------------------------------------------------

  /** A row reading 45 present, 50 lectures and 1 on roll derives 90.00 attendance, factor 1.0 and 10 credits. */
  lemma AttendanceExample(row: Row)
    requires ParseFloatOf(row.studentPresent) == Some(45.0) && Truthy(row.studentPresent)
    requires ParseFloatOf(row.lectureEngaged) == Some(50.0) && Truthy(row.lectureEngaged)
    requires ParseFloatOf(row.studentRoll) == Some(1.0) && Truthy(row.studentRoll)
    ensures CanDerive(row)
    ensures Derive(row).averageAttendence == 90.0
    ensures Derive(row).performanceFactor == 1.0
    ensures Derive(row).creditsEarned == 10.0
  {
    assert Denominator(row) == Some(50.0);
    assert AverageAttendance(45.0, 50.0, 1.0) == 90.0 by {
      assert 45.0 * 100.0 / (50.0 * 1.0) == 90.0;
      Round2OfCents(90.0);
    }
  }

  /** Attendances 90.00 and 50.00 give a column mean of 70.00. */
  lemma ColumnMeanExample()
    ensures ColumnMean([DefaultRow(1).(averageAttendence := 90.0), DefaultRow(2).(averageAttendence := 50.0)]) == 70.0
  {
    var rows := [DefaultRow(1).(averageAttendence := 90.0), DefaultRow(2).(averageAttendence := 50.0)];
    assert rows[..1][..0] == [];
    assert SumAttendance(rows[..1]) == 90.0;
    assert SumAttendance(rows) == 140.0;
    Round2OfCents(70.0);
  }

  /**
   * The guard as written tests the truthiness of the typed text, so with any
   * typed number of students present (for example "45"), the text "0" for the
   * lectures engaged and "1" for the roll pass it and the denominator is zero.
   */
  lemma TruthyInputsAdmitZeroDenominator(row: Row)
    requires Truthy(row.studentPresent) && row.lectureEngaged == Str(['0']) && row.studentRoll == Str(['1'])
    ensures TruthyInputs(row) && Denominator(row) == Some(0.0) && !CanDerive(row)
  {
    DigitReadsBack('0');
    DigitReadsBack('1');
    assert ParseFloatOf(row.lectureEngaged) == Some(0.0);
    assert ParseFloatOf(row.studentRoll) == Some(1.0);
  }

  /** The recomputation guard refines the one written in the code and agrees with it on stored numbers. */
  lemma CanDeriveRefinesTruthyInputs(row: Row)
    ensures CanDerive(row) ==> TruthyInputs(row)
    ensures row.studentPresent.Num? && row.lectureEngaged.Num? && row.studentRoll.Num? ==>
              (CanDerive(row) <==> TruthyInputs(row))
  {
  }

  // ---------------------------------------------------------------------------
  // The component's state
  // ---------------------------------------------------------------------------

  /** Serial numbers are the 1-based positions. */
  ghost predicate Numbered(rows: seq<Row>) {
    forall i :: 0 <= i < |rows| ==> rows[i].sNo == i + 1
  }

  class Table {
    var rows: seq<Row>

    ghost predicate Valid()
      reads this
    {
      |rows| >= 1 && Numbered(rows)
    }

    /** The initial state: one default row numbered 1. */
    constructor ()
      ensures Valid() && rows == [DefaultRow(1)]
    {
      rows := [DefaultRow(1)];
    }

    /**
     * `handleInputChange(index, field, value)`: store the typed text in the
     * field, recompute the row's derived columns if an attendance input was
     * edited and the row allows it, then stamp the new column mean on every row.
     */
    method HandleInputChange(index: nat, field: Field, value: string)
      requires Valid() && index < |rows|
      modifies this
      ensures Valid() && |rows| == |old(rows)|
      ensures forall i :: 0 <= i < |rows| && i != index ==>
                rows[i] == old(rows)[i].(averageOfColumn := rows[i].averageOfColumn)
      ensures var edited := SetField(old(rows)[index], field, Str(value));
              var derived := if IsAttendanceInput(field) && CanDerive(edited) then Derive(edited) else edited;
              rows[index] == derived.(averageOfColumn := rows[index].averageOfColumn)
      ensures forall i :: 0 <= i < |rows| ==> rows[i].averageOfColumn == ColumnMean(rows)
    {
      var newRows := rows;
      newRows := newRows[index := SetField(newRows[index], field, Str(value))];
      if IsAttendanceInput(field) {
        var row := newRows[index];
        if CanDerive(row) {
          newRows := newRows[index := Derive(row)];
        }
      }
      var average := ColumnMean(newRows);
      rows := seq(|newRows|, i requires 0 <= i < |newRows| => newRows[i].(averageOfColumn := average));
      SumAttendanceOnlyReadsAttendance(rows, newRows);
    }

    /** `addRow`: append a default row numbered one past the last. */
    method AddRow()
      requires Valid()
      modifies this
      ensures Valid()
      ensures rows == old(rows) + [DefaultRow(|old(rows)| + 1)]
    {
      rows := rows + [DefaultRow(|rows| + 1)];
    }

    /**
     * `deleteRow(index)`: with more than one row, drop the row at `index` and
     * renumber the rest 1..n in their order; with one row, do nothing.
     */
    method DeleteRow(index: int)
      requires Valid()
      modifies this
      ensures Valid()
      ensures |old(rows)| == 1 || !(0 <= index < |old(rows)|) ==> rows == old(rows)
      ensures |old(rows)| > 1 && 0 <= index < |old(rows)| ==>
                |rows| == |old(rows)| - 1 &&
                forall i :: 0 <= i < |rows| ==>
                  rows[i] == old(rows)[if i < index then i else i + 1].(sNo := i + 1)
    {
      if |rows| > 1 {
        var kept := if 0 <= index < |rows| then rows[..index] + rows[index + 1..] else rows;
        rows := seq(|kept|, i requires 0 <= i < |kept| => kept[i].(sNo := i + 1));
      }
    }

    /** `validateData`: false as soon as a row misses a required field. */
    method ValidateData() returns (ok: bool)
      ensures ok <==> forall i :: 0 <= i < |rows| ==> RowComplete(rows[i])
    {
      for i := 0 to |rows|
        invariant forall j :: 0 <= j < i ==> RowComplete(rows[j])
      {
        if !RowComplete(rows[i]) {
          return false;
        }
      }
      return true;
    }

    /** `handleSubmit` up to the request: the payload when every row is complete, nothing otherwise. */
    method HandleSubmit() returns (payload: Option<seq<PayloadRow>>)
      ensures payload.None? <==> exists i :: 0 <= i < |rows| && !RowComplete(rows[i])
      ensures payload.Some? ==> payload.value == Payload(rows)
    {
      var ok := ValidateData();
      if !ok {
        return None;
      }
      return Some(Payload(rows));
    }
  }
}
