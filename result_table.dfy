/**
 * The result section of PerformanceResultTable.js: an id-addressed list of
 * rows whose credits are recomputed from the class average only when that
 * average is edited, a deletion refused at the last row, and the submit
 * mapping of one row found by its identity.
 */
module ResultTable {

  import opened Js
  import opened Seqs
  import AttendanceTable

  type Id = nat

  datatype ResultRow = ResultRow(
    id: Id,
    semester: Value,
    course: string,
    averageResult: Value,
    averageOfColumn4: string,
    performanceFactors: string,
    creditsEarned: Option<real>,
    reportingOfficerOpinion: string)

  /** The row the table starts with and `addRow` appends: semester and average result 0, the rest `''`. */
  function DefaultRow(id: Id): ResultRow {
    ResultRow(id, Num(0.0), "", Num(0.0), "", "", None, "")
  }

  /** The fields the table's inputs edit. */
  datatype Field = Semester | Course | AverageResult | AverageOfColumn4 | ReportingOfficerOpinion

  /** `{ ...row, [field]: value }` */
  function SetField(row: ResultRow, field: Field, value: string): (r: ResultRow)
    ensures r.id == row.id && r.creditsEarned == row.creditsEarned && r.performanceFactors == row.performanceFactors
  {
    match field
    case Semester => row.(semester := Str(value))
    case Course => row.(course := value)
    case AverageResult => row.(averageResult := Str(value))
    case AverageOfColumn4 => row.(averageOfColumn4 := value)
    case ReportingOfficerOpinion => row.(reportingOfficerOpinion := value)
  }

  // ---------------------------------------------------------------------------
  // Credits
  // ---------------------------------------------------------------------------

  /**
   * The factor tiers applied to the text of the average. The comparisons
   * convert the text with `Number`; text that is not a number compares false
   * with every bound and falls through to the last tier.
   */
  function Factor(average: string): real {
    match ToNumber(average)
    case Some(x) => AttendanceTable.PerformanceFactor(x)
    case None => 0.2
  }

  /** `calculateCreditsEarned`: `None` is its `''`; otherwise ten times the factor, to two decimals. */
  function CreditsEarned(average: string): Option<real> {
    if average == "" then None else Some(Round2(10.0 * Factor(average)))
  }

  /**
   * The credits are blank exactly for blank text and are otherwise one of
   * 10, 7, 5 and 2: 10 at 81 and above, 7 from 61, 5 from 41, and 2 below 41
   * or for text that is not a number.
   */
  lemma CreditsSpec(average: string)
    ensures CreditsEarned(average).None? <==> average == ""
    ensures average != "" ==> CreditsEarned(average).value in {10.0, 7.0, 5.0, 2.0}
    ensures average != "" && ToNumber(average).Some? ==>
              (CreditsEarned(average) == Some(10.0) <==> ToNumber(average).value >= 81.0) &&
              (CreditsEarned(average) == Some(7.0) <==> 61.0 <= ToNumber(average).value < 81.0) &&
              (CreditsEarned(average) == Some(5.0) <==> 41.0 <= ToNumber(average).value < 61.0) &&
              (CreditsEarned(average) == Some(2.0) <==> ToNumber(average).value < 41.0)
    ensures average != "" && ToNumber(average).None? ==> CreditsEarned(average) == Some(2.0)
  {
    if average != "" {
      var f := Factor(average);
      assert 10.0 * f in {10.0, 7.0, 5.0, 2.0};
      Round2OfCents(10.0 * f);
    }
  }

  /** For readable averages these are the attendance credits of the same number. */
  lemma CreditsAgreeWithAttendance(average: string)
    requires average != "" && ToNumber(average).Some?
    ensures CreditsEarned(average) == Some(AttendanceTable.CreditsEarned(AttendanceTable.PerformanceFactor(ToNumber(average).value)))
  {
  }

  /** A higher readable average never earns fewer credits. */
  lemma CreditsMonotone(lower: string, higher: string)
    requires lower != "" && higher != ""
    requires ToNumber(lower).Some? && ToNumber(higher).Some?
    requires ToNumber(lower).value <= ToNumber(higher).value
    ensures CreditsEarned(lower).value <= CreditsEarned(higher).value
  {
    AttendanceTable.PerformanceFactorMonotone(ToNumber(lower).value, ToNumber(higher).value);
    Round2Monotone(10.0 * Factor(lower), 10.0 * Factor(higher));
  }

  /** The boundary cases: text reading as 81 earns 10 credits, text reading as 80.99 earns 7. */
  lemma CreditsBoundaryExample(top: string, below: string)
    requires top != "" && ToNumber(top) == Some(81.0)
    requires below != "" && ToNumber(below) == Some(80.99)
    ensures CreditsEarned(top) == Some(10.0)
    ensures CreditsEarned(below) == Some(7.0)
  {
    CreditsSpec(top);
    CreditsSpec(below);
  }

  /** The text `81` itself reads as 81 and so earns 10 credits. */
  lemma CreditsOfEightyOne(average: string)
    requires average == ['8', '1']
    ensures CreditsEarned(average) == Some(10.0)
  {
    DigitPairReadsBack(average);
    CreditsSpec(average);
  }

  // ---------------------------------------------------------------------------
  // The row list
  // ---------------------------------------------------------------------------

  function RowId(row: ResultRow): nat {
    row.id
  }

  predicate UniqueIds(rows: seq<ResultRow>) {
    UniqueKeys(rows, RowId)
  }

  /** The credits shown beside an average are the credits of that average. */
  predicate Consistent(row: ResultRow) {
    row.creditsEarned == CreditsEarned(row.averageOfColumn4)
  }

  /** The `map` callback of `handleInputChange`: set the field, and recompute the credits when it is the average. */
  function EditRow(row: ResultRow, field: Field, value: string): ResultRow {
    var updated := SetField(row, field, value);
    if field == AverageOfColumn4 then updated.(creditsEarned := CreditsEarned(value)) else updated
  }

  /**
   * Editing the average sets the credits to the credits of the new text;
   * editing any other field leaves them as they were. Either way the identity
   * is kept and a row whose credits matched its average still matches.
   */
  lemma EditRowSpec(row: ResultRow, field: Field, value: string)
    ensures EditRow(row, field, value).id == row.id
    ensures field == AverageOfColumn4 ==> EditRow(row, field, value).creditsEarned == CreditsEarned(value)
    ensures field != AverageOfColumn4 ==> EditRow(row, field, value).creditsEarned == row.creditsEarned
    ensures Consistent(row) ==> Consistent(EditRow(row, field, value))
  {
  }

  function Edit(field: Field, value: string): ResultRow -> ResultRow {
    row => EditRow(row, field, value)
  }

  function UpdateRows(rows: seq<ResultRow>, id: Id, field: Field, value: string): seq<ResultRow> {
    UpdateKey(rows, RowId, id, Edit(field, value))
  }

  /**
   * An edit keeps the length and the identities; addressed to an unknown
   * identity it changes nothing; with unique identities it replaces only the
   * addressed row.
   */
  lemma EditSpec(rows: seq<ResultRow>, id: Id, field: Field, value: string)
    ensures |UpdateRows(rows, id, field, value)| == |rows|
    ensures !HasKey(rows, RowId, id) ==> UpdateRows(rows, id, field, value) == rows
    ensures UniqueIds(rows) ==> UniqueIds(UpdateRows(rows, id, field, value))
    ensures forall k :: UniqueIds(rows) && 0 <= k < |rows| && rows[k].id == id ==>
              UpdateRows(rows, id, field, value) == rows[..k] + [EditRow(rows[k], field, value)] + rows[k + 1..]
  {
    var f := Edit(field, value);
    if !HasKey(rows, RowId, id) {
      UpdateMissingKey(rows, RowId, id, f);
    }
    UpdateKeepsKeys(rows, RowId, id, f);
    forall k | UniqueIds(rows) && 0 <= k < |rows| && rows[k].id == id
      ensures UpdateRows(rows, id, field, value) == rows[..k] + [EditRow(rows[k], field, value)] + rows[k + 1..]
    {
      UpdateKeyAt(rows, RowId, k, f);
    }
  }

  function RemoveRows(rows: seq<ResultRow>, id: Id): seq<ResultRow> {
    RemoveKey(rows, RowId, id)
  }

  /**
   * With more than one row and unique identities, a deletion never empties
   * the list; the identity of the row at `k` removes exactly that row, and an
   * unknown identity changes nothing.
   */
  lemma DeleteSpec(rows: seq<ResultRow>, id: Id)
    requires UniqueIds(rows) && |rows| > 1
    ensures UniqueIds(RemoveRows(rows, id)) && |RemoveRows(rows, id)| >= 1
    ensures !HasKey(rows, RowId, id) ==> RemoveRows(rows, id) == rows
    ensures forall k :: 0 <= k < |rows| && rows[k].id == id ==> RemoveRows(rows, id) == rows[..k] + rows[k + 1..]
  {
    RemoveKeyKeepsUnique(rows, RowId, id);
    if !HasKey(rows, RowId, id) {
      RemoveMissingKey(rows, RowId, id);
    }
    forall k | 0 <= k < |rows| && rows[k].id == id
      ensures RemoveRows(rows, id) == rows[..k] + rows[k + 1..]
    {
      RemoveKeyAt(rows, RowId, k);
    }
  }

  /** `rows.find(row => row.id === id)` */
  function Find(rows: seq<ResultRow>, id: Id): (r: Option<ResultRow>)
    ensures r.Some? <==> HasKey(rows, RowId, id)
    ensures r.Some? ==> r.value in rows && r.value.id == id
  {
    if rows == [] then None
    else if rows[0].id == id then Some(rows[0])
    else
      var r := Find(rows[1..], id);
      assert HasKey(rows, RowId, id) ==> HasKey(rows[1..], RowId, id) by {
        if HasKey(rows, RowId, id) {
          var i :| 0 <= i < |rows| && rows[i].id == id;
          assert rows[1..][i - 1] == rows[i];
        }
      }
      assert HasKey(rows[1..], RowId, id) ==> HasKey(rows, RowId, id) by {
        if HasKey(rows[1..], RowId, id) {
          var i :| 0 <= i < |rows[1..]| && rows[1..][i].id == id;
          assert rows[i + 1] == rows[1..][i];
        }
      }
      r
  }

  /** With unique identities the row found is the one row holding the identity. */
  lemma FindUnique(rows: seq<ResultRow>, k: nat)
    requires UniqueIds(rows) && k < |rows|
    ensures Find(rows, rows[k].id) == Some(rows[k])
  {
    var r := Find(rows, rows[k].id);
    var j :| 0 <= j < |rows| && rows[j] == r.value;
  }

  // ---------------------------------------------------------------------------
  // Submitting one row
  // ---------------------------------------------------------------------------

  /** `dataToSubmit`: the semester cut to an integer, the course, and the average result as a number. */
  datatype ResultPayload = ResultPayload(semester: Option<int>, course: string, averageResult: Option<real>)

  function ToPayload(row: ResultRow): ResultPayload {
    ResultPayload(ParseIntAutoOf(row.semester), row.course, ParseFloatOf(row.averageResult))
  }

  /** The payload of an untouched row is semester 0, no course and average result 0. */
  lemma DefaultPayload(id: Id)
    ensures ToPayload(DefaultRow(id)) == ResultPayload(Some(0), "", Some(0.0))
  {
  }

  /**
   * The semester is sent as `parseInt` with no radix reads it: a stored number
   * cut toward zero, a digit text as the number it writes, and a `0x` or `0X`
   * text as a hexadecimal number.
   */
  lemma SemesterReadings(row: ResultRow)
    ensures row.semester.Num? ==> ToPayload(row).semester == Some(Trunc(row.semester.n))
    ensures IsDigitText(row.semester) ==> ToPayload(row).semester == Some(DigitsValue(row.semester.s))
    ensures row.semester.Str? && |row.semester.s| > 2 && HexPrefixed(row.semester.s) && AllHexDigits(row.semester.s[2..]) ==>
      ToPayload(row).semester == Some(HexValue(row.semester.s[2..]))
  {
    if IsDigitText(row.semester) {
      DigitStringReadsBackAuto(row.semester.s);
    }
    if row.semester.Str? && |row.semester.s| > 2 && HexPrefixed(row.semester.s) && AllHexDigits(row.semester.s[2..]) {
      var t := row.semester.s;
      assert t == ['0', t[1]] + t[2..];
      HexTextReadsBack(t[1], t[2..]);
    }
  }

  /** The payload depends on the semester, course and average result only: the derived columns are not sent. */
  lemma PayloadIgnoresDerived(row: ResultRow, other: ResultRow)
    requires row.semester == other.semester && row.course == other.course && row.averageResult == other.averageResult
    ensures ToPayload(row) == ToPayload(other)
  {
  }

  /** The `rows` state of the component. */
  class Table {
    var rows: seq<ResultRow>

    ghost predicate Valid()
      reads this
    {
      |rows| >= 1 && UniqueIds(rows) && forall i :: 0 <= i < |rows| ==> Consistent(rows[i])
    }

    constructor (id: Id)
      ensures Valid() && rows == [DefaultRow(id)]
    {
      rows := [DefaultRow(id)];
    }

    /** `handleInputChange(id, field, value)` */
    method HandleInputChange(id: Id, field: Field, value: string)
      requires Valid()
      modifies this
      ensures Valid()
      ensures rows == UpdateRows(old(rows), id, field, value)
    {
      EditSpec(rows, id, field, value);
      forall i | 0 <= i < |rows|
        ensures Consistent(UpdateRows(rows, id, field, value)[i])
      {
        EditRowSpec(rows[i], field, value);
      }
      rows := UpdateRows(rows, id, field, value);
    }

    /** `addRow` with a fresh identity. */
    method AddRow(id: Id)
      requires Valid() && !HasKey(rows, RowId, id)
      modifies this
      ensures Valid()
      ensures rows == old(rows) + [DefaultRow(id)]
    {
      rows := rows + [DefaultRow(id)];
    }

    /** `deleteRow(id)`: refused, with the list unchanged, when only one row is left. */
    method DeleteRow(id: Id) returns (refused: bool)
      requires Valid()
      modifies this
      ensures Valid()
      ensures refused <==> |old(rows)| == 1
      ensures refused ==> rows == old(rows)
      ensures !refused ==> rows == RemoveRows(old(rows), id)
    {
      if |rows| > 1 {
        DeleteSpec(rows, id);
        rows := RemoveRows(rows, id);
        refused := false;
      } else {
        refused := true;
      }
    }

    /**
     * `handleSubmit(id)` up to the request: the payload of the row holding
     * `id`, or nothing when no row holds it (the source then fails on
     * `undefined` before any request is made).
     */
    method HandleSubmit(id: Id) returns (payload: Option<ResultPayload>)
      requires Valid()
      ensures payload.None? <==> !HasKey(rows, RowId, id)
      ensures forall k :: 0 <= k < |rows| && rows[k].id == id ==> payload == Some(ToPayload(rows[k]))
    {
      var found := Find(rows, id);
      forall k | 0 <= k < |rows| && rows[k].id == id
        ensures found == Some(rows[k])
      {
        FindUnique(rows, k);
      }
      payload := match found
        case None => None
        case Some(row) => Some(ToPayload(row));
    }
  }
}
