/**
 * The lecture section of Hello.js: an id-addressed list of rows whose two
 * period counts are coerced with `parseFloat(value) || ''`, the displayed
 * percentage and credits that go blank on falsy inputs, and the per-row
 * submit guard with its mapping to the wire record.
 */
module LectureTable {

  import opened Js
  import opened Seqs

  /** A row identity; the component draws it from `uuidv4()`, here it is handed in. */
  type Id = nat

  /** What `parseFloat(value) || ''` can leave in a period cell: `''` or a non-zero number. */
  type Coerced = v: Value | v == Blank || (v.Num? && v.n != 0.0) witness Blank

  /** The multiplication factor every row starts with. */
  const DefaultMf: real := 0.2

  datatype LectureRow = LectureRow(
    id: Id,
    semester: string,
    course: string,
    periodAllotted: Coerced,
    periodEngaged: Coerced,
    mfTeaching: real,
    reportingOfficerOpinion: string)

  /** The row the table starts with and `addRow` appends. */
  function DefaultRow(id: Id): LectureRow {
    LectureRow(id, "", "", Blank, Blank, DefaultMf, "")
  }

  /** The fields the table's inputs edit. */
  datatype Field = Semester | Course | PeriodAllotted | PeriodEngaged | ReportingOfficerOpinion

  predicate IsPeriod(field: Field) {
    field == PeriodAllotted || field == PeriodEngaged
  }

  /** The value held in `field` of `row`. */
  function Get(row: LectureRow, field: Field): Value {
    match field
    case Semester => Str(row.semester)
    case Course => Str(row.course)
    case PeriodAllotted => row.periodAllotted
    case PeriodEngaged => row.periodEngaged
    case ReportingOfficerOpinion => Str(row.reportingOfficerOpinion)
  }

  /** `parseFloat(value) || ''`: the number read from the text, or `''` when that is NaN or 0. */
  function CoerceNumber(value: string): (v: Coerced)
    ensures v == Blank <==> ParseFloat(value) == None || ParseFloat(value) == Some(0.0)
    ensures v != Blank ==> ParseFloat(value) == Some(v.n)
  {
    match ParseFloat(value)
    case Some(x) => if x != 0.0 then Num(x) else Blank
    case None => Blank
  }

  /** What an input event stores in `field`: coerced for the two period counts, verbatim otherwise. */
  function Stored(field: Field, value: string): Value {
    if IsPeriod(field) then CoerceNumber(value) else Str(value)
  }

  /** `{ ...row, [field]: updatedValue }`: only `field` changes. */
  function SetField(row: LectureRow, field: Field, value: string): (r: LectureRow)
    ensures r.id == row.id && r.mfTeaching == row.mfTeaching
  {
    match field
    case Semester => row.(semester := value)
    case Course => row.(course := value)
    case PeriodAllotted => row.(periodAllotted := CoerceNumber(value))
    case PeriodEngaged => row.(periodEngaged := CoerceNumber(value))
    case ReportingOfficerOpinion => row.(reportingOfficerOpinion := value)
  }

  /** An edit stores the coerced or verbatim value in the edited field and leaves every other field as it was. */
  lemma SetFieldFrame(row: LectureRow, field: Field, value: string)
    ensures Get(SetField(row, field, value), field) == Stored(field, value)
    ensures forall f :: f != field ==> Get(SetField(row, field, value), f) == Get(row, f)
  {
    var r := SetField(row, field, value);
    forall f | f != field
      ensures Get(r, f) == Get(row, f)
    {
      match f
      case Semester =>
      case Course =>
      case PeriodAllotted =>
      case PeriodEngaged =>
      case ReportingOfficerOpinion =>
    }
  }

  // ---------------------------------------------------------------------------
  // Displayed percentage and credits
  // ---------------------------------------------------------------------------

  /**
   * `calculatePercentageAchieved`: `None` is its `''`; `Some(p)` is the
   * `toFixed(2)` text, which reads back as `p` and is never falsy.
   */
  function PercentageAchieved(engaged: Coerced, allotted: Coerced): Option<real> {
    if !Truthy(engaged) || !Truthy(allotted) then None
    else Some(Round2(engaged.n / allotted.n * 100.0))
  }

  /** `calculateCreditsEarned` on the percentage text; `None` is its `''`. */
  function CreditsEarned(percentage: Option<real>, mf: real): Option<real> {
    match percentage
    case None => None
    case Some(p) => Some(Round2(20.0 * (p / 100.0) * mf))
  }

  function RowPercentage(row: LectureRow): Option<real> {
    PercentageAchieved(row.periodEngaged, row.periodAllotted)
  }

  function RowCredits(row: LectureRow): Option<real> {
    CreditsEarned(RowPercentage(row), row.mfTeaching)
  }

  /**
   * The percentage is blank exactly when a period count is blank; otherwise it
   * is the engaged share of the allotted periods (never a division by zero),
   * to within half a hundredth.
   */
  lemma PercentageSpec(engaged: Coerced, allotted: Coerced)
    ensures PercentageAchieved(engaged, allotted).None? <==> engaged == Blank || allotted == Blank
    ensures PercentageAchieved(engaged, allotted).Some? ==>
              allotted.n != 0.0 &&
              -0.005 <= PercentageAchieved(engaged, allotted).value - engaged.n / allotted.n * 100.0 <= 0.005
  {
    if engaged != Blank && allotted != Blank {
      Round2Near(engaged.n / allotted.n * 100.0);
    }
  }

  /** The credits are blank exactly when the percentage is, and are 20 * pct / 100 * mf to within half a hundredth. */
  lemma CreditsSpec(percentage: Option<real>, mf: real)
    ensures CreditsEarned(percentage, mf).None? <==> percentage.None?
    ensures percentage.Some? ==>
              -0.005 <= CreditsEarned(percentage, mf).value - 20.0 * (percentage.value / 100.0) * mf <= 0.005
  {
    if percentage.Some? {
      Round2Near(20.0 * (percentage.value / 100.0) * mf);
    }
  }

  /** With the default factor, engaging at most the allotted periods earns between 0 and 4 credits. */
  lemma CreditsBounded(row: LectureRow)
    requires row.mfTeaching == DefaultMf
    requires row.periodAllotted != Blank && row.periodEngaged != Blank
    requires 0.0 < row.periodEngaged.n <= row.periodAllotted.n
    ensures RowCredits(row).Some?
    ensures 0.0 <= RowCredits(row).value <= 4.0
  {
    var x := row.periodEngaged.n / row.periodAllotted.n * 100.0;
    assert 0.0 < x <= 100.0;
    Round2Monotone(0.0, x);
    Round2Monotone(x, 100.0);
    Round2OfCents(0.0);
    Round2OfCents(100.0);
    var p := Round2(x);
    assert 0.0 <= p <= 100.0;
    var c := 20.0 * (p / 100.0) * DefaultMf;
    assert 0.0 <= c <= 4.0;
    Round2Monotone(0.0, c);
    Round2Monotone(c, 4.0);
    Round2OfCents(4.0);
  }

  /** 40 periods engaged out of 50 is 80.00 percent and, at the default factor, 3.20 credits. */
  lemma LectureExample(row: LectureRow)
    requires row.periodEngaged == Num(40.0) && row.periodAllotted == Num(50.0) && row.mfTeaching == DefaultMf
    ensures RowPercentage(row) == Some(80.0)
    ensures RowCredits(row) == Some(3.2)
  {
    assert 40.0 / 50.0 * 100.0 == 80.0;
    Round2OfCents(80.0);
    assert 20.0 * (80.0 / 100.0) * DefaultMf == 3.2;
    Round2OfCents(3.2);
  }

  // ---------------------------------------------------------------------------
  // The row list
  // ---------------------------------------------------------------------------

  function RowId(row: LectureRow): nat {
    row.id
  }

  /** No two rows share an identity. */
  predicate UniqueIds(rows: seq<LectureRow>) {
    UniqueKeys(rows, RowId)
  }

  function Edit(field: Field, value: string): LectureRow -> LectureRow {
    row => SetField(row, field, value)
  }

  /** `rows.map(row => row.id === id ? { ...row, [field]: updatedValue } : row)` */
  function UpdateRows(rows: seq<LectureRow>, id: Id, field: Field, value: string): seq<LectureRow> {
    UpdateKey(rows, RowId, id, Edit(field, value))
  }

  /**
   * An edit keeps the length and the identities; addressed to an unknown
   * identity it changes nothing; with unique identities it replaces the one
   * addressed row by that row with the field set.
   */
  lemma EditSpec(rows: seq<LectureRow>, id: Id, field: Field, value: string)
    ensures |UpdateRows(rows, id, field, value)| == |rows|
    ensures !HasKey(rows, RowId, id) ==> UpdateRows(rows, id, field, value) == rows
    ensures UniqueIds(rows) ==> UniqueIds(UpdateRows(rows, id, field, value))
    ensures forall k :: UniqueIds(rows) && 0 <= k < |rows| && rows[k].id == id ==>
              UpdateRows(rows, id, field, value) == rows[..k] + [SetField(rows[k], field, value)] + rows[k + 1..]
  {
    var f := Edit(field, value);
    if !HasKey(rows, RowId, id) {
      UpdateMissingKey(rows, RowId, id, f);
    }
    UpdateKeepsKeys(rows, RowId, id, f);
    forall k | UniqueIds(rows) && 0 <= k < |rows| && rows[k].id == id
      ensures UpdateRows(rows, id, field, value) == rows[..k] + [SetField(rows[k], field, value)] + rows[k + 1..]
    {
      UpdateKeyAt(rows, RowId, k, f);
    }
  }

  /** `rows.filter(row => row.id !== id)` */
  function RemoveRows(rows: seq<LectureRow>, id: Id): seq<LectureRow> {
    RemoveKey(rows, RowId, id)
  }

  /**
   * Deleting an unknown identity changes nothing; with unique identities,
   * deleting the identity of the row at `k` removes exactly that row, keeps
   * the others in order and leaves the identities unique.
   */
  lemma DeleteSpec(rows: seq<LectureRow>, id: Id)
    ensures !HasKey(rows, RowId, id) ==> RemoveRows(rows, id) == rows
    ensures UniqueIds(rows) ==> UniqueIds(RemoveRows(rows, id))
    ensures forall k :: UniqueIds(rows) && 0 <= k < |rows| && rows[k].id == id ==>
              RemoveRows(rows, id) == rows[..k] + rows[k + 1..] && |RemoveRows(rows, id)| == |rows| - 1
  {
    if !HasKey(rows, RowId, id) {
      RemoveMissingKey(rows, RowId, id);
    }
    if UniqueIds(rows) {
      RemoveKeyKeepsUnique(rows, RowId, id);
    }
    forall k | UniqueIds(rows) && 0 <= k < |rows| && rows[k].id == id
      ensures RemoveRows(rows, id) == rows[..k] + rows[k + 1..] && |RemoveRows(rows, id)| == |rows| - 1
    {
      RemoveKeyAt(rows, RowId, k);
    }
  }

  /**
   * Only rows after the first show a Delete button, and deleting one of them
   * keeps the first row: a list the user edits is never emptied.
   */
  lemma DeleteFromShownButton(rows: seq<LectureRow>, k: nat)
    requires UniqueIds(rows) && 0 < k < |rows|
    ensures |RemoveRows(rows, rows[k].id)| >= 1
    ensures RemoveRows(rows, rows[k].id)[0] == rows[0]
  {
    DeleteSpec(rows, rows[k].id);
  }

  // ---------------------------------------------------------------------------
  // Submitting one row
  // ---------------------------------------------------------------------------

  /** The record `handleSubmitRow` posts: `id` dropped, `periodAllotted` renamed. */
  datatype LecturePayload = LecturePayload(
    semester: string,
    course: string,
    periodsAllotted: Option<int>,
    periodEngaged: Option<int>,
    mfTeaching: real,
    reportingOfficerOpinion: string)

  /** The guard of `handleSubmitRow`: the four required fields are truthy. */
  predicate SubmitReady(row: LectureRow) {
    row.semester != "" && row.course != "" && Truthy(row.periodAllotted) && Truthy(row.periodEngaged)
  }

  /** `dataToSend`: the counts cut to integers, a blank opinion defaulted to `'good'`. */
  function ToPayload(row: LectureRow): LecturePayload {
    LecturePayload(
      row.semester,
      row.course,
      ParseIntOf(row.periodAllotted),
      ParseIntOf(row.periodEngaged),
      row.mfTeaching,
      if row.reportingOfficerOpinion != "" then row.reportingOfficerOpinion else "good")
  }

  const MissingFields: string := "Please fill in all required fields"

  /**
   * A row that passes the guard sends integer counts within one of the stored
   * counts (no NaN is posted) and a non-blank opinion; the text fields and the
   * factor go out unchanged.
   */
  lemma PayloadOfReadyRow(row: LectureRow)
    requires SubmitReady(row)
    ensures ToPayload(row).periodsAllotted.Some? && ToPayload(row).periodEngaged.Some?
    ensures -1.0 < ToPayload(row).periodsAllotted.value as real - row.periodAllotted.n < 1.0
    ensures -1.0 < ToPayload(row).periodEngaged.value as real - row.periodEngaged.n < 1.0
    ensures ToPayload(row).reportingOfficerOpinion != ""
    ensures row.reportingOfficerOpinion != "" ==> ToPayload(row).reportingOfficerOpinion == row.reportingOfficerOpinion
    ensures ToPayload(row).semester == row.semester && ToPayload(row).course == row.course
    ensures ToPayload(row).mfTeaching == row.mfTeaching
  {
  }

  /** The `rows` and `error` state of the component. */
  class Table {
    var rows: seq<LectureRow>
    var error: Option<string>

    ghost predicate Valid()
      reads this
    {
      UniqueIds(rows)
    }

    /** The initial state: one default row, no error. */
    constructor (id: Id)
      ensures Valid() && rows == [DefaultRow(id)] && error == None
    {
      rows := [DefaultRow(id)];
      error := None;
    }

    /** `handleInputChange(id, field, value)` */
    method HandleInputChange(id: Id, field: Field, value: string)
      requires Valid()
      modifies this
      ensures Valid()
      ensures rows == UpdateRows(old(rows), id, field, value)
      ensures error == old(error)
    {
      EditSpec(rows, id, field, value);
      rows := UpdateRows(rows, id, field, value);
    }

    /** `addRow` with a fresh identity. */
    method AddRow(id: Id)
      requires Valid() && !HasKey(rows, RowId, id)
      modifies this
      ensures Valid()
      ensures rows == old(rows) + [DefaultRow(id)]
      ensures error == old(error)
    {
      rows := rows + [DefaultRow(id)];
    }

    /** `deleteRow(id)` */
    method DeleteRow(id: Id)
      requires Valid()
      modifies this
      ensures Valid()
      ensures rows == RemoveRows(old(rows), id)
      ensures error == old(error)
    {
      DeleteSpec(rows, id);
      rows := RemoveRows(rows, id);
    }

    /**
     * `handleSubmitRow(row)` up to the request: a row failing the guard sets
     * the error and builds nothing; otherwise the payload is built.
     */
    method HandleSubmitRow(row: LectureRow) returns (payload: Option<LecturePayload>)
      modifies this
      ensures rows == old(rows)
      ensures payload.None? <==> !SubmitReady(row)
      ensures payload.Some? ==> payload.value == ToPayload(row) && error == old(error)
      ensures payload.None? ==> error == Some(MissingFields)
    {
      if row.semester == "" || row.course == "" || !Truthy(row.periodAllotted) || !Truthy(row.periodEngaged) {
        error := Some(MissingFields);
        return None;
      }
      payload := Some(ToPayload(row));
    }
  }
}
