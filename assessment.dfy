/**
 * The academic-profile section of Assessment.js: the table of form fields,
 * the flat record they edit, and the change handler that overwrites one
 * named entry, coercing number inputs with `parseInt(value, 10) || 0`.
 */
module Assessment {

  import opened Js

  /** The `type` attribute of an input. */
  datatype InputType = NumberInput | TextInput

  /** An entry of `formFields`: its `label` as `caption` (its generated `id` serves only as a rendering key). */
  datatype FormField = FormField(caption: string, name: string, kind: InputType)

  /** `formFields`, in display order. */
  const FormFields: seq<FormField> := [
    FormField("ASSESSMENT ACADEMIC YEAR", "academicYear", NumberInput),
    FormField("NAME OF FACULTY", "facultyname", TextInput),
    FormField("POST", "post", TextInput),
    FormField("PAY SCALE", "payScale", NumberInput),
    FormField("INSTITUTION", "institution", TextInput),
    FormField("WORKING IN THIS INSTITUTION (YEARS)", "workingInThisInstitution", NumberInput),
    FormField("NAME AND DESIGNATION OF SECTIONAL HEAD (Institutional Level) (REPORTING OFFICER)", "sectionalHead", TextInput),
    FormField("NAME AND DESIGNATION OF THE HEAD OF INSTITUTION (Principal/Director) (RECOMMENDING OFFICER)", "institutionHead", TextInput),
    FormField("NAME AND DESIGNATION OF THE HEAD OF THE DEPARTMENT (Director, Technical Education) (FORWARDING OFFICER)", "departmentHead", TextInput),
    FormField("NAME OF THE PRINCIPAL SECRETARY (ACCEPTING AUTHORITY)", "secretary", TextInput)
  ]

  /** The keys that hold numbers. */
  const NumericKeys: set<string> := {"academicYear", "payScale", "workingInThisInstitution"}

  /** The initial `formData`: the numeric keys at 0, every other key `''`. */
  const InitialFormData: map<string, Value> := map[
    "academicYear" := Num(0.0),
    "facultyname" := Blank,
    "post" := Blank,
    "payScale" := Num(0.0),
    "institution" := Blank,
    "workingInThisInstitution" := Num(0.0),
    "sectionalHead" := Blank,
    "institutionHead" := Blank,
    "departmentHead" := Blank,
    "secretary" := Blank
  ]

  /** The value the handler stores: `parseInt(value, 10) || 0` for number inputs, the text itself otherwise. */
  function CoerceInput(kind: InputType, value: string): (v: Value)
    ensures kind == TextInput ==> v == Str(value)
    ensures kind == NumberInput ==> v.Num? && v.n == v.n.Floor as real
    ensures kind == NumberInput && ParseInt(value).Some? ==> v == Num(ParseInt(value).value as real)
    ensures kind == NumberInput && ParseInt(value).None? ==> v == Num(0.0)
  {
    match kind
    case TextInput => Str(value)
    case NumberInput =>
      match ParseInt(value)
      case Some(k) => Num(k as real)
      case None => Num(0.0)
  }

  /** The fields cover the record exactly, one field per key. */
  lemma FieldsCoverRecord()
    ensures forall i :: 0 <= i < |FormFields| ==> FormFields[i].name in InitialFormData
    ensures forall key :: key in InitialFormData ==> exists i :: 0 <= i < |FormFields| && FormFields[i].name == key
    ensures forall i, j :: 0 <= i < j < |FormFields| ==> FormFields[i].name != FormFields[j].name
  {
    forall key | key in InitialFormData
      ensures exists i :: 0 <= i < |FormFields| && FormFields[i].name == key
    {
      if key == "academicYear" { assert FormFields[0].name == key; }
      else if key == "facultyname" { assert FormFields[1].name == key; }
      else if key == "post" { assert FormFields[2].name == key; }
      else if key == "payScale" { assert FormFields[3].name == key; }
      else if key == "institution" { assert FormFields[4].name == key; }
      else if key == "workingInThisInstitution" { assert FormFields[5].name == key; }
      else if key == "sectionalHead" { assert FormFields[6].name == key; }
      else if key == "institutionHead" { assert FormFields[7].name == key; }
      else if key == "departmentHead" { assert FormFields[8].name == key; }
      else { assert FormFields[9].name == key; }
    }
  }

  /**
   * The number inputs are exactly the three numeric keys; those start at 0
   * and every other key starts as `''`.
   */
  lemma NumberInputsAreNumericKeys()
    ensures forall i :: 0 <= i < |FormFields| ==> (FormFields[i].kind == NumberInput <==> FormFields[i].name in NumericKeys)
    ensures forall key :: key in InitialFormData ==> InitialFormData[key] == if key in NumericKeys then Num(0.0) else Blank
  {
  }

  /** The `formData` state of the component. */
  class AssessmentForm {
    var formData: map<string, Value>

    /** The record keeps its keys, and a number key always holds a whole number. */
    ghost predicate Valid()
      reads this
    {
      formData.Keys == InitialFormData.Keys &&
      forall key :: key in NumericKeys ==> formData[key].Num? && formData[key].n == formData[key].n.Floor as real
    }

    constructor ()
      ensures Valid() && formData == InitialFormData
    {
      formData := InitialFormData;
    }

    /**
     * `handleInputChange` for an input of `field`: that entry is overwritten
     * with the coerced value and every other entry is left as it was.
     */
    method HandleInputChange(field: FormField, value: string)
      requires Valid() && field in FormFields
      modifies this
      ensures Valid()
      ensures formData == old(formData)[field.name := CoerceInput(field.kind, value)]
      ensures forall key :: key in old(formData) && key != field.name ==> formData[key] == old(formData)[key]
      ensures formData.Keys == old(formData).Keys
    {
      FieldsCoverRecord();
      NumberInputsAreNumericKeys();
      formData := formData[field.name := CoerceInput(field.kind, value)];
    }
  }
}
