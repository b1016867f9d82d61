/**
 * The citizen's report form (frontend/src/pages/CreateReport.jsx): the
 * client-side validation, the multipart body handleSubmit assembles, and the
 * reset after a successful submit. The request itself is recorded in a log;
 * the network, the success banner's timer and the rendering are not modelled.
 */
module CreateReportPage {
  import opened Wrappers
  import opened Text
  import opened Models
  import ReportController

  const TITLE_KEY: string := "title"
  const DESCRIPTION_KEY: string := "description"
  const ADDRESS_KEY: string := "address"
  const LATITUDE_KEY: string := "latitude"
  const LONGITUDE_KEY: string := "longitude"
  const IMAGE_KEY: string := "image"
  const DEPARTMENT_KEY: string := "department"
  const CATEGORY_KEY: string := "category"

  /** The controlled form fields; a coordinate is None until one was picked. */
  datatype Form = Form(title: string, description: string, address: string, latitude: Option<real>, longitude: Option<real>)

  const EMPTY_FORM: Form := Form("", "", "", None, None)

  /** One value appended to the FormData. */
  datatype FormValue = Text(text: string) | Coordinate(coordinate: Option<real>) | File(fileName: string)

  datatype Field = Field(key: string, value: FormValue)

  /** validateForm: one message per field whose trimmed value is empty. */
  function FormErrors(form: Form): (errors: map<string, string>)
    ensures TITLE_KEY in errors <==> Trim(form.title) == ""
    ensures DESCRIPTION_KEY in errors <==> Trim(form.description) == ""
    ensures ADDRESS_KEY in errors <==> Trim(form.address) == ""
    ensures errors.Keys <= {TITLE_KEY, DESCRIPTION_KEY, ADDRESS_KEY}
  {
    var e0: map<string, string> := map[];
    var e1 := if Trim(form.title) == "" then e0[TITLE_KEY := "Title is required"] else e0;
    var e2 := if Trim(form.description) == "" then e1[DESCRIPTION_KEY := "Description is required"] else e1;
    if Trim(form.address) == "" then e2[ADDRESS_KEY := "Address is required"] else e2
  }

  /** validateForm's result: true iff no error was recorded. */
  lemma FormValidIff(form: Form)
    ensures |FormErrors(form)| == 0 <==>
              Trim(form.title) != "" && Trim(form.description) != "" && Trim(form.address) != ""
  {
    var e := FormErrors(form);
    if Trim(form.title) == "" { assert TITLE_KEY in e.Keys; }
    else if Trim(form.description) == "" { assert DESCRIPTION_KEY in e.Keys; }
    else if Trim(form.address) == "" { assert ADDRESS_KEY in e.Keys; }
    else { assert e.Keys == {}; }
  }

  /** validateForm as handleSubmit calls it: the errors to record, and whether there are none. */
  method ValidateForm(form: Form) returns (errors: map<string, string>, valid: bool)
    ensures errors == FormErrors(form)
    ensures valid <==> Trim(form.title) != "" && Trim(form.description) != "" && Trim(form.address) != ""
  {
    errors := FormErrors(form);
    valid := |errors| == 0;
    FormValidIff(form);
  }

  function FormFields(form: Form): seq<Field> {
    [Field(TITLE_KEY, Text(form.title)), Field(DESCRIPTION_KEY, Text(form.description)),
     Field(ADDRESS_KEY, Text(form.address)), Field(LATITUDE_KEY, Coordinate(form.latitude)),
     Field(LONGITUDE_KEY, Coordinate(form.longitude))]
  }

  /**
   * The FormData handleSubmit builds: the five form fields in order, the image
   * if one was chosen, then the selected department's name twice, as
   * "department" and as "category".
   */
  function FormEntries(form: Form, image: Option<string>, selected: Option<Department>): (fields: seq<Field>)
    ensures |fields| == 5 + (if image.Some? then 1 else 0) + (if selected.Some? then 2 else 0)
    ensures fields[..5] == FormFields(form)
    ensures forall i :: 0 <= i < |fields| && fields[i].value.File? ==> image.Some? && fields[i] == Field(IMAGE_KEY, File(image.value))
    ensures image.Some? ==> fields[5] == Field(IMAGE_KEY, File(image.value))
    ensures selected.Some? ==>
              && fields[|fields| - 2] == Field(DEPARTMENT_KEY, Text(selected.value.name))
              && fields[|fields| - 1] == Field(CATEGORY_KEY, Text(selected.value.name))
  {
    FormFields(form)
    + (if image.Some? then [Field(IMAGE_KEY, File(image.value))] else [])
    + (if selected.Some? then [Field(DEPARTMENT_KEY, Text(selected.value.name)), Field(CATEGORY_KEY, Text(selected.value.name))] else [])
  }

  /** The first text value under a key, as the server reads a body field; None when there is none. */
  function TextField(fields: seq<Field>, key: string): Option<string> {
    if fields == [] then None
    else if fields[0].key == key && fields[0].value.Text? then Some(fields[0].value.text)
    else TextField(fields[1..], key)
  }

  function CoordinateField(fields: seq<Field>, key: string): Option<real> {
    if fields == [] then None
    else if fields[0].key == key && fields[0].value.Coordinate? then fields[0].value.coordinate
    else CoordinateField(fields[1..], key)
  }

  function TextOrEmpty(v: Option<string>): string {
    if v.Some? then v.value else ""
  }

  /** req.body as the backend's createReport reads it from this FormData. */
  function BodyOf(fields: seq<Field>): ReportController.ReportBody {
    ReportController.ReportBody(
      TextOrEmpty(TextField(fields, TITLE_KEY)), TextOrEmpty(TextField(fields, DESCRIPTION_KEY)),
      TextOrEmpty(TextField(fields, CATEGORY_KEY)), TextOrEmpty(TextField(fields, ADDRESS_KEY)),
      TextOrEmpty(TextField(fields, DEPARTMENT_KEY)),
      CoordinateField(fields, LATITUDE_KEY), CoordinateField(fields, LONGITUDE_KEY))
  }

  /** The value under a key is the one at its first position. */
  lemma {:induction false} TextFieldAt(fields: seq<Field>, key: string, i: nat)
    requires i < |fields| && fields[i].key == key && fields[i].value.Text?
    requires forall j :: 0 <= j < i ==> fields[j].key != key
    ensures TextField(fields, key) == Some(fields[i].value.text)
  {
    if i > 0 {
      TextFieldAt(fields[1..], key, i - 1);
    }
  }

  lemma {:induction false} TextFieldAbsent(fields: seq<Field>, key: string)
    requires forall j :: 0 <= j < |fields| ==> fields[j].key != key
    ensures TextField(fields, key) == None
  {
    if fields != [] {
      TextFieldAbsent(fields[1..], key);
    }
  }

  lemma {:induction false} CoordinateFieldAt(fields: seq<Field>, key: string, i: nat)
    requires i < |fields| && fields[i].key == key && fields[i].value.Coordinate?
    requires forall j :: 0 <= j < i ==> fields[j].key != key
    ensures CoordinateField(fields, key) == fields[i].value.coordinate
  {
    if i > 0 {
      CoordinateFieldAt(fields[1..], key, i - 1);
    }
  }

  /**
   * What the client sends is what the server reads: the title, description,
   * address and coordinates as entered, and as category (and department) the
   * selected department's name, or nothing when none was selected.
   */
  lemma BodyOfEntries(form: Form, image: Option<string>, selected: Option<Department>)
    ensures var body := BodyOf(FormEntries(form, image, selected));
      && body.title == form.title && body.description == form.description && body.address == form.address
      && body.latitude == form.latitude && body.longitude == form.longitude
      && body.category == (if selected.Some? then selected.value.name else "")
      && body.department == (if selected.Some? then selected.value.name else "")
  {
    var fields := FormEntries(form, image, selected);
    assert fields[..5] == FormFields(form);
    assert fields[0].key == TITLE_KEY && fields[1].key == DESCRIPTION_KEY && fields[2].key == ADDRESS_KEY;
    assert fields[3].key == LATITUDE_KEY && fields[4].key == LONGITUDE_KEY;
    TextFieldAt(fields, TITLE_KEY, 0);
    TextFieldAt(fields, DESCRIPTION_KEY, 1);
    TextFieldAt(fields, ADDRESS_KEY, 2);
    CoordinateFieldAt(fields, LATITUDE_KEY, 3);
    CoordinateFieldAt(fields, LONGITUDE_KEY, 4);
    var n := |fields|;
    if selected.Some? {
      forall j | 0 <= j < n - 2 ensures fields[j].key != DEPARTMENT_KEY && fields[j].key != CATEGORY_KEY {
        if j == 5 { assert image.Some?; }
      }
      TextFieldAt(fields, DEPARTMENT_KEY, n - 2);
      TextFieldAt(fields, CATEGORY_KEY, n - 1);
    } else {
      forall j | 0 <= j < n ensures fields[j].key != DEPARTMENT_KEY && fields[j].key != CATEGORY_KEY {
        if j == 5 { assert image.Some?; }
      }
      TextFieldAbsent(fields, DEPARTMENT_KEY);
      TextFieldAbsent(fields, CATEGORY_KEY);
    }
  }

  /**
   * A form that passes validation, sent with a selected department, carries a
   * non-empty title, description and category, so the backend's 400 check
   * passes and the report is routed by the department's name.
   */
  lemma ValidFormPassesServerCheck(form: Form, image: Option<string>, selected: Option<Department>)
    requires |FormErrors(form)| == 0
    requires selected.Some? && selected.value.name != ""
    ensures var body := BodyOf(FormEntries(form, image, selected));
      body.title != "" && body.description != "" && body.category == selected.value.name
  {
    FormValidIff(form);
    BodyOfEntries(form, image, selected);
  }

  /** Without a selected department the body has no category, and the backend answers 400. */
  lemma NoDepartmentNoCategory(form: Form, image: Option<string>)
    ensures BodyOf(FormEntries(form, image, None)).category == ""
  {
    BodyOfEntries(form, image, None);
  }

  class Page {
    var form: Form
    var image: Option<string>
    var selectedDept: Option<Department>
    var currentStep: nat
    var errors: map<string, string>
    var useMap: bool
    var fallback: bool
    var submitting: bool
    var showSuccess: bool
    /** The bodies posted to /api/reports, oldest first. */
    ghost var sent: seq<seq<Field>>

    constructor ()
      ensures form == EMPTY_FORM && image == None && selectedDept == None && currentStep == 1
      ensures errors == map[] && !useMap && !fallback && !submitting && !showSuccess && sent == []
    {
      form := EMPTY_FORM;
      image := None;
      selectedDept := None;
      currentStep := 1;
      errors := map[];
      useMap := false;
      fallback := false;
      submitting := false;
      showSuccess := false;
      sent := [];
    }

    /** A click on a department card. */
    method SelectDepartment(d: Department)
      modifies this
      ensures selectedDept == Some(d) && currentStep == 2
      ensures form == old(form) && image == old(image) && errors == old(errors) && sent == old(sent)
      ensures useMap == old(useMap) && fallback == old(fallback) && submitting == old(submitting) && showSuccess == old(showSuccess)
    {
      selectedDept := Some(d);
      currentStep := 2;
    }

    /**
     * handleSubmit: validate (recording the errors); when invalid, send
     * nothing; otherwise post FormEntries once. `accepted` is whether the
     * server accepted the post; on success the banner shows, and the reset
     * follows in SuccessTimeout.
     */
    method HandleSubmit(accepted: bool) returns (valid: bool)
      modifies this
      ensures errors == FormErrors(old(form))
      ensures valid <==> Trim(old(form).title) != "" && Trim(old(form).description) != "" && Trim(old(form).address) != ""
      ensures !valid ==> sent == old(sent) && showSuccess == old(showSuccess)
      ensures valid ==> sent == old(sent) + [FormEntries(old(form), old(image), old(selectedDept))]
      ensures valid ==> showSuccess == (accepted || old(showSuccess))
      ensures !submitting
      ensures form == old(form) && image == old(image) && selectedDept == old(selectedDept)
      ensures currentStep == old(currentStep) && useMap == old(useMap) && fallback == old(fallback)
    {
      var e;
      e, valid := ValidateForm(form);
      errors := e;
      if !valid {
        submitting := false;
        return;
      }
      submitting := true;
      var entries := FormEntries(form, image, selectedDept);
      sent := sent + [entries];
      if accepted {
        showSuccess := true;
      }
      submitting := false;
    }

    /** The callback 2.5 s after a successful submit: everything back to its initial value. */
    method SuccessTimeout()
      modifies this
      ensures !showSuccess && form == EMPTY_FORM && image == None && selectedDept == None && currentStep == 1
      ensures !useMap && !fallback && errors == map[]
      ensures sent == old(sent) && submitting == old(submitting)
    {
      showSuccess := false;
      form := EMPTY_FORM;
      image := None;
      selectedDept := None;
      currentStep := 1;
      useMap := false;
      fallback := false;
      errors := map[];
    }
  }
}
