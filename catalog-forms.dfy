/**
 * The create/edit modals of the catalogue screens:
 * `src/app/admin/courses/_components/course-form-modal.tsx` (name and code)
 * and `src/app/admin/frameworks/_components/framework-form-modal.tsx` (name
 * only). Each resets its fields from the edited item whenever it is open,
 * refuses to submit while a field is blank, and otherwise hands the fields on
 * exactly as typed, without trimming.
 */
module CatalogForms {
  import opened Wrappers
  import JsString
  import opened AdminCatalog

  /** The title: "Edit Course" when an item is being edited, "Add Course" otherwise. */
  function CourseTitle(initialData: Option<Course>): (r: string)
    ensures r == "Edit Course" <==> initialData.Some?
    ensures r == "Add Course" <==> initialData.None?
  {
    if initialData.Some? then "Edit Course" else "Add Course"
  }

  /** The course modal's form state. */
  class CourseFormModal {
    var name: string
    var code: string

    constructor ()
      ensures name == "" && code == ""
    {
      name := "";
      code := "";
    }

    /** The reset effect: while open, both fields come from the edited course, or "" without one. */
    method SyncOnOpen(isOpen: bool, initialData: Option<Course>)
      modifies this
      ensures isOpen && initialData.Some? ==> name == initialData.value.name && code == initialData.value.code
      ensures isOpen && initialData.None? ==> name == "" && code == ""
      ensures !isOpen ==> name == old(name) && code == old(code)
    {
      if isOpen {
        name := if initialData.Some? then initialData.value.name else "";
        code := if initialData.Some? then initialData.value.code else "";
      }
    }

    /** Typing into the name field. */
    method SetName(value: string)
      modifies this
      ensures name == value && code == old(code)
    {
      name := value;
    }

    /** Typing into the code field. */
    method SetCode(value: string)
      modifies this
      ensures code == value && name == old(name)
    {
      code := value;
    }

    /** The submit button is disabled while submitting or while either field is all white space. */
    function SubmitDisabled(isSubmitting: bool): (r: bool)
      reads this
      ensures r <==> isSubmitting || JsString.IsBlank(name) || JsString.IsBlank(code)
    {
      JsString.TrimEmptyIffBlank(name);
      JsString.TrimEmptyIffBlank(code);
      isSubmitting || JsString.Trim(name) == "" || JsString.Trim(code) == ""
    }

    /**
     * `handleSubmit`: nothing when either field is all white space; otherwise
     * the fields exactly as typed. It submits exactly when the idle button is enabled.
     */
    method HandleSubmit() returns (submitted: Option<CoursePayload>)
      ensures submitted.Some? <==> !JsString.IsBlank(name) && !JsString.IsBlank(code)
      ensures submitted.Some? ==> submitted.value == CoursePayload(name, code)
      ensures submitted.Some? <==> !SubmitDisabled(false)
    {
      JsString.TrimEmptyIffBlank(name);
      JsString.TrimEmptyIffBlank(code);
      if JsString.Trim(name) == "" || JsString.Trim(code) == "" {
        return None;
      }
      submitted := Some(CoursePayload(name, code));
    }
  }

  /** Opening the modal on a course and submitting unchanged sends the course's own name and code, if neither is blank. */
  method ResubmitCourse(c: Course) returns (submitted: Option<CoursePayload>)
    ensures submitted.Some? <==> !JsString.IsBlank(c.name) && !JsString.IsBlank(c.code)
    ensures submitted.Some? ==> submitted.value == CoursePayload(c.name, c.code)
  {
    var form := new CourseFormModal();
    form.SyncOnOpen(true, Some(c));
    submitted := form.HandleSubmit();
  }

  /** The framework modal's form state: the name alone. */
  class FrameworkFormModal {
    var name: string

    constructor ()
      ensures name == ""
    {
      name := "";
    }

    /** The reset effect: while open, the name comes from the edited framework, or "" without one. */
    method SyncOnOpen(isOpen: bool, initialData: Option<Framework>)
      modifies this
      ensures isOpen ==> name == (if initialData.Some? then initialData.value.name else "")
      ensures !isOpen ==> name == old(name)
    {
      if isOpen {
        name := if initialData.Some? then initialData.value.name else "";
      }
    }

    /** Typing into the name field. */
    method SetName(value: string)
      modifies this
      ensures name == value
    {
      name := value;
    }

    /** The submit button is disabled while submitting or while the name is all white space. */
    function SubmitDisabled(isSubmitting: bool): (r: bool)
      reads this
      ensures r <==> isSubmitting || JsString.IsBlank(name)
    {
      JsString.TrimEmptyIffBlank(name);
      isSubmitting || JsString.Trim(name) == ""
    }

    /** `handleSubmit`: nothing when the name is all white space; otherwise the name exactly as typed. */
    method HandleSubmit() returns (submitted: Option<string>)
      ensures submitted.Some? <==> !JsString.IsBlank(name)
      ensures submitted.Some? ==> submitted.value == name
      ensures submitted.Some? <==> !SubmitDisabled(false)
    {
      JsString.TrimEmptyIffBlank(name);
      if JsString.Trim(name) == "" {
        return None;
      }
      submitted := Some(name);
    }
  }

  /** A name typed with surrounding spaces is submitted with them. */
  method FrameworkNameNotTrimmed() returns (submitted: Option<string>)
    ensures submitted == Some(" React ")
  {
    var form := new FrameworkFormModal();
    form.SyncOnOpen(true, None);
    form.SetName(" React ");
    assert !JsString.IsSpace('R');
    submitted := form.HandleSubmit();
  }
}
