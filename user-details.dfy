/**
 * The profile details panel of `src/app/profile/_components/my-user-details.tsx`:
 * whether the stored profile is complete, the list of fields still missing when
 * the user asks to save, the displayed full name and the avatar initial.
 */
module UserDetails {
  import opened Wrappers
  import JsString

  /** A university course as the profile holds it. */
  datatype Course = Course(id: string, name: string, code: string)

  /** The stored profile fields the panel reads; null fields are `None`. */
  datatype Details = Details(
    firstName: Option<string>, lastName: Option<string>, email: Option<string>, apuId: Option<string>,
    universityCourse: Option<Course>, courseYear: Option<string>)

  /** What the user has entered: the three inputs (null when not rendered), the chosen course and year. */
  datatype Inputs = Inputs(
    firstName: Option<string>, lastName: Option<string>, email: Option<string>,
    selectedCourse: Option<Course>, selectedYear: Option<string>)

  /** A JavaScript-truthy optional string: present and non-empty. */
  predicate Truthy(s: Option<string>) {
    s.Some? && s.value != ""
  }

  /** The labels of the checked fields, in the order they are checked. */
  const FieldLabels: seq<string> := ["First Name", "Last Name", "Email", "Course Name", "Year of Study"]

  const ErrorPrefix: string := "Please provide the following information:\n"

  /** Every one of the five fields is truthy in the stored profile. */
  predicate Complete(d: Details) {
    Truthy(d.firstName) && Truthy(d.lastName) && Truthy(d.email) && d.universityCourse.Some? && Truthy(d.courseYear)
  }

  /** For each field, whether it is missing both from the stored profile and from the inputs. */
  function MissingFlags(d: Details, inputs: Inputs): (flags: seq<bool>)
    ensures |flags| == |FieldLabels|
  {
    [ !Truthy(d.firstName) && !Truthy(inputs.firstName),
      !Truthy(d.lastName) && !Truthy(inputs.lastName),
      !Truthy(d.email) && !Truthy(inputs.email),
      d.universityCourse.None? && inputs.selectedCourse.None?,
      !Truthy(d.courseYear) && inputs.selectedYear.None? ]
  }

  /** The items whose flag is set, in order. */
  function Select<T>(items: seq<T>, flags: seq<bool>): (r: seq<T>)
    requires |items| == |flags|
    ensures |r| <= |items|
  {
    if items == [] then [] else (if flags[0] then [items[0]] else []) + Select(items[1..], flags[1..])
  }

  /** The item at `i` if its flag is set. */
  function Pick<T>(items: seq<T>, flags: seq<bool>, i: int): seq<T>
    requires |items| == |flags| && 0 <= i < |items|
  {
    if flags[i] then [items[i]] else []
  }

  /** One step of `Select` from index `i`. */
  lemma SelectStep<T>(items: seq<T>, flags: seq<bool>, i: int)
    requires |items| == |flags| && 0 <= i < |items|
    ensures Select(items[i..], flags[i..]) == Pick(items, flags, i) + Select(items[i + 1..], flags[i + 1..])
  {
    assert items[i..][1..] == items[i + 1..] && flags[i..][1..] == flags[i + 1..];
  }

  /** `Select` over five items, unrolled. */
  lemma SelectFive<T>(items: seq<T>, flags: seq<bool>)
    requires |items| == |flags| == 5
    ensures Select(items, flags)
              == Pick(items, flags, 0) + Pick(items, flags, 1) + Pick(items, flags, 2) + Pick(items, flags, 3) + Pick(items, flags, 4)
  {
    assert Select(items[5..], flags[5..]) == [];
    SelectStep(items, flags, 4);
    SelectStep(items, flags, 3);
    SelectStep(items, flags, 2);
    SelectStep(items, flags, 1);
    SelectStep(items, flags, 0);
    assert items[0..] == items && flags[0..] == flags;
  }

  /** A field is reported missing exactly when neither the stored profile nor the inputs supply it. */
  lemma MissingFieldsSpec(d: Details, inputs: Inputs)
    ensures var errors := Select(FieldLabels, MissingFlags(d, inputs));
            && ("First Name" in errors <==> !Truthy(d.firstName) && !Truthy(inputs.firstName))
            && ("Last Name" in errors <==> !Truthy(d.lastName) && !Truthy(inputs.lastName))
            && ("Email" in errors <==> !Truthy(d.email) && !Truthy(inputs.email))
            && ("Course Name" in errors <==> d.universityCourse.None? && inputs.selectedCourse.None?)
            && ("Year of Study" in errors <==> !Truthy(d.courseYear) && inputs.selectedYear.None?)
  {
    SelectFive(FieldLabels, MissingFlags(d, inputs));
  }

  /** A complete stored profile reports nothing missing whatever the inputs; an incomplete one with no inputs reports something. */
  lemma CompleteMeansNothingMissing(d: Details, inputs: Inputs)
    ensures Complete(d) ==> Select(FieldLabels, MissingFlags(d, inputs)) == []
    ensures !Complete(d) && inputs == Inputs(None, None, None, None, None) ==>
              Select(FieldLabels, MissingFlags(d, inputs)) != []
  {
    SelectFive(FieldLabels, MissingFlags(d, inputs));
  }

  /** `[first_name, last_name].filter(Boolean).join(" ") || "Unknown"`. */
  function FullName(d: Details): (r: string)
    ensures r != ""
    ensures Truthy(d.firstName) && Truthy(d.lastName) ==> r == d.firstName.value + " " + d.lastName.value
    ensures Truthy(d.firstName) && !Truthy(d.lastName) ==> r == d.firstName.value
    ensures !Truthy(d.firstName) && Truthy(d.lastName) ==> r == d.lastName.value
    ensures !Truthy(d.firstName) && !Truthy(d.lastName) ==> r == "Unknown"
  {
    var parts := (if Truthy(d.firstName) then [d.firstName.value] else [])
               + (if Truthy(d.lastName) then [d.lastName.value] else []);
    var joined := if parts == [] then "" else if |parts| == 1 then parts[0] else parts[0] + " " + parts[1];
    if joined == "" then "Unknown" else joined
  }

  /** `first_name?.[0] || apu_id?.[0] || "?"`: one character, from the first name, else the APU id, else "?". */
  function AvatarInitial(d: Details): (r: string)
    ensures |r| == 1
    ensures Truthy(d.firstName) ==> r[0] == d.firstName.value[0]
    ensures !Truthy(d.firstName) && Truthy(d.apuId) ==> r[0] == d.apuId.value[0]
    ensures !Truthy(d.firstName) && !Truthy(d.apuId) ==> r == "?"
  {
    if Truthy(d.firstName) then d.firstName.value[..1]
    else if Truthy(d.apuId) then d.apuId.value[..1]
    else "?"
  }

  /** The panel's state: the completeness flag, the confirmation modal, and the error toasts shown. */
  class DetailsPanel {
    var detailsCompleted: bool
    var isModalOpen: bool
    var toasts: seq<string>

    constructor ()
      ensures detailsCompleted && !isModalOpen && toasts == []
    {
      detailsCompleted := true;
      isModalOpen := false;
      toasts := [];
    }

    /** The completeness effect: nothing while the profile is loading, otherwise the flag follows `Complete`. */
    method SyncCompleted(details: Option<Details>)
      modifies this
      ensures details.None? ==> detailsCompleted == old(detailsCompleted)
      ensures details.Some? ==> (detailsCompleted <==> Complete(details.value))
      ensures isModalOpen == old(isModalOpen) && toasts == old(toasts)
    {
      if details.None? {
        return;
      }
      var d := details.value;
      if !Truthy(d.firstName) || !Truthy(d.lastName) || !Truthy(d.email) || d.universityCourse.None? || !Truthy(d.courseYear) {
        detailsCompleted := false;
      } else {
        detailsCompleted := true;
      }
    }

    /**
     * `handleOpenModal`: the missing fields are collected in order; if any,
     * one toast lists them and the modal stays as it was, otherwise the modal opens.
     */
    method HandleOpenModal(d: Details, inputs: Inputs) returns (errorList: seq<string>)
      modifies this
      ensures errorList == Select(FieldLabels, MissingFlags(d, inputs))
      ensures errorList != [] ==> toasts == old(toasts) + [ErrorPrefix + JsString.Join(errorList, ", ")] && isModalOpen == old(isModalOpen)
      ensures errorList == [] ==> toasts == old(toasts) && isModalOpen
      ensures detailsCompleted == old(detailsCompleted)
    {
      ghost var flags := MissingFlags(d, inputs);
      SelectFive(FieldLabels, flags);
      errorList := [];
      if !Truthy(d.firstName) && !Truthy(inputs.firstName) {
        errorList := errorList + ["First Name"];
      }
      assert errorList == Pick(FieldLabels, flags, 0);
      if !Truthy(d.lastName) && !Truthy(inputs.lastName) {
        errorList := errorList + ["Last Name"];
      }
      assert errorList == Pick(FieldLabels, flags, 0) + Pick(FieldLabels, flags, 1);
      if !Truthy(d.email) && !Truthy(inputs.email) {
        errorList := errorList + ["Email"];
      }
      assert errorList == Pick(FieldLabels, flags, 0) + Pick(FieldLabels, flags, 1) + Pick(FieldLabels, flags, 2);
      if d.universityCourse.None? && inputs.selectedCourse.None? {
        errorList := errorList + ["Course Name"];
      }
      assert errorList == Pick(FieldLabels, flags, 0) + Pick(FieldLabels, flags, 1) + Pick(FieldLabels, flags, 2)
                          + Pick(FieldLabels, flags, 3);
      if !Truthy(d.courseYear) && inputs.selectedYear.None? {
        errorList := errorList + ["Year of Study"];
      }
      if |errorList| > 0 {
        toasts := toasts + [ErrorPrefix + JsString.Join(errorList, ", ")];
        return;
      }
      isModalOpen := true;
    }
  }
}
