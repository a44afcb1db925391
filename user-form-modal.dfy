/**
 * The user edit modal of `src/app/admin/users/_components/user-form-modal.tsx`:
 * an `AdminUpdateUserPayload` that starts empty, is filled from the edited
 * user whenever the modal is open on one, is changed one field at a time, and
 * is submitted as it stands.
 */
module UserFormModal {
  import opened Wrappers
  import opened AdminUsers

  const EmptyForm: UpdatePayload := UpdatePayload(None, None, None, None, None)

  /** The form filled from a user: null names and email become "", role and status are copied. */
  function InitialForm(u: User): (f: UpdatePayload)
    ensures f.firstName == Some(OrEmpty(u.firstName))
    ensures f.lastName == Some(OrEmpty(u.lastName))
    ensures f.email == Some(OrEmpty(u.email))
    ensures f.role == Some(u.role) && f.isActive == Some(u.isActive)
  {
    UpdatePayload(Some(OrEmpty(u.firstName)), Some(OrEmpty(u.lastName)), Some(OrEmpty(u.email)),
                  Some(u.role), Some(u.isActive))
  }

  /** The status checkbox: `is_active ?? false`. */
  predicate Checked(f: UpdatePayload) {
    f.isActive.GetOr(false)
  }

  /** The status label beside the checkbox. */
  function StatusLabel(f: UpdatePayload): (r: string)
    ensures r == "Active" <==> f.isActive == Some(true)
    ensures r == "Suspended" <==> f.isActive != Some(true)
  {
    if f.isActive.Some? && f.isActive.value then "Active" else "Suspended"
  }

  /** An absent status shows as an unchecked box labelled "Suspended", the same as `false`. */
  lemma AbsentStatusShowsSuspended(f: UpdatePayload)
    requires f.isActive.None?
    ensures !Checked(f) && StatusLabel(f) == "Suspended"
    ensures Checked(f) == Checked(f.(isActive := Some(false)))
    ensures StatusLabel(f) == StatusLabel(f.(isActive := Some(false)))
  {
  }

  /** A form filled from a user shows that user's fields, null ones as "", and its status. */
  lemma InitialFormShowsUser(u: User)
    ensures OrEmpty(InitialForm(u).firstName) == OrEmpty(u.firstName)
    ensures OrEmpty(InitialForm(u).lastName) == OrEmpty(u.lastName)
    ensures OrEmpty(InitialForm(u).email) == OrEmpty(u.email)
    ensures Checked(InitialForm(u)) == u.isActive
    ensures StatusLabel(InitialForm(u)) == (if u.isActive then "Active" else "Suspended")
  {
  }

  /** The modal's form state. */
  class UserForm {
    var formData: UpdatePayload

    constructor ()
      ensures formData == EmptyForm
    {
      formData := EmptyForm;
    }

    /** The initialisation effect: only when open on a user is the form filled from it. */
    method SyncOnOpen(isOpen: bool, initialData: Option<User>)
      modifies this
      ensures isOpen && initialData.Some? ==> formData == InitialForm(initialData.value)
      ensures !(isOpen && initialData.Some?) ==> formData == old(formData)
    {
      if isOpen && initialData.Some? {
        formData := InitialForm(initialData.value);
      }
    }

    /** Typing a first name: only that field changes. */
    method SetFirstName(value: string)
      modifies this
      ensures formData == old(formData).(firstName := Some(value))
    {
      formData := formData.(firstName := Some(value));
    }

    /** Typing a last name: only that field changes. */
    method SetLastName(value: string)
      modifies this
      ensures formData == old(formData).(lastName := Some(value))
    {
      formData := formData.(lastName := Some(value));
    }

    /** Typing an email: only that field changes. */
    method SetEmail(value: string)
      modifies this
      ensures formData == old(formData).(email := Some(value))
    {
      formData := formData.(email := Some(value));
    }

    /** Choosing a role: only that field changes. */
    method SetRole(value: Role)
      modifies this
      ensures formData == old(formData).(role := Some(value))
    {
      formData := formData.(role := Some(value));
    }

    /** Ticking the status box: only that field changes. */
    method SetIsActive(value: bool)
      modifies this
      ensures formData == old(formData).(isActive := Some(value))
    {
      formData := formData.(isActive := Some(value));
    }

    /** `handleSubmit`: the form as it stands, without checks. */
    method HandleSubmit() returns (submitted: UpdatePayload)
      ensures submitted == formData
    {
      submitted := formData;
    }
  }

  /**
   * Opening the modal on a user and changing only the role submits the user's
   * own fields with the new role: an edit leaves the other fields as loaded.
   */
  method ChangeRoleOnly(u: User, role: Role) returns (submitted: UpdatePayload)
    ensures submitted.role == Some(role)
    ensures submitted.firstName == Some(OrEmpty(u.firstName)) && submitted.lastName == Some(OrEmpty(u.lastName))
    ensures submitted.email == Some(OrEmpty(u.email)) && submitted.isActive == Some(u.isActive)
  {
    var form := new UserForm();
    form.SyncOnOpen(true, Some(u));
    form.SetRole(role);
    submitted := form.HandleSubmit();
  }

  /** Without a user to load, the form submits whatever it held: initially nothing at all. */
  method SubmitWithoutUser() returns (submitted: UpdatePayload)
    ensures submitted == EmptyForm
  {
    var form := new UserForm();
    form.SyncOnOpen(true, None);
    submitted := form.HandleSubmit();
  }
}
