/**
 * The user administration screen of `src/app/admin/users/page.tsx`: the
 * searchable user table, the GitHub-link badge, and the handlers that open
 * the edit modal and fire update, delete and unlink requests. The requests
 * themselves go over the network and are recorded here as a log; a browser
 * `confirm` answer is a parameter.
 */
module AdminUsers {
  import opened Wrappers
  import opened AdminSearch
  import opened Lists

  /** `UserRole`. */
  datatype Role = Student | Teacher | Admin

  /** `User`: nullable fields are `Option`s. */
  datatype User = User(
    id: string, apuId: string, firstName: Option<string>, lastName: Option<string>, email: Option<string>,
    role: Role, isActive: bool, githubAccessToken: Option<string>, githubUsername: Option<string>)

  /** `AdminUpdateUserPayload`: every field optional. */
  datatype UpdatePayload = UpdatePayload(
    firstName: Option<string>, lastName: Option<string>, email: Option<string>,
    role: Option<Role>, isActive: Option<bool>)

  /** `s || ""` on a nullable string. */
  function OrEmpty(s: Option<string>): (r: string)
    ensures s.Some? ==> r == s.value
    ensures s.None? ==> r == ""
  {
    s.GetOr("")
  }

  /** The row test of `filteredUsers`: APU id, first name, email or GitHub user name. */
  predicate MatchesSearch(u: User, search: string)
    ensures search == "" ==> MatchesSearch(u, search)
  {
    EmptySearchMatches(u.apuId);
    MatchesText(u.apuId, search) || MatchesText(OrEmpty(u.firstName), search)
    || MatchesText(OrEmpty(u.email), search) || MatchesText(OrEmpty(u.githubUsername), search)
  }

  /** `filteredUsers`. */
  function FilterUsers(users: seq<User>, search: string): (r: seq<User>)
    ensures IsSubsequence(r, users)
    ensures forall u :: multiset(r)[u] == if MatchesSearch(u, search) then multiset(users)[u] else 0
  {
    Filter(users, u => MatchesSearch(u, search))
  }

  /**
   * The table keeps, in the original order, exactly the users one of whose
   * four searched fields contains the search text case-insensitively, a
   * null field counting as "".
   */
  lemma FilterUsersSpec(users: seq<User>, search: string)
    ensures forall u :: u in FilterUsers(users, search) <==>
              u in users
              && (MatchesText(u.apuId, search) || MatchesText(OrEmpty(u.firstName), search)
                  || MatchesText(OrEmpty(u.email), search) || MatchesText(OrEmpty(u.githubUsername), search))
  {
  }

  /** An empty search shows every user. */
  lemma EmptySearchKeepsUsers(users: seq<User>)
    ensures FilterUsers(users, "") == users
  {
    forall u | u in users ensures MatchesSearch(u, "") {
      EmptySearchMatches(u.apuId);
    }
    FilterKeepsAll(users, u => MatchesSearch(u, ""));
  }

  /** The last name is not searched: changing it never changes whether a user is shown. */
  lemma LastNameNotSearched(users: seq<User>, search: string, u: User, lastName: Option<string>)
    requires u in users && u.(lastName := lastName) in users
    ensures u in FilterUsers(users, search) <==> u.(lastName := lastName) in FilterUsers(users, search)
  {
  }

  /** `!!user.github_access_token`. */
  predicate IsGithubLinked(u: User)
    ensures IsGithubLinked(u) <==> OrEmpty(u.githubAccessToken) != ""
  {
    u.githubAccessToken.Some? && u.githubAccessToken.value != ""
  }

  /** The badge does not depend on the stored GitHub user name, only on the token. */
  lemma LinkIgnoresUsername(u: User, username: Option<string>)
    ensures IsGithubLinked(u.(githubUsername := username)) == IsGithubLinked(u)
  {
  }

  /** The requests the page sends. */
  datatype Request = UpdateUser(id: string, data: UpdatePayload) | DeleteUser(id: string) | UnlinkGithub(id: string)

  /** The page's state and the requests it has fired. */
  class UsersPage {
    var isModalOpen: bool
    var editingUser: Option<User>
    var search: string
    var requests: seq<Request>

    /**
     * The page opens its modal only through `openEditModal`, so whenever the
     * form is on screen a user is being edited.
     */
    predicate EditingWhenOpen()
      reads this
    {
      isModalOpen ==> editingUser.Some?
    }

    constructor ()
      ensures !isModalOpen && editingUser == None && search == "" && requests == []
      ensures EditingWhenOpen()
    {
      isModalOpen := false;
      editingUser := None;
      search := "";
      requests := [];
    }

    /** Typing into the search box. */
    method SetSearch(value: string)
      modifies this
      ensures search == value
      ensures isModalOpen == old(isModalOpen) && editingUser == old(editingUser) && requests == old(requests)
    {
      search := value;
    }

    /** `openEditModal`: the user becomes the one being edited and the modal opens. */
    method OpenEditModal(u: User)
      modifies this
      ensures editingUser == Some(u) && isModalOpen
      ensures search == old(search) && requests == old(requests)
      ensures EditingWhenOpen()
    {
      editingUser := Some(u);
      isModalOpen := true;
    }

    /** The modal's close button: the modal closes, the edited user is kept. */
    method CloseModal()
      modifies this
      ensures !isModalOpen
      ensures editingUser == old(editingUser) && search == old(search) && requests == old(requests)
      ensures EditingWhenOpen()
    {
      isModalOpen := false;
    }

    /**
     * `handleUpdate`: nothing without an edited user; otherwise an update of
     * that user's id. It is the form's submit handler, and the form exists
     * only while the modal is open.
     */
    method HandleUpdate(data: UpdatePayload)
      requires isModalOpen
      modifies this
      ensures old(editingUser).None? ==> requests == old(requests)
      ensures old(editingUser).Some? ==> requests == old(requests) + [UpdateUser(old(editingUser).value.id, data)]
      ensures isModalOpen == old(isModalOpen) && editingUser == old(editingUser) && search == old(search)
      ensures old(EditingWhenOpen()) ==> |requests| == |old(requests)| + 1
    {
      if editingUser.None? {
        return;
      }
      requests := requests + [UpdateUser(editingUser.value.id, data)];
    }

    /** The update's success: the modal closes and no user is being edited. */
    method UpdateSucceeded()
      modifies this
      ensures !isModalOpen && editingUser == None
      ensures search == old(search) && requests == old(requests)
      ensures EditingWhenOpen()
    {
      isModalOpen := false;
      editingUser := None;
    }

    /** `handleDelete`: a delete of the id only when the user confirms. */
    method HandleDelete(id: string, confirmed: bool)
      modifies this
      ensures requests == old(requests) + (if confirmed then [DeleteUser(id)] else [])
      ensures isModalOpen == old(isModalOpen) && editingUser == old(editingUser) && search == old(search)
    {
      if confirmed {
        requests := requests + [DeleteUser(id)];
      }
    }

    /** `handleUnlinkGithub`: an unlink of the user's id only when the user confirms. */
    method HandleUnlinkGithub(u: User, confirmed: bool)
      modifies this
      ensures requests == old(requests) + (if confirmed then [UnlinkGithub(u.id)] else [])
      ensures isModalOpen == old(isModalOpen) && editingUser == old(editingUser) && search == old(search)
    {
      if confirmed {
        requests := requests + [UnlinkGithub(u.id)];
      }
    }
  }

  /** Every update the page sends targets the user whose edit modal was opened last. */
  method EditThenUpdate(u: User, data: UpdatePayload) returns (sent: seq<Request>)
    ensures sent == [UpdateUser(u.id, data)]
  {
    var page := new UsersPage();
    page.OpenEditModal(u);
    page.HandleUpdate(data);
    sent := page.requests;
  }

  /**
   * After a successful update the next submit comes from a modal opened
   * anew, so it updates the newly chosen user, never the one before.
   */
  method UpdateThenEditAnother(u: User, v: User, first: UpdatePayload, second: UpdatePayload)
    returns (sent: seq<Request>)
    ensures sent == [UpdateUser(u.id, first), UpdateUser(v.id, second)]
  {
    var page := new UsersPage();
    page.OpenEditModal(u);
    page.HandleUpdate(first);
    page.UpdateSucceeded();
    page.OpenEditModal(v);
    page.HandleUpdate(second);
    sent := page.requests;
  }
}
