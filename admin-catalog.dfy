/**
 * The three catalogue screens of the admin area: university courses
 * (`src/app/admin/courses/page.tsx`), programming languages
 * (`src/app/admin/programming-languages/page.tsx`) and frameworks
 * (`src/app/admin/frameworks/page.tsx`). They share one shape: a searchable
 * table, one modal used both to create and to edit, and a delete behind a
 * browser `confirm`. That shape is one generic page class here, instantiated
 * with each screen's item and payload types. Requests go over the network
 * and are recorded as a log.
 */
module AdminCatalog {
  import opened Wrappers
  import opened AdminSearch
  import opened Lists

  /** `UniversityCourse` and its payload. */
  datatype Course = Course(id: string, name: string, code: string)
  datatype CoursePayload = CoursePayload(name: string, code: string)

  /** `ProgrammingLanguage`. */
  datatype Language = Language(id: string, name: string, addedBy: Option<string>)

  /** A framework. */
  datatype Framework = Framework(id: string, name: string)

  /** `filteredCourses`: name or code. */
  function FilterCourses(courses: seq<Course>, search: string): (r: seq<Course>)
    ensures IsSubsequence(r, courses)
    ensures forall c :: multiset(r)[c] == if MatchesText(c.name, search) || MatchesText(c.code, search) then multiset(courses)[c] else 0
  {
    Filter(courses, (c: Course) => MatchesText(c.name, search) || MatchesText(c.code, search))
  }

  /** The course table keeps, in order, exactly the courses whose name or code contains the search. */
  lemma FilterCoursesSpec(courses: seq<Course>, search: string)
    ensures forall c :: c in FilterCourses(courses, search) <==>
              c in courses && (MatchesText(c.name, search) || MatchesText(c.code, search))
    ensures search == "" ==> FilterCourses(courses, search) == courses
  {
    if search == "" {
      forall c | c in courses ensures MatchesText(c.name, search) {
        EmptySearchMatches(c.name);
      }
      FilterKeepsAll(courses, (c: Course) => MatchesText(c.name, search) || MatchesText(c.code, search));
    }
  }

  /** `filteredLanguages`: name only. */
  function FilterLanguages(languages: seq<Language>, search: string): (r: seq<Language>)
    ensures IsSubsequence(r, languages)
    ensures forall l :: multiset(r)[l] == if MatchesText(l.name, search) then multiset(languages)[l] else 0
  {
    Filter(languages, (l: Language) => MatchesText(l.name, search))
  }

  /** The language table keeps, in order, exactly the languages whose name contains the search. */
  lemma FilterLanguagesSpec(languages: seq<Language>, search: string)
    ensures forall l :: l in FilterLanguages(languages, search) <==> l in languages && MatchesText(l.name, search)
    ensures search == "" ==> FilterLanguages(languages, search) == languages
  {
    if search == "" {
      forall l | l in languages ensures MatchesText(l.name, search) {
        EmptySearchMatches(l.name);
      }
      FilterKeepsAll(languages, (l: Language) => MatchesText(l.name, search));
    }
  }

  /** `filteredFrameworks`: name only. */
  function FilterFrameworks(frameworks: seq<Framework>, search: string): (r: seq<Framework>)
    ensures IsSubsequence(r, frameworks)
    ensures forall f :: multiset(r)[f] == if MatchesText(f.name, search) then multiset(frameworks)[f] else 0
  {
    Filter(frameworks, (f: Framework) => MatchesText(f.name, search))
  }

  /** The framework table keeps, in order, exactly the frameworks whose name contains the search. */
  lemma FilterFrameworksSpec(frameworks: seq<Framework>, search: string)
    ensures forall f :: f in FilterFrameworks(frameworks, search) <==> f in frameworks && MatchesText(f.name, search)
    ensures search == "" ==> FilterFrameworks(frameworks, search) == frameworks
  {
    if search == "" {
      forall f | f in frameworks ensures MatchesText(f.name, search) {
        EmptySearchMatches(f.name);
      }
      FilterKeepsAll(frameworks, (f: Framework) => MatchesText(f.name, search));
    }
  }

  /** The requests a catalogue page sends, with the screen's payload type. */
  datatype Request<P> = Create(data: P) | Update(id: string, data: P) | Delete(id: string)

  /**
   * One catalogue page: `T` is the item type, `P` what the form modal
   * submits (a `CoursePayload`, or the name alone for languages and
   * frameworks), `idOf` reads an item's id.
   */
  class CatalogPage<T, P> {
    const idOf: T -> string
    var isModalOpen: bool
    var editingItem: Option<T>
    var search: string
    var requests: seq<Request<P>>

    constructor (idOf: T -> string)
      ensures this.idOf == idOf
      ensures !isModalOpen && editingItem == None && search == "" && requests == []
    {
      this.idOf := idOf;
      isModalOpen := false;
      editingItem := None;
      search := "";
      requests := [];
    }

    /** Typing into the search box. */
    method SetSearch(value: string)
      modifies this
      ensures search == value
      ensures isModalOpen == old(isModalOpen) && editingItem == old(editingItem) && requests == old(requests)
    {
      search := value;
    }

    /** `openCreateModal`: nothing is being edited and the modal opens. */
    method OpenCreateModal()
      modifies this
      ensures editingItem == None && isModalOpen
      ensures search == old(search) && requests == old(requests)
    {
      editingItem := None;
      isModalOpen := true;
    }

    /** `openEditModal`: the item becomes the one being edited and the modal opens. */
    method OpenEditModal(item: T)
      modifies this
      ensures editingItem == Some(item) && isModalOpen
      ensures search == old(search) && requests == old(requests)
    {
      editingItem := Some(item);
      isModalOpen := true;
    }

    /** The modal's close button: the modal closes, the edited item is kept. */
    method CloseModal()
      modifies this
      ensures !isModalOpen
      ensures editingItem == old(editingItem) && search == old(search) && requests == old(requests)
    {
      isModalOpen := false;
    }

    /**
     * `handleSubmit`: an update of the edited item's id when there is one, a
     * create otherwise. It is the form's submit handler, and the form exists
     * only while the modal is open.
     */
    method HandleSubmit(data: P)
      requires isModalOpen
      modifies this
      ensures old(editingItem).Some? ==> requests == old(requests) + [Update(idOf(old(editingItem).value), data)]
      ensures old(editingItem).None? ==> requests == old(requests) + [Create(data)]
      ensures isModalOpen == old(isModalOpen) && editingItem == old(editingItem) && search == old(search)
    {
      if editingItem.Some? {
        requests := requests + [Update(idOf(editingItem.value), data)];
      } else {
        requests := requests + [Create(data)];
      }
    }

    /** The create's success: the modal closes; the edited item is left as it was. */
    method CreateSucceeded()
      modifies this
      ensures !isModalOpen
      ensures editingItem == old(editingItem) && search == old(search) && requests == old(requests)
    {
      isModalOpen := false;
    }

    /** The update's success: the modal closes and nothing is being edited. */
    method UpdateSucceeded()
      modifies this
      ensures !isModalOpen && editingItem == None
      ensures search == old(search) && requests == old(requests)
    {
      isModalOpen := false;
      editingItem := None;
    }

    /** `handleDelete`: a delete of the id only when the user confirms. */
    method HandleDelete(id: string, confirmed: bool)
      modifies this
      ensures requests == old(requests) + (if confirmed then [Delete(id)] else [])
      ensures isModalOpen == old(isModalOpen) && editingItem == old(editingItem) && search == old(search)
    {
      if confirmed {
        requests := requests + [Delete(id)];
      }
    }
  }

  /** Submitting from the edit modal of a course updates that course, with the form's payload as given. */
  method EditCourseThenSubmit(c: Course, data: CoursePayload) returns (sent: seq<Request<CoursePayload>>)
    ensures sent == [Update(c.id, data)]
  {
    var page := new CatalogPage<Course, CoursePayload>((x: Course) => x.id);
    page.OpenEditModal(c);
    page.HandleSubmit(data);
    sent := page.requests;
  }

  /**
   * The item a closed modal was editing is never submitted again: the form
   * is on screen only while the modal is open, and both ways of opening it,
   * "add" and the edit button, replace the edited item first.
   */
  method ReopenReplacesStaleItem(f: Framework, next: Option<Framework>, name: string)
    returns (sent: seq<Request<string>>)
    ensures next.None? ==> sent == [Create(name)]
    ensures next.Some? ==> sent == [Update(next.value.id, name)]
  {
    var page := new CatalogPage<Framework, string>((x: Framework) => x.id);
    page.OpenEditModal(f);
    page.CloseModal();
    if next.Some? {
      page.OpenEditModal(next.value);
    } else {
      page.OpenCreateModal();
    }
    page.HandleSubmit(name);
    sent := page.requests;
  }
}
