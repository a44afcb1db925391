/**
 * The skills editor of `src/app/repo/_components/skills-modal.tsx`: a list of
 * editable skill entries, capped at fifteen, reset to one empty entry whenever
 * the modal opens. Fresh entry ids come from `crypto.randomUUID()` and are
 * parameters here.
 */
module SkillsModal {
  import JsString
  import Lists

  /** One entry: `{ id, value }`. */
  datatype SkillItem = SkillItem(id: string, value: string)

  const MaxSkills: nat := 15
  const CapMessage: string := "You can only add up to 15 skills"

  /** `prev.map((item) => (item.id === id ? { ...item, value: newValue } : item))`. */
  function UpdateValue(skills: seq<SkillItem>, id: string, newValue: string): (r: seq<SkillItem>)
    ensures |r| == |skills|
    ensures forall i :: 0 <= i < |skills| ==> r[i].id == skills[i].id
    ensures forall i :: 0 <= i < |skills| && skills[i].id != id ==> r[i] == skills[i]
    ensures forall i :: 0 <= i < |skills| && skills[i].id == id ==> r[i].value == newValue
  {
    seq(|skills|, i requires 0 <= i < |skills| =>
      if skills[i].id == id then skills[i].(value := newValue) else skills[i])
  }

  /** `prev.filter((item) => item.id !== id)`: every entry with the id goes, the others stay in order. */
  function RemoveId(skills: seq<SkillItem>, id: string): (r: seq<SkillItem>)
    ensures forall x :: x in r <==> x in skills && x.id != id
    ensures forall x :: multiset(r)[x] == if x.id != id then multiset(skills)[x] else 0
    ensures Lists.IsSubsequence(r, skills)
  {
    Lists.Filter(skills, (x: SkillItem) => x.id != id)
  }

  /** Updating an entry and then removing it is removing it: the update touches nothing else. */
  lemma {:induction false} RemoveAfterUpdate(skills: seq<SkillItem>, id: string, newValue: string)
    ensures RemoveId(UpdateValue(skills, id, newValue), id) == RemoveId(skills, id)
  {
    if skills != [] {
      var u := UpdateValue(skills, id, newValue);
      assert u[1..] == UpdateValue(skills[1..], id, newValue);
      RemoveAfterUpdate(skills[1..], id, newValue);
    }
  }

  /** `skills.map((s) => s.value)`. */
  function Values(skills: seq<SkillItem>): (r: seq<string>)
    ensures |r| == |skills|
    ensures forall i :: 0 <= i < |skills| ==> r[i] == skills[i].value
  {
    seq(|skills|, i requires 0 <= i < |skills| => skills[i].value)
  }

  /** The cleaned save list: the values, then `.filter((s) => s.trim() !== "")`, repeats and order kept. */
  function CleanSkills(skills: seq<SkillItem>): (r: seq<string>)
    ensures forall v :: v in r <==> v in Values(skills) && NotBlank(v)
    ensures forall v :: multiset(r)[v] == if NotBlank(v) then multiset(Values(skills))[v] else 0
    ensures Lists.IsSubsequence(r, Values(skills))
  {
    Lists.Filter(Values(skills), NotBlank)
  }

  /** `s.trim() !== ""`. */
  predicate NotBlank(v: string) {
    JsString.Trim(v) != ""
  }

  /** A value is dropped exactly when it is all white space. */
  lemma CleanDropsBlank(skills: seq<SkillItem>, v: string)
    ensures v in CleanSkills(skills) <==> v in Values(skills) && !JsString.IsBlank(v)
  {
    JsString.TrimEmptyIffBlank(v);
  }

  /** The editor: the entries, whether the modal is open, and the error toasts shown. */
  class SkillsEditor {
    var skills: seq<SkillItem>
    var isOpen: bool
    var toasts: seq<string>

    constructor (skills: seq<SkillItem>)
      ensures this.skills == skills && !isOpen && toasts == []
    {
      this.skills := skills;
      isOpen := false;
      toasts := [];
    }

    /** Opening or closing the modal from outside. */
    method SetOpen(open: bool)
      modifies this
      ensures isOpen == open && skills == old(skills) && toasts == old(toasts)
    {
      isOpen := open;
    }

    /** The effect on `isSkillsModalOpen`: when open, the list becomes one empty entry. */
    method ResetOnOpen(freshId: string)
      modifies this
      ensures isOpen ==> skills == [SkillItem(freshId, "")]
      ensures !isOpen ==> skills == old(skills)
      ensures isOpen == old(isOpen) && toasts == old(toasts)
    {
      if isOpen {
        skills := [SkillItem(freshId, "")];
      }
    }

    /** `addSkill`: at fifteen or more entries a toast and no change; otherwise one empty entry appended. */
    method AddSkill(freshId: string)
      modifies this
      ensures |old(skills)| >= MaxSkills ==> skills == old(skills) && toasts == old(toasts) + [CapMessage]
      ensures |old(skills)| < MaxSkills ==> skills == old(skills) + [SkillItem(freshId, "")] && toasts == old(toasts)
      ensures |old(skills)| <= MaxSkills ==> |skills| <= MaxSkills
      ensures isOpen == old(isOpen)
    {
      if |skills| >= MaxSkills {
        toasts := toasts + [CapMessage];
        return;
      }
      skills := skills + [SkillItem(freshId, "")];
    }

    /** `updateSkill`. */
    method UpdateSkill(id: string, newValue: string)
      modifies this
      ensures skills == UpdateValue(old(skills), id, newValue)
      ensures isOpen == old(isOpen) && toasts == old(toasts)
    {
      skills := UpdateValue(skills, id, newValue);
    }

    /** `removeSkill`. */
    method RemoveSkill(id: string)
      modifies this
      ensures skills == RemoveId(old(skills), id)
      ensures isOpen == old(isOpen) && toasts == old(toasts)
    {
      skills := RemoveId(skills, id);
    }

    /** `handleSave`: the cleaned values, and the modal closes. */
    method HandleSave() returns (clean: seq<string>)
      modifies this
      ensures clean == CleanSkills(old(skills))
      ensures !isOpen && skills == old(skills) && toasts == old(toasts)
    {
      clean := CleanSkills(skills);
      isOpen := false;
    }
  }
}
