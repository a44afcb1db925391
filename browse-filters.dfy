/**
 * The browse filter panel of `src/app/browse/_components/filters.tsx`: local
 * state for the APU id, GitHub user name and skill list, written into the
 * query string on apply and removed from it on clear, leaving every other
 * parameter (such as `search`) as it was. The route pushed is the resulting
 * parameter list; its serialisation is outside the model.
 */
module BrowseFilters {
  import opened Wrappers
  import JsString
  import Lists
  import opened SearchParams

  const ApuIdKey: string := "apu_id"
  const GithubKey: string := "github_username"
  const SkillsKey: string := "skills"
  const FilterKeys: set<string> := {ApuIdKey, GithubKey, SkillsKey}
  const EnterKey: string := "Enter"

  /** `skills.filter((s) => s !== skill)`: every copy of `skill` goes, the rest stay in order. */
  function RemoveAll(skills: seq<string>, skill: string): (r: seq<string>)
    ensures forall s :: s in r <==> s in skills && s != skill
    ensures forall s :: multiset(r)[s] == if s != skill then multiset(skills)[s] else 0
    ensures Lists.IsSubsequence(r, skills)
  {
    Lists.Filter(skills, (s: string) => s != skill)
  }

  /** A single-valued filter written into the list: set when non-empty, deleted otherwise. */
  function SetOrDelete(list: seq<Param>, name: string, value: string): seq<Param>
  {
    if value != "" then SetEntry(list, name, value) else DeleteEntries(list, name)
  }

  /** The query after the two single-valued filters are written and `skills` is deleted. */
  function Cleared(query: seq<Param>, apuId: string, githubUser: string): seq<Param>
  {
    DeleteEntries(SetOrDelete(SetOrDelete(query, ApuIdKey, apuId), GithubKey, githubUser), SkillsKey)
  }

  lemma SetOrDeleteSpec(list: seq<Param>, name: string, value: string, other: string)
    requires name in FilterKeys && other != name
    ensures GetAllValues(SetOrDelete(list, name, value), name) == (if value != "" then [value] else [])
    ensures GetAllValues(SetOrDelete(list, name, value), other) == GetAllValues(list, other)
    ensures Others(SetOrDelete(list, name, value), FilterKeys) == Others(list, FilterKeys)
  {
    if value != "" {
      SetSpec(list, name, value, FilterKeys);
      SetKeepsOtherNames(list, name, value, other);
    } else {
      DeleteSpec(list, name, FilterKeys);
      DeleteKeepsOtherNames(list, name, other);
    }
  }

  /** The cleared query holds each single-valued filter as written, no skills, and every other parameter. */
  lemma ClearedSpec(query: seq<Param>, apuId: string, githubUser: string)
    ensures GetAllValues(Cleared(query, apuId, githubUser), ApuIdKey) == (if apuId != "" then [apuId] else [])
    ensures GetAllValues(Cleared(query, apuId, githubUser), GithubKey) == (if githubUser != "" then [githubUser] else [])
    ensures GetAllValues(Cleared(query, apuId, githubUser), SkillsKey) == []
    ensures Others(Cleared(query, apuId, githubUser), FilterKeys) == Others(query, FilterKeys)
  {
    var a := SetOrDelete(query, ApuIdKey, apuId);
    var g := SetOrDelete(a, GithubKey, githubUser);
    SetOrDeleteSpec(query, ApuIdKey, apuId, GithubKey);
    SetOrDeleteSpec(a, GithubKey, githubUser, ApuIdKey);
    DeleteSpec(g, SkillsKey, FilterKeys);
    DeleteKeepsOtherNames(g, SkillsKey, ApuIdKey);
    DeleteKeepsOtherNames(g, SkillsKey, GithubKey);
  }

  /** Appending one skill adds it to the end of `skills` and leaves every other name as it was. */
  lemma AppendSkillStep(list: seq<Param>, skill: string)
    ensures GetAllValues(AppendEntry(list, SkillsKey, skill), SkillsKey) == GetAllValues(list, SkillsKey) + [skill]
    ensures GetAllValues(AppendEntry(list, SkillsKey, skill), ApuIdKey) == GetAllValues(list, ApuIdKey)
    ensures GetAllValues(AppendEntry(list, SkillsKey, skill), GithubKey) == GetAllValues(list, GithubKey)
    ensures Others(AppendEntry(list, SkillsKey, skill), FilterKeys) == Others(list, FilterKeys)
  {
    AppendSpec(list, SkillsKey, skill, FilterKeys);
    GetAllConcat(list, [(SkillsKey, skill)], ApuIdKey);
    GetAllConcat(list, [(SkillsKey, skill)], GithubKey);
  }

  /** The panel's state. */
  class FilterPanel {
    var apuId: string
    var githubUser: string
    var skillInput: string
    var skills: seq<string>

    /** The initial state: each filter read from the query, "" or [] when absent. */
    constructor (query: seq<Param>)
      ensures apuId == GetFirst(query, ApuIdKey).GetOr("")
      ensures githubUser == GetFirst(query, GithubKey).GetOr("")
      ensures skills == GetAllValues(query, SkillsKey) && skillInput == ""
    {
      apuId := GetFirst(query, ApuIdKey).GetOr("");
      githubUser := GetFirst(query, GithubKey).GetOr("");
      skillInput := "";
      skills := GetAllValues(query, SkillsKey);
    }

    /** The effect on a changed query: the three filters are read again; the skill input is kept. */
    method Sync(query: seq<Param>)
      modifies this
      ensures apuId == GetFirst(query, ApuIdKey).GetOr("")
      ensures githubUser == GetFirst(query, GithubKey).GetOr("")
      ensures skills == GetAllValues(query, SkillsKey) && skillInput == old(skillInput)
    {
      apuId := GetFirst(query, ApuIdKey).GetOr("");
      githubUser := GetFirst(query, GithubKey).GetOr("");
      skills := GetAllValues(query, SkillsKey);
    }

    /** Typing into the skill input. */
    method SetSkillInput(value: string)
      modifies this
      ensures skillInput == value && skills == old(skills)
      ensures apuId == old(apuId) && githubUser == old(githubUser)
    {
      skillInput := value;
    }

    /**
     * `handleAddSkill`: on Enter with a non-blank input, the trimmed text is
     * appended unless already listed, and the input is cleared either way;
     * any other key, or a blank input, changes nothing.
     */
    method HandleAddSkill(key: string)
      modifies this
      ensures var t := JsString.Trim(old(skillInput));
              if key == EnterKey && t != "" then
                skillInput == "" && skills == (if t in old(skills) then old(skills) else old(skills) + [t])
              else
                skillInput == old(skillInput) && skills == old(skills)
      ensures apuId == old(apuId) && githubUser == old(githubUser)
      ensures forall s :: s in skills ==> s in old(skills) || s == JsString.Trim(old(skillInput))
    {
      if key == EnterKey && JsString.Trim(skillInput) != "" {
        if JsString.Trim(skillInput) !in skills {
          skills := skills + [JsString.Trim(skillInput)];
        }
        skillInput := "";
      }
    }

    /** `removeSkill`: every equal entry goes, the others keep their order. */
    method RemoveSkill(skill: string)
      modifies this
      ensures skills == RemoveAll(old(skills), skill)
      ensures skillInput == old(skillInput) && apuId == old(apuId) && githubUser == old(githubUser)
    {
      skills := RemoveAll(skills, skill);
    }

    /** The first three writes of `applyFilters`: the two single-valued filters set or deleted, then `skills` deleted. */
    method WriteSingleFilters(params: URLSearchParams)
      modifies params
      ensures params.list == Cleared(old(params.list), apuId, githubUser)
    {
      if apuId != "" {
        params.Set(ApuIdKey, apuId);
      } else {
        params.Delete(ApuIdKey);
      }
      if githubUser != "" {
        params.Set(GithubKey, githubUser);
      } else {
        params.Delete(GithubKey);
      }
      params.Delete(SkillsKey);
    }

    /**
     * `applyFilters`: the query with `apu_id` and `github_username` set when
     * non-empty and removed otherwise, and `skills` replaced by the current
     * skills in order; every other parameter is kept in order.
     */
    method ApplyFilters(query: seq<Param>) returns (pushed: seq<Param>)
      ensures GetAllValues(pushed, ApuIdKey) == (if apuId != "" then [apuId] else [])
      ensures GetFirst(pushed, ApuIdKey) == (if apuId != "" then Some(apuId) else None)
      ensures GetAllValues(pushed, GithubKey) == (if githubUser != "" then [githubUser] else [])
      ensures GetFirst(pushed, GithubKey) == (if githubUser != "" then Some(githubUser) else None)
      ensures GetAllValues(pushed, SkillsKey) == skills
      ensures Others(pushed, FilterKeys) == Others(query, FilterKeys)
    {
      var params := new URLSearchParams(query);
      WriteSingleFilters(params);
      ClearedSpec(query, apuId, githubUser);
      for i := 0 to |skills|
        invariant GetAllValues(params.list, SkillsKey) == skills[..i]
        invariant GetAllValues(params.list, ApuIdKey) == (if apuId != "" then [apuId] else [])
        invariant GetAllValues(params.list, GithubKey) == (if githubUser != "" then [githubUser] else [])
        invariant Others(params.list, FilterKeys) == Others(query, FilterKeys)
      {
        AppendSkillStep(params.list, skills[i]);
        params.Append(SkillsKey, skills[i]);
        assert skills[..i + 1] == skills[..i] + [skills[i]];
      }
      assert skills[..|skills|] == skills;
      pushed := params.list;
      GetIsFirstOfAll(pushed, ApuIdKey);
      GetIsFirstOfAll(pushed, GithubKey);
    }

    /**
     * `clearFilters`: the local state is emptied and the query loses the three
     * filter parameters, keeping every other parameter in order.
     */
    method ClearFilters(query: seq<Param>) returns (pushed: seq<Param>)
      modifies this
      ensures apuId == "" && githubUser == "" && skills == [] && skillInput == ""
      ensures GetFirst(pushed, ApuIdKey) == None && GetFirst(pushed, GithubKey) == None
      ensures GetAllValues(pushed, SkillsKey) == []
      ensures Others(pushed, FilterKeys) == Others(query, FilterKeys)
    {
      apuId := "";
      githubUser := "";
      skills := [];
      skillInput := "";
      var params := new URLSearchParams(query);
      DeleteSpec(params.list, ApuIdKey, FilterKeys);
      params.Delete(ApuIdKey);
      DeleteSpec(params.list, GithubKey, FilterKeys);
      DeleteKeepsOtherNames(params.list, GithubKey, ApuIdKey);
      params.Delete(GithubKey);
      DeleteSpec(params.list, SkillsKey, FilterKeys);
      DeleteKeepsOtherNames(params.list, SkillsKey, ApuIdKey);
      DeleteKeepsOtherNames(params.list, SkillsKey, GithubKey);
      params.Delete(SkillsKey);
      pushed := params.list;
      GetIsFirstOfAll(pushed, ApuIdKey);
      GetIsFirstOfAll(pushed, GithubKey);
    }
  }

  /** Applying the filters that were just read from a query keeps its `skills` exactly. */
  method ApplyAfterRead(query: seq<Param>) returns (pushed: seq<Param>)
    ensures GetAllValues(pushed, SkillsKey) == GetAllValues(query, SkillsKey)
    ensures Others(pushed, FilterKeys) == Others(query, FilterKeys)
  {
    var panel := new FilterPanel(query);
    pushed := panel.ApplyFilters(query);
  }
}
