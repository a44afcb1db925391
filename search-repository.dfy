/**
 * The repository search box of `src/app/browse/_components/search-repository.tsx`:
 * the input mirrors the `search` parameter, and Enter writes the trimmed input
 * back to the query, or removes `search` when the input is blank. The route
 * pushed is the resulting parameter list.
 */
module SearchRepository {
  import opened Wrappers
  import JsString
  import opened SearchParams

  const SearchKey: string := "search"
  const EnterKey: string := "Enter"

  /** The search box state. */
  class SearchBox {
    var value: string

    /** The input starts from the `search` parameter, or "" when absent. */
    constructor (query: seq<Param>)
      ensures value == GetFirst(query, SearchKey).GetOr("")
    {
      value := GetFirst(query, SearchKey).GetOr("");
    }

    /** The effect on a changed query: the input is read again. */
    method Sync(query: seq<Param>)
      modifies this
      ensures value == GetFirst(query, SearchKey).GetOr("")
    {
      value := GetFirst(query, SearchKey).GetOr("");
    }

    /** Typing. */
    method SetValue(v: string)
      modifies this
      ensures value == v
    {
      value := v;
    }

    /**
     * `handleSearch`: a non-blank input sets `search` to its trimmed text, a
     * blank one removes `search`; every other parameter is kept in order.
     */
    method HandleSearch(query: seq<Param>) returns (pushed: seq<Param>)
      ensures !JsString.IsBlank(value) ==>
                GetFirst(pushed, SearchKey) == Some(JsString.Trim(value))
                && GetAllValues(pushed, SearchKey) == [JsString.Trim(value)]
      ensures JsString.IsBlank(value) ==>
                GetFirst(pushed, SearchKey) == None && GetAllValues(pushed, SearchKey) == []
      ensures Others(pushed, {SearchKey}) == Others(query, {SearchKey})
    {
      var params := new URLSearchParams(query);
      JsString.TrimEmptyIffBlank(value);
      if JsString.Trim(value) != "" {
        SetSpec(params.list, SearchKey, JsString.Trim(value), {SearchKey});
        params.Set(SearchKey, JsString.Trim(value));
      } else {
        DeleteSpec(params.list, SearchKey, {SearchKey});
        params.Delete(SearchKey);
      }
      pushed := params.list;
    }

    /** `handleKeyDown`: only Enter searches; any other key pushes nothing. */
    method HandleKeyDown(key: string, query: seq<Param>) returns (pushed: Option<seq<Param>>)
      ensures key != EnterKey ==> pushed == None
      ensures key == EnterKey ==> pushed.Some? && Others(pushed.value, {SearchKey}) == Others(query, {SearchKey})
      ensures key == EnterKey && !JsString.IsBlank(value) ==> GetFirst(pushed.value, SearchKey) == Some(JsString.Trim(value))
      ensures key == EnterKey && JsString.IsBlank(value) ==> GetFirst(pushed.value, SearchKey) == None
    {
      if key == EnterKey {
        var p := HandleSearch(query);
        pushed := Some(p);
      } else {
        pushed := None;
      }
    }
  }

  /** Searching again from the state a search left behind pushes the same `search` value: trimming is idempotent. */
  method SearchTwice(query: seq<Param>, typed: string) returns (first: seq<Param>, second: seq<Param>)
    ensures GetFirst(second, SearchKey) == GetFirst(first, SearchKey)
  {
    var box := new SearchBox(query);
    box.SetValue(typed);
    first := box.HandleSearch(query);
    box.Sync(first);
    second := box.HandleSearch(first);
    JsString.TrimIdempotent(typed);
    JsString.TrimEmptyIffBlank(typed);
    JsString.TrimEmptyIffBlank(JsString.Trim(typed));
  }
}
