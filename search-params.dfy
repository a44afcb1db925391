/**
 * `URLSearchParams` as the components use it: an ordered list of name-value
 * pairs with the `get`, `getAll`, `set`, `delete` and `append` operations of
 * section 6.2 ("URLSearchParams class") of the WHATWG URL Standard.
 */
module SearchParams {
  import opened Wrappers

  type Param = (string, string)

  /** `get(name)`: the value of the first pair named `name`, or null. */
  function GetFirst(list: seq<Param>, name: string): (r: Option<string>)
    ensures r.None? <==> forall i :: 0 <= i < |list| ==> list[i].0 != name
    ensures r.Some? ==> exists i :: 0 <= i < |list| && list[i] == (name, r.value) && FirstNamed(list, name, i)
  {
    if |list| == 0 then None
    else if list[0].0 == name then (assert FirstNamed(list, name, 0); Some(list[0].1))
    else
      var r := GetFirst(list[1..], name);
      if r.Some? then
        var i :| 0 <= i < |list[1..]| && list[1..][i] == (name, r.value) && FirstNamed(list[1..], name, i);
        assert FirstNamed(list, name, i + 1);
        r
      else r
  }

  /** No pair before index `i` is named `name`. */
  predicate FirstNamed(list: seq<Param>, name: string, i: int)
    requires 0 <= i <= |list|
  {
    forall j :: 0 <= j < i ==> list[j].0 != name
  }

  /** `getAll(name)`: the values of all pairs named `name`, in list order. */
  function GetAllValues(list: seq<Param>, name: string): (r: seq<string>)
    ensures |r| <= |list|
  {
    if |list| == 0 then []
    else (if list[0].0 == name then [list[0].1] else []) + GetAllValues(list[1..], name)
  }

  /** `delete(name)`: remove every pair named `name`. */
  function DeleteEntries(list: seq<Param>, name: string): (r: seq<Param>)
  {
    if |list| == 0 then []
    else (if list[0].0 == name then [] else [list[0]]) + DeleteEntries(list[1..], name)
  }

  /** `append(name, value)`: add a pair at the end. */
  function AppendEntry(list: seq<Param>, name: string, value: string): seq<Param>
  {
    list + [(name, value)]
  }

  /**
   * `set(name, value)`: if some pair is named `name`, the first one gets `value`
   * and the others are removed; otherwise the pair is appended.
   */
  function SetEntry(list: seq<Param>, name: string, value: string): (r: seq<Param>)
  {
    if |list| == 0 then [(name, value)]
    else if list[0].0 == name then [(name, value)] + DeleteEntries(list[1..], name)
    else [list[0]] + SetEntry(list[1..], name, value)
  }

  /** The pairs whose names are not in `names`, in order: what an update of `names` must not touch. */
  function Others(list: seq<Param>, names: set<string>): (r: seq<Param>)
  {
    if |list| == 0 then []
    else (if list[0].0 in names then [] else [list[0]]) + Others(list[1..], names)
  }

  lemma {:induction false} OthersConcat(a: seq<Param>, b: seq<Param>, names: set<string>)
    ensures Others(a + b, names) == Others(a, names) + Others(b, names)
  {
    if |a| > 0 {
      assert (a + b)[1..] == a[1..] + b;
      OthersConcat(a[1..], b, names);
    } else {
      assert a + b == b;
    }
  }

  lemma {:induction false} GetAllConcat(a: seq<Param>, b: seq<Param>, name: string)
    ensures GetAllValues(a + b, name) == GetAllValues(a, name) + GetAllValues(b, name)
  {
    if |a| > 0 {
      assert (a + b)[1..] == a[1..] + b;
      GetAllConcat(a[1..], b, name);
    } else {
      assert a + b == b;
    }
  }

  /** After `delete(name)` there is no pair named `name`, and the other pairs keep their order. */
  lemma {:induction false} DeleteSpec(list: seq<Param>, name: string, names: set<string>)
    requires name in names
    ensures GetAllValues(DeleteEntries(list, name), name) == []
    ensures GetFirst(DeleteEntries(list, name), name) == None
    ensures Others(DeleteEntries(list, name), names) == Others(list, names)
  {
    if |list| > 0 {
      DeleteSpec(list[1..], name, names);
      var rest := DeleteEntries(list[1..], name);
      var head := if list[0].0 == name then [] else [list[0]];
      OthersConcat(head, rest, names);
      GetAllConcat(head, rest, name);
    }
  }

  /** `delete(name)` leaves the pairs of every other name as they were. */
  lemma {:induction false} DeleteKeepsOtherNames(list: seq<Param>, name: string, other: string)
    requires other != name
    ensures GetAllValues(DeleteEntries(list, name), other) == GetAllValues(list, other)
  {
    if |list| > 0 {
      DeleteKeepsOtherNames(list[1..], name, other);
      var head := if list[0].0 == name then [] else [list[0]];
      GetAllConcat(head, DeleteEntries(list[1..], name), other);
    }
  }

  /** After `set(name, value)`, `get(name)` is `value`, `getAll(name)` is `[value]`, and pairs of other names keep their order. */
  lemma {:induction false} SetSpec(list: seq<Param>, name: string, value: string, names: set<string>)
    requires name in names
    ensures GetAllValues(SetEntry(list, name, value), name) == [value]
    ensures GetFirst(SetEntry(list, name, value), name) == Some(value)
    ensures Others(SetEntry(list, name, value), names) == Others(list, names)
  {
    var r := SetEntry(list, name, value);
    if |list| == 0 {
    } else if list[0].0 == name {
      DeleteSpec(list[1..], name, names);
      GetAllConcat([(name, value)], DeleteEntries(list[1..], name), name);
      OthersConcat([(name, value)], DeleteEntries(list[1..], name), names);
    } else {
      SetSpec(list[1..], name, value, names);
      GetAllConcat([list[0]], SetEntry(list[1..], name, value), name);
      OthersConcat([list[0]], SetEntry(list[1..], name, value), names);
      assert r[0] == list[0];
    }
  }

  /** `set(name, value)` leaves the pairs of every other name as they were. */
  lemma {:induction false} SetKeepsOtherNames(list: seq<Param>, name: string, value: string, other: string)
    requires other != name
    ensures GetAllValues(SetEntry(list, name, value), other) == GetAllValues(list, other)
  {
    if |list| == 0 {
      assert GetAllValues([(name, value)], other) == [] by {
        assert [(name, value)][1..] == [];
      }
    } else if list[0].0 == name {
      DeleteKeepsOtherNames(list[1..], name, other);
      GetAllConcat([(name, value)], DeleteEntries(list[1..], name), other);
      assert GetAllValues([(name, value)], other) == [] by {
        assert [(name, value)][1..] == [];
      }
    } else {
      SetKeepsOtherNames(list[1..], name, value, other);
      GetAllConcat([list[0]], SetEntry(list[1..], name, value), other);
      assert GetAllValues([list[0]], other) == (if list[0].0 == other then [list[0].1] else []) by {
        assert [list[0]][1..] == [];
      }
    }
  }

  /** `get(name)` is the first of `getAll(name)`, or null when there is none. */
  lemma {:induction false} GetIsFirstOfAll(list: seq<Param>, name: string)
    ensures GetFirst(list, name) == if GetAllValues(list, name) == [] then None else Some(GetAllValues(list, name)[0])
  {
    if |list| > 0 && list[0].0 != name {
      GetIsFirstOfAll(list[1..], name);
    }
  }

  /** `append(name, value)` adds `value` at the end of `getAll(name)` and touches no other name. */
  lemma AppendSpec(list: seq<Param>, name: string, value: string, names: set<string>)
    requires name in names
    ensures GetAllValues(AppendEntry(list, name, value), name) == GetAllValues(list, name) + [value]
    ensures Others(AppendEntry(list, name, value), names) == Others(list, names)
  {
    GetAllConcat(list, [(name, value)], name);
    OthersConcat(list, [(name, value)], names);
  }

  /** A `URLSearchParams` object, updated in place. */
  class URLSearchParams {
    var list: seq<Param>

    /** `new URLSearchParams(init.toString())`: serialising and parsing give back the same pairs. */
    constructor (init: seq<Param>)
      ensures list == init
    {
      list := init;
    }

    function Get(name: string): Option<string>
      reads this
    {
      GetFirst(list, name)
    }

    function GetAll(name: string): seq<string>
      reads this
    {
      GetAllValues(list, name)
    }

    method Set(name: string, value: string)
      modifies this
      ensures list == SetEntry(old(list), name, value)
    {
      list := SetEntry(list, name, value);
    }

    method Delete(name: string)
      modifies this
      ensures list == DeleteEntries(old(list), name)
    {
      list := DeleteEntries(list, name);
    }

    method Append(name: string, value: string)
      modifies this
      ensures list == AppendEntry(old(list), name, value)
    {
      list := list + [(name, value)];
    }
  }
}
