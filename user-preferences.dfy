/**
 * The preference editor of `src/app/profile/_components/user-preferences.tsx`:
 * each section keeps a list of selected items (languages or frameworks) that
 * the user adds to from a suggestion list and removes from, and the save
 * payload sends the selected names.
 */
module UserPreferences {
  import JsString
  import Lists

  /** A language or framework: `{ id, name }`. */
  datatype Item = Item(id: string, name: string)

  const MaxSuggestions: nat := 5

  /** `items.some((i) => i.id === id)`. */
  predicate HasId(items: seq<Item>, id: string) {
    exists i :: 0 <= i < |items| && items[i].id == id
  }

  /** No two selected items share an id. */
  predicate DistinctIds(items: seq<Item>) {
    forall i, j :: 0 <= i < j < |items| ==> items[i].id != items[j].id
  }

  /** `items.filter((i) => i.id !== id)`: every item with the id goes, the others stay in order. */
  function RemoveId(items: seq<Item>, id: string): (r: seq<Item>)
    ensures forall x :: x in r <==> x in items && x.id != id
    ensures forall x :: multiset(r)[x] == if x.id != id then multiset(items)[x] else 0
    ensures Lists.IsSubsequence(r, items)
  {
    Lists.Filter(items, (x: Item) => x.id != id)
  }

  /** Removing an id that is not there changes nothing. */
  lemma {:induction false} RemoveAbsent(items: seq<Item>, id: string)
    requires !HasId(items, id)
    ensures RemoveId(items, id) == items
  {
    if items != [] {
      assert items[0].id != id;
      RemoveAbsent(items[1..], id);
    }
  }

  /** Removal undoes an addition: removing the id just added gives back the list before. */
  lemma {:induction false} RemoveUndoesAdd(items: seq<Item>, item: Item)
    requires !HasId(items, item.id)
    ensures RemoveId(items + [item], item.id) == items
    decreases |items|
  {
    if items == [] {
      assert ([] + [item])[1..] == [];
    } else {
      assert (items + [item])[1..] == items[1..] + [item];
      RemoveUndoesAdd(items[1..], item);
    }
  }

  /** A removal keeps ids distinct. */
  lemma {:induction false} RemoveKeepsDistinct(items: seq<Item>, id: string)
    requires DistinctIds(items)
    ensures DistinctIds(RemoveId(items, id))
  {
    if items != [] {
      var tail := items[1..];
      assert DistinctIds(tail) by {
        forall i, j | 0 <= i < j < |tail| ensures tail[i].id != tail[j].id {
          assert tail[i] == items[i + 1] && tail[j] == items[j + 1];
        }
      }
      RemoveKeepsDistinct(tail, id);
      var rest := RemoveId(tail, id);
      assert RemoveId(items, id) == if items[0].id != id then [items[0]] + rest else rest;
      if items[0].id != id {
        forall x | x in rest ensures x.id != items[0].id {
          assert x in tail;
          var k :| 0 <= k < |tail| && tail[k] == x;
          assert items[k + 1] == x;
        }
        var r := [items[0]] + rest;
        forall i, j | 0 <= i < j < |r| ensures r[i].id != r[j].id {
          if i == 0 {
            assert r[j] == rest[j - 1];
          } else {
            assert r[i] == rest[i - 1] && r[j] == rest[j - 1];
          }
        }
      }
    }
  }

  /** The name contains the input, both lower-cased. */
  predicate NameMatches(item: Item, input: string) {
    JsString.Includes(JsString.ToLower(item.name), JsString.ToLower(input))
  }

  /** `allItems.filter((i) => i.name.toLowerCase().includes(inputValue.toLowerCase()))`. */
  function MatchingName(all: seq<Item>, input: string): seq<Item>
  {
    Lists.Filter(all, (x: Item) => NameMatches(x, input))
  }

  /** `.filter((i) => !items.some((existing) => existing.id === i.id))`. */
  function NotSelected(all: seq<Item>, items: seq<Item>): seq<Item>
  {
    Lists.Filter(all, (x: Item) => !HasId(items, x.id))
  }

  /** `suggestions`: the two filters, then `.slice(0, 5)`. */
  function Suggestions(all: seq<Item>, items: seq<Item>, input: string): (r: seq<Item>)
    ensures |r| <= MaxSuggestions
    ensures Lists.IsSubsequence(r, all)
    ensures forall x :: x in r ==> x in all && Candidate(x, items, input)
  {
    var candidates := NotSelected(MatchingName(all, input), items);
    FiltersFuse(all, items, input);
    assert candidates == Candidates(all, items, input);
    PrefixIsSubsequence(candidates, all, MaxSuggestions);
    var r := if |candidates| <= MaxSuggestions then candidates else candidates[..MaxSuggestions];
    assert forall x :: x in r ==> x in candidates;
    r
  }

  /** A candidate: its name matches and it is not already selected. */
  predicate Candidate(x: Item, items: seq<Item>, input: string) {
    NameMatches(x, input) && !HasId(items, x.id)
  }

  /** The candidates of `all`: one filter with both conditions, in `allItems` order. */
  function Candidates(all: seq<Item>, items: seq<Item>, input: string): (r: seq<Item>)
    ensures forall x :: x in r <==> x in all && Candidate(x, items, input)
    ensures forall x :: multiset(r)[x] == if Candidate(x, items, input) then multiset(all)[x] else 0
    ensures Lists.IsSubsequence(r, all)
  {
    Lists.Filter(all, (x: Item) => Candidate(x, items, input))
  }

  /** The two filters in a row are the single filter on both conditions. */
  lemma FiltersFuse(all: seq<Item>, items: seq<Item>, input: string)
    ensures NotSelected(MatchingName(all, input), items) == Candidates(all, items, input)
  {
    Lists.FilterFuse(all, (x: Item) => NameMatches(x, input), (x: Item) => !HasId(items, x.id),
                     (x: Item) => Candidate(x, items, input));
  }

  /** The first `n` entries of a subsequence of `b` are a subsequence of `b`. */
  lemma {:induction false} PrefixIsSubsequence(a: seq<Item>, b: seq<Item>, n: nat)
    requires Lists.IsSubsequence(a, b)
    ensures Lists.IsSubsequence(if |a| <= n then a else a[..n], b)
    decreases |b|
  {
    if |a| > n && n > 0 && b != [] {
      if a[0] == b[0] && Lists.IsSubsequence(a[1..], b[1..]) {
        PrefixIsSubsequence(a[1..], b[1..], n - 1);
        assert a[..n][1..] == a[1..][..n - 1];
      } else {
        PrefixIsSubsequence(a, b[1..], n);
      }
    }
  }

  /**
   * At most five suggestions, each a matching unselected item, taken from the
   * front of the matching unselected items in `allItems` order; when fewer
   * than five are shown, every matching unselected item is among them.
   */
  lemma SuggestionsSpec(all: seq<Item>, items: seq<Item>, input: string)
    ensures var r := Suggestions(all, items, input);
            && |r| <= MaxSuggestions
            && |r| <= |Candidates(all, items, input)| && r == Candidates(all, items, input)[..|r|]
            && (forall x :: x in r ==> x in all && NameMatches(x, input) && !HasId(items, x.id))
            && (|r| < MaxSuggestions ==> forall x :: x in all && Candidate(x, items, input) ==> x in r)
  {
    FiltersFuse(all, items, input);
    var c := Candidates(all, items, input);
    var r := Suggestions(all, items, input);
    forall x | x in r ensures x in all && NameMatches(x, input) && !HasId(items, x.id) {
      assert x in c;
    }
  }

  /** Every name contains the empty input. */
  lemma {:induction false} EmptyInputMatchesAll(all: seq<Item>)
    ensures MatchingName(all, "") == all
  {
    if all != [] {
      JsString.IncludesEmpty(JsString.ToLower(all[0].name));
      assert JsString.ToLower("") == "";
      EmptyInputMatchesAll(all[1..]);
    }
  }

  /** An empty input suggests the first five unselected items. */
  lemma EmptyInputSuggestions(all: seq<Item>, items: seq<Item>)
    ensures var c := NotSelected(all, items);
            Suggestions(all, items, "") == if |c| <= MaxSuggestions then c else c[..MaxSuggestions]
  {
    EmptyInputMatchesAll(all);
  }

  /** The save payload's list: the selected names, in order. */
  function Names(items: seq<Item>): (r: seq<string>)
    ensures |r| == |items|
    ensures forall i :: 0 <= i < |items| ==> r[i] == items[i].name
  {
    seq(|items|, i requires 0 <= i < |items| => items[i].name)
  }

  /** The save payload. */
  datatype Payload = Payload(programmingLanguages: seq<string>, frameworks: seq<string>)

  function SavePayload(languages: seq<Item>, frameworks: seq<Item>): (r: Payload)
    ensures |r.programmingLanguages| == |languages| && forall i :: 0 <= i < |languages| ==> r.programmingLanguages[i] == languages[i].name
    ensures |r.frameworks| == |frameworks| && forall i :: 0 <= i < |frameworks| ==> r.frameworks[i] == frameworks[i].name
  {
    Payload(Names(languages), Names(frameworks))
  }

  /** One `PreferenceSection`: the selected items, the search input and the popover. */
  class PreferenceSection {
    var items: seq<Item>
    var inputValue: string
    var isPopoverOpen: bool

    constructor (items: seq<Item>)
      ensures this.items == items && inputValue == "" && !isPopoverOpen
    {
      this.items := items;
      inputValue := "";
      isPopoverOpen := false;
    }

    /**
     * `handleAddItem`: an item whose id is already selected changes nothing;
     * otherwise it is appended, the input is cleared and the popover closes.
     */
    method HandleAddItem(item: Item)
      modifies this
      ensures HasId(old(items), item.id) ==>
                items == old(items) && inputValue == old(inputValue) && isPopoverOpen == old(isPopoverOpen)
      ensures !HasId(old(items), item.id) ==> items == old(items) + [item] && inputValue == "" && !isPopoverOpen
      ensures DistinctIds(old(items)) ==> DistinctIds(items)
    {
      if HasId(items, item.id) {
        return;
      }
      items := items + [item];
      inputValue := "";
      isPopoverOpen := false;
    }

    /** `handleRemoveItem`: every item with the id goes, the others stay in order. */
    method HandleRemoveItem(id: string)
      modifies this
      ensures items == RemoveId(old(items), id)
      ensures inputValue == old(inputValue) && isPopoverOpen == old(isPopoverOpen)
      ensures DistinctIds(old(items)) ==> DistinctIds(items)
    {
      if DistinctIds(items) {
        RemoveKeepsDistinct(items, id);
      }
      items := RemoveId(items, id);
    }
  }
}
