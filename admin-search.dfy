/**
 * The search boxes of the admin screens: a list is filtered, in its own order,
 * to the entries one of whose text fields contains the search text, both sides
 * lower-cased (`x.toLowerCase().includes(search.toLowerCase())`).
 */
module AdminSearch {
  import JsString

  /** `field.toLowerCase().includes(search.toLowerCase())`. */
  predicate MatchesText(field: string, search: string)
    // a search longer than the field never matches
    ensures MatchesText(field, search) ==> |search| <= |field|
  {
    JsString.IncludesIff(JsString.ToLower(field), JsString.ToLower(search));
    JsString.Includes(JsString.ToLower(field), JsString.ToLower(search))
  }

  /** Every field matches the empty search. */
  lemma EmptySearchMatches(field: string)
    ensures MatchesText(field, "")
  {
    assert JsString.ToLower("") == "";
    JsString.IncludesEmpty(JsString.ToLower(field));
  }

  /** Lower-casing twice is lower-casing once. */
  lemma ToLowerIdempotent(s: string)
    ensures JsString.ToLower(JsString.ToLower(s)) == JsString.ToLower(s)
  {
  }

  /**
   * The match ignores the case of the search text and of the field: two
   * searches that differ only in the case of their letters match the same
   * fields, and lower-casing either side first changes nothing.
   */
  lemma MatchIgnoresCase(field: string, search: string, other: string)
    ensures JsString.ToLower(search) == JsString.ToLower(other) ==>
              (MatchesText(field, search) <==> MatchesText(field, other))
    ensures MatchesText(field, JsString.ToLower(search)) <==> MatchesText(field, search)
    ensures MatchesText(JsString.ToLower(field), search) <==> MatchesText(field, search)
  {
    ToLowerIdempotent(search);
    ToLowerIdempotent(field);
  }
}
