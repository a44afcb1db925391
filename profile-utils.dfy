/**
 * The enum formatting of `src/app/profile/utils.ts`: `formatEnumString` turns a
 * stored enum such as "year_1" into the label "Year 1", and `formatYearToEnum`
 * turns a display year such as "YEAR 1" into the stored "year_1".
 */
module ProfileUtils {
  import opened Wrappers
  import opened JsString

  const NotSet: string := "Not set"

  /** The display years and their stored forms (`YEARS`, `YEARS_DB` of `src/app/profile/types.ts`). */
  const Years: seq<string> := ["YEAR 1", "YEAR 2", "YEAR 3", "YEAR 4"]
  const YearsDb: seq<string> := ["year_1", "year_2", "year_3", "year_4"]

  /** `word.charAt(0).toUpperCase() + word.slice(1)`. */
  function Capitalize(word: string): (r: string)
    ensures |r| == |word|
    ensures word != [] ==> r[0] == UpperChar(word[0]) && r[1..] == word[1..]
  {
    if word == [] then [] else [UpperChar(word[0])] + word[1..]
  }

  function CapitalizeAll(words: seq<string>): (r: seq<string>)
    ensures |r| == |words|
    ensures forall i :: 0 <= i < |words| ==> r[i] == Capitalize(words[i])
  {
    seq(|words|, i requires 0 <= i < |words| => Capitalize(words[i]))
  }

  /** `formatEnumString(str)`: "Not set" for null or "", otherwise the words between '_' capitalised and joined by ' '. */
  function FormatEnumString(str: Option<string>): (r: string)
    ensures str.None? || str == Some("") ==> r == NotSet
  {
    if str.None? || str.value == "" then NotSet
    else Join(CapitalizeAll(Split(str.value, '_')), " ")
  }

  /** A character starts a word when it is the first one (and `atStart`) or follows a '_'. */
  predicate StartsWord(s: string, i: int, atStart: bool)
    requires 0 <= i < |s|
  {
    (i == 0 && atStart) || (i > 0 && s[i - 1] == '_')
  }

  /**
   * The same formatting, character by character: '_' becomes ' ', the first
   * character of each word is upper-cased, and every other character stays.
   */
  function Titled(s: string, atStart: bool): (r: string)
    ensures |r| == |s|
    ensures forall i :: 0 <= i < |s| ==>
              r[i] == if s[i] == '_' then ' ' else if StartsWord(s, i, atStart) then UpperChar(s[i]) else s[i]
  {
    if s == [] then []
    else
      var rest := Titled(s[1..], s[0] == '_');
      var r := [if s[0] == '_' then ' ' else if atStart then UpperChar(s[0]) else s[0]] + rest;
      assert forall i :: 1 <= i < |s| ==> r[i] == rest[i - 1] && s[1..][i - 1] == s[i];
      assert forall i :: 1 <= i < |s| ==> (StartsWord(s, i, atStart) <==> StartsWord(s[1..], i - 1, s[0] == '_'));
      r
  }

  /** The split-map-join, with the first word capitalised only when `atStart`. */
  function JoinWords(parts: seq<string>, atStart: bool): string
    requires |parts| >= 1
  {
    Join([if atStart then Capitalize(parts[0]) else parts[0]] + CapitalizeAll(parts[1..]), " ")
  }

  lemma {:induction false} JoinWordsIsTitled(s: string, atStart: bool)
    ensures JoinWords(Split(s, '_'), atStart) == Titled(s, atStart)
  {
    if s != [] {
      var rest := Split(s[1..], '_');
      if s[0] == '_' {
        JoinWordsIsTitled(s[1..], true);
        assert Split(s, '_') == [""] + rest;
        assert ([""] + rest)[1..] == rest;
        assert [Capitalize(rest[0])] + CapitalizeAll(rest[1..]) == CapitalizeAll(rest);
        var first: string := if atStart then Capitalize("") else "";
        assert first == "";
        assert ([first] + CapitalizeAll(rest))[1..] == CapitalizeAll(rest);
      } else {
        JoinWordsIsTitled(s[1..], false);
        var w := [s[0]] + rest[0];
        assert Split(s, '_') == [w] + rest[1..];
        assert ([w] + rest[1..])[1..] == rest[1..];
        var c := if atStart then UpperChar(s[0]) else s[0];
        assert (if atStart then Capitalize(w) else w) == [c] + rest[0];
        JoinConsFirst(rest[0], CapitalizeAll(rest[1..]), " ", c);
      }
    }
  }

  /**
   * `formatEnumString` on a non-empty string: each '_' becomes ' ', each word's
   * first character is upper-cased and nothing else changes, so the length is
   * kept and no '_' is left.
   */
  lemma FormatEnumStringSpec(s: string)
    requires s != ""
    ensures FormatEnumString(Some(s)) == Titled(s, true)
    ensures |FormatEnumString(Some(s))| == |s|
    ensures '_' !in FormatEnumString(Some(s))
  {
    var parts := Split(s, '_');
    assert [Capitalize(parts[0])] + CapitalizeAll(parts[1..]) == CapitalizeAll(parts);
    JoinWordsIsTitled(s, true);
    var r := Titled(s, true);
    forall i | 0 <= i < |r| ensures r[i] != '_' {
    }
  }

  /**
   * `formatYearToEnum(str)`: split on ' ', join with '_', lower-case. The
   * round trip through split and join replaces each space by '_', so the
   * result has the input's length and holds no space or ASCII capital.
   */
  function FormatYearToEnum(str: string): (r: string)
    ensures r == ToLower(Replace(str, ' ', '_'))
    ensures |r| == |str|
    ensures forall i :: 0 <= i < |str| ==> r[i] != ' ' && !('A' <= r[i] <= 'Z')
  {
    SplitJoinReplaces(str, ' ', '_');
    ToLower(Join(Split(str, ' '), "_"))
  }

  /** "YEAR n" maps to "year_n", which formats back as "Year n". */
  lemma YearRoundTrip(n: char)
    requires '0' <= n <= '9'
    ensures FormatYearToEnum("YEAR " + [n]) == "year_" + [n]
    ensures FormatEnumString(Some("year_" + [n])) == "Year " + [n]
  {
    var y := "YEAR " + [n];
    var e := FormatYearToEnum(y);
    forall i | 0 <= i < 6 ensures e[i] == ("year_" + [n])[i] {
      assert e[i] == LowerChar(Replace(y, ' ', '_')[i]);
    }
    var d := "year_" + [n];
    FormatEnumStringSpec(d);
    var t := Titled(d, true);
    forall i | 0 <= i < 6 ensures t[i] == ("Year " + [n])[i] {
      assert StartsWord(d, i, true) <==> i == 0 || i == 5;
    }
  }

  /** Each of `YEARS` maps to the `YEARS_DB` entry at the same index, and formats back as "Year n". */
  lemma YearsRoundTrip(k: int)
    requires 0 <= k < 4
    ensures FormatYearToEnum(Years[k]) == YearsDb[k]
    ensures FormatEnumString(Some(YearsDb[k])) == "Year " + [YearsDb[k][5]]
  {
    var n := "1234"[k];
    assert Years[k] == "YEAR " + [n];
    assert YearsDb[k] == "year_" + [n];
    YearRoundTrip(n);
  }
}
