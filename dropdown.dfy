/**
 * The searchable drop-down used for the catalog choices: it lists the
 * options whose lower-cased text contains the lower-cased search term.
 */
module Dropdown {
  import opened Builtins
  import opened Sequences

  /** The search term occurs in the option, ignoring case. */
  predicate MatchesSearch(option: string, searchTerm: string) {
    Includes(ToLower(option), ToLower(searchTerm))
  }

  /** `filteredOptions`: the options that match the search term, in their order. */
  function FilteredOptions(options: seq<string>, searchTerm: string): (shown: seq<string>)
    ensures IsSubsequence(shown, options)
    ensures forall o :: o in shown <==> o in options && exists i :: OccursAt(ToLower(o), ToLower(searchTerm), i)
    ensures forall o :: multiset(shown)[o] == if MatchesSearch(o, searchTerm) then multiset(options)[o] else 0
  {
    Filter(options, o => MatchesSearch(o, searchTerm))
  }

  /** Before anything is typed every option is listed. */
  lemma EmptySearchShowsAll(options: seq<string>)
    ensures FilteredOptions(options, "") == options
  {
    forall i | 0 <= i < |options| ensures MatchesSearch(options[i], "") {
      assert OccursAt(ToLower(options[i]), ToLower(""), 0);
    }
    FilterKeepsAll(options, o => MatchesSearch(o, ""));
  }

  /** After an option is picked its text becomes the search term, and it is still listed. */
  lemma SelectedOptionStaysListed(options: seq<string>, option: string)
    requires option in options
    ensures option in FilteredOptions(options, option)
  {
    assert ToLower(option)[0..|ToLower(option)|] == ToLower(option);
    assert OccursAt(ToLower(option), ToLower(option), 0);
  }

  /** Typing more can only narrow the list: a longer term containing the shorter one shows fewer options. */
  lemma LongerSearchNarrows(options: seq<string>, shorter: string, longer: string)
    requires Includes(ToLower(longer), ToLower(shorter))
    ensures forall o :: o in FilteredOptions(options, longer) ==> o in FilteredOptions(options, shorter)
  {
    var a, b := ToLower(shorter), ToLower(longer);
    var i :| OccursAt(b, a, i);
    forall o | o in FilteredOptions(options, longer) ensures o in FilteredOptions(options, shorter) {
      var c := ToLower(o);
      var j :| OccursAt(c, b, j);
      OccursAtNested(c, b, a, j, i);
    }
  }

  /** Typing the term in upper or lower case lists the same options. */
  lemma SearchIgnoresCase(options: seq<string>, searchTerm: string)
    ensures FilteredOptions(options, ToLower(searchTerm)) == FilteredOptions(options, searchTerm)
  {
    ToLowerIdempotent(searchTerm);
    FilterSamePredicate(options, o => MatchesSearch(o, ToLower(searchTerm)), o => MatchesSearch(o, searchTerm));
  }
}
