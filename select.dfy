/** The choice of one feature among several search matches, caniuse/ui/select.py.
    Whether stdin and stdout are both terminals is the parameter
    `interactive`; the Textual selector is the parameter `choose`, which
    returns the chosen slug or nothing when the user cancels. */
module Select {
  import opened Wrappers
  import opened Model

  /** The slug of some match. */
  predicate Listed(matches: seq<SearchMatch>, slug: string) {
    exists i :: 0 <= i < |matches| && matches[i].slug == slug
  }

  /** `select_match`: nothing for no matches, the only slug for one match,
      the selector's answer on a terminal, and the first slug otherwise. */
  function SelectMatch(matches: seq<SearchMatch>, interactive: bool,
                       choose: seq<SearchMatch> -> Option<string>): Option<string>
  {
    if matches == [] then None
    else if |matches| == 1 then Some(matches[0].slug)
    else if interactive then choose(matches)
    else Some(matches[0].slug)
  }

  /** The selector is consulted only for several matches on a terminal: in
      every other case any two selectors give the same answer. */
  lemma SelectorOnlyWhenAmbiguous(matches: seq<SearchMatch>, interactive: bool,
                                  choose: seq<SearchMatch> -> Option<string>,
                                  other: seq<SearchMatch> -> Option<string>)
    requires |matches| <= 1 || !interactive
    ensures SelectMatch(matches, interactive, choose) == SelectMatch(matches, interactive, other)
  {
  }

  /** Nothing is chosen exactly when there are no matches or the selector
      was asked and cancelled; a chosen slug is one of the matches' as long
      as the selector only answers with those. */
  lemma SelectMatchChoice(matches: seq<SearchMatch>, interactive: bool,
                          choose: seq<SearchMatch> -> Option<string>)
    ensures SelectMatch(matches, interactive, choose).None? <==>
      matches == [] || (|matches| > 1 && interactive && choose(matches).None?)
    ensures (choose(matches).Some? ==> Listed(matches, choose(matches).value)) ==>
      var r := SelectMatch(matches, interactive, choose);
      r.Some? ==> Listed(matches, r.value)
  {
    if matches != [] {
      assert matches[0].slug == matches[0].slug;
    }
  }

  /** Off a terminal the answer is always the first match's slug. */
  lemma SelectMatchNonInteractive(matches: seq<SearchMatch>, choose: seq<SearchMatch> -> Option<string>)
    requires matches != []
    ensures SelectMatch(matches, false, choose) == Some(matches[0].slug)
  {
  }
}
