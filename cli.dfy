/** The command-line entry point, caniuse/cli.py: the query text, the choice
    of the feature slug and the dispatch between the basic and the full
    mode. The search (fetching and parsing the search page), the fetch of
    the feature page and the selector are parameters; what `main` prints
    and how it exits is the returned `Outcome`. */
module Cli {
  import opened Wrappers
  import opened Strings
  import opened Model
  import opened Exceptions
  import opened Select
  import opened ParseFeature
  import RenderBasic

  /** The query: the arguments joined by single spaces, then stripped. */
  function QueryText(words: seq<string>): string {
    Strip(Join(" ", words))
  }

  /** The query has no surrounding white space, and a single clean word is
      the query itself. */
  lemma QueryTextShape(words: seq<string>)
    ensures var q := QueryText(words); q == [] || (!IsSpace(q[0]) && !IsSpace(q[|q| - 1]))
    ensures |words| == 1 && (words[0] == [] || (!IsSpace(words[0][0]) && !IsSpace(words[0][|words[0]| - 1]))) ==>
      QueryText(words) == words[0]
  {
    if |words| == 1 && (words[0] == [] || (!IsSpace(words[0][0]) && !IsSpace(words[0][|words[0]| - 1]))) {
      StripClean(words[0]);
    }
  }

  function NoMatchesLine(query: string): string {
    "No matches found for query: " + query
  }

  /** The index of the first match whose slug is `key`, searching from `from`. */
  function FindSlug(matches: seq<SearchMatch>, key: string, from: nat): (r: Option<nat>)
    requires from <= |matches|
    ensures r.Some? ==> (from <= r.value < |matches| && matches[r.value].slug == key
      && forall j :: from <= j < r.value ==> matches[j].slug != key)
    ensures r.None? ==> forall j :: from <= j < |matches| ==> matches[j].slug != key
    decreases |matches| - from
  {
    if from == |matches| then None
    else if matches[from].slug == key then Some(from)
    else FindSlug(matches, key, from + 1)
  }

  /** The outcome of choosing a slug. */
  datatype Resolution = NoMatches | Chosen(slug: string) | Cancelled

  /** The slug-resolution chain of `main`: no matches stops; the first match
      whose slug is the lower-cased query wins; a single match is taken;
      otherwise the selector decides, and no answer stops. */
  function Resolve(matches: seq<SearchMatch>, query: string, interactive: bool,
                   choose: seq<SearchMatch> -> Option<string>): Resolution
  {
    if matches == [] then NoMatches
    else
      var exact := FindSlug(matches, Lower(query), 0);
      if exact.Some? then Chosen(matches[exact.value].slug)
      else if |matches| == 1 then Chosen(matches[0].slug)
      else
        var slug := SelectMatch(matches, interactive, choose);
        if slug.None? then Cancelled else Chosen(slug.value)
  }

  /** No matches stops the run, and only then. */
  lemma ResolveNoMatches(matches: seq<SearchMatch>, query: string, interactive: bool,
                         choose: seq<SearchMatch> -> Option<string>)
    ensures Resolve(matches, query, interactive, choose) == NoMatches <==> matches == []
  {
  }

  /** A match whose slug is the lower-cased query wins, the first one when
      there are several, and the selector is not consulted. */
  lemma ResolveExactWins(matches: seq<SearchMatch>, query: string, interactive: bool,
                         choose: seq<SearchMatch> -> Option<string>, k: nat)
    requires k < |matches| && matches[k].slug == Lower(query)
    ensures Resolve(matches, query, interactive, choose) == Chosen(Lower(query))
  {
    var exact := FindSlug(matches, Lower(query), 0);
    assert exact.Some?;
  }

  /** Without an exact match the selector decides exactly when there are
      several matches; the run is cancelled only when it was asked and gave
      no answer. */
  lemma ResolveWithoutExact(matches: seq<SearchMatch>, query: string, interactive: bool,
                            choose: seq<SearchMatch> -> Option<string>)
    requires matches != []
    requires forall i :: 0 <= i < |matches| ==> matches[i].slug != Lower(query)
    ensures |matches| == 1 ==> Resolve(matches, query, interactive, choose) == Chosen(matches[0].slug)
    ensures |matches| > 1 ==>
      (Resolve(matches, query, interactive, choose) == Cancelled <==> interactive && choose(matches).None?)
  {
    var exact := FindSlug(matches, Lower(query), 0);
    assert exact.None?;
  }

  /** The chosen slug is a match's slug whenever the selector only answers
      with those. */
  lemma ResolveChoosesListed(matches: seq<SearchMatch>, query: string, interactive: bool,
                             choose: seq<SearchMatch> -> Option<string>)
    requires choose(matches).Some? ==> Listed(matches, choose(matches).value)
    ensures var r := Resolve(matches, query, interactive, choose);
      r.Chosen? ==> Listed(matches, r.slug)
  {
    if matches != [] {
      var exact := FindSlug(matches, Lower(query), 0);
      if exact.Some? {
        assert matches[exact.value].slug == matches[exact.value].slug;
      } else {
        SelectMatchChoice(matches, interactive, choose);
      }
    }
  }

  /** What `main` does, as seen from outside: it exits with a code after
      printing some lines, fails with a message (the `ClickException`), prints
      the basic panel, or hands the full record to the full-screen viewer. */
  datatype Outcome =
    | Exit(code: int, printed: seq<string>)
    | Failure(message: string)
    | ShownBasic(printed: seq<string>, basic: FeatureBasic, panel: RenderBasic.Panel)
    | ShownFull(printed: seq<string>, full: FeatureFull)

  /** The warning printed before the feature when the parser reported any. */
  function WarningLines(warnings: seq<string>): seq<string> {
    if warnings != [] then [ParseWarningLine] else []
  }

  /** What `main` shows for the fetched page of `slug`: in full mode the
      full record of the page (its notes, resources, sub-features and tabs),
      in basic mode the basic record and its panel, each after the
      parse-warning line when the parser reported a warning. */
  predicate Shows(outcome: Outcome, page: FeaturePage, slug: string, fullMode: bool, fmt: real -> string) {
    if fullMode then
      && outcome.ShownFull?
      && ParsedBasic(outcome.full.basic, page, slug, true)
      && outcome.full.notesText == page.notes
      && outcome.full.resources == AnchorLinks(page.resourceAnchors)
      && outcome.full.subfeatures == SubfeatureLinks(page.dls)
      && outcome.full.tabs == Tabs(page.notes, outcome.full.resources, outcome.full.subfeatures)
      && outcome.printed == WarningLines(outcome.full.basic.parseWarnings)
    else
      && outcome.ShownBasic?
      && ParsedBasic(outcome.basic, page, slug, false)
      && outcome.printed == WarningLines(outcome.basic.parseWarnings)
      && outcome.panel.title == "/" + slug
      && outcome.panel.lines == RenderBasic.BasicLines(outcome.basic, fmt)
  }

  /** The end of `main` once the page is fetched: parse it in the chosen
      mode, emit the warning line when needed, and show the feature. */
  method Show(page: FeaturePage, slug: string, fullMode: bool, fmt: real -> string) returns (outcome: Outcome)
    ensures Shows(outcome, page, slug, fullMode, fmt)
  {
    if fullMode {
      var full := ParseFeatureFull(page, slug);
      return ShownFull(WarningLines(full.basic.parseWarnings), full);
    }
    var basic := ParseFeatureBasic(page, slug);
    var panel := RenderBasic.Render(basic, fmt);
    outcome := ShownBasic(WarningLines(basic.parseWarnings), basic, panel);
  }

  /** What `main` does for a query: a failed search fails with the error's
      message; no matches exits with code 1 after saying so; a cancelled
      choice exits with code 1; a failed fetch of the chosen page fails with
      the error's message; otherwise the page is shown in the chosen mode. */
  predicate Runs(outcome: Outcome, query: string, fullMode: bool,
                 search: string -> Result<seq<SearchMatch>, CustomError>,
                 interactive: bool, choose: seq<SearchMatch> -> Option<string>,
                 fetch: string -> Result<FeaturePage, CustomError>, fmt: real -> string)
  {
    match search(query)
    case Err(e) => outcome == Failure(Message(e))
    case Ok(matches) =>
      match Resolve(matches, query, interactive, choose)
      case NoMatches => outcome == Exit(1, [NoMatchesLine(query)])
      case Cancelled => outcome == Exit(1, [])
      case Chosen(slug) =>
        match fetch(slug)
        case Err(e) => outcome == Failure(Message(e))
        case Ok(page) => Shows(outcome, page, slug, fullMode, fmt)
  }

  /** `main`. `search` fetches and parses the search page for a query,
      `fetch` fetches and parses a feature page; either may fail with an
      error whose message becomes the failure. */
  method Entry(words: seq<string>, fullMode: bool,
               search: string -> Result<seq<SearchMatch>, CustomError>,
               interactive: bool, choose: seq<SearchMatch> -> Option<string>,
               fetch: string -> Result<FeaturePage, CustomError>,
               fmt: real -> string)
    returns (outcome: Outcome)
    ensures Runs(outcome, QueryText(words), fullMode, search, interactive, choose, fetch, fmt)
  {
    outcome := Run(QueryText(words), fullMode, search, interactive, choose, fetch, fmt);
  }

  /** `main` from the query text on. */
  method Run(query: string, fullMode: bool,
             search: string -> Result<seq<SearchMatch>, CustomError>,
             interactive: bool, choose: seq<SearchMatch> -> Option<string>,
             fetch: string -> Result<FeaturePage, CustomError>,
             fmt: real -> string)
    returns (outcome: Outcome)
    ensures Runs(outcome, query, fullMode, search, interactive, choose, fetch, fmt)
  {
    var found := search(query);
    if found.Err? {
      return Failure(Message(found.error));
    }
    var matches := found.value;
    if matches == [] {
      return Exit(1, [NoMatchesLine(query)]);
    }
    var exact := FindSlug(matches, Lower(query), 0);
    var slug: Option<string>;
    if exact.Some? {
      slug := Some(matches[exact.value].slug);
    } else if |matches| == 1 {
      slug := Some(matches[0].slug);
    } else {
      slug := SelectMatch(matches, interactive, choose);
      if slug.None? {
        return Exit(1, []);
      }
    }
    var page := fetch(slug.value);
    if page.Err? {
      return Failure(Message(page.error));
    }
    outcome := Show(page.value, slug.value, fullMode, fmt);
  }

  /** The parse warning is printed exactly when the shown feature has no
      support blocks, in both modes. */
  lemma WarningIffNoBlocks(blocks: seq<BrowserSupportBlock>)
    ensures WarningLines(Warnings(blocks)) == [ParseWarningLine] <==> blocks == []
    ensures WarningLines(Warnings(blocks)) == [] <==> blocks != []
  {
  }
}
