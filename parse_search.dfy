/** The search-result rules of caniuse/parse_search.py.

    The search page is given by what the selectors find in it: the anchors of
    each primary container selector, in selector order; every anchor of the
    page, for the fallback strategy; and the query the page was made for
    (its extraction from the page is not part of this model). */
module ParseSearch {
  import opened Wrappers
  import opened Strings
  import opened Html
  import opened Dedup
  import opened Lists
  import opened Model
  import opened Http

  /** Hrefs under these prefixes are site pages, not features. */
  const IgnoredPrefixes: seq<string> :=
    ["/ciu/", "/issue-list", "/about", "/news", "/compare", "/process/", "/usage-table", "/stats", "/support/"]

  predicate IsSlugChar(c: char) {
    'a' <= c <= 'z' || '0' <= c <= '9' || c == '_' || c == '-'
  }

  /** A full match of `^[a-z0-9_-]+$`. */
  predicate SlugShaped(s: string) {
    |s| > 0 && forall i :: 0 <= i < |s| ==> IsSlugChar(s[i])
  }

  predicate HasIgnoredPrefix(href: string) {
    exists i :: 0 <= i < |IgnoredPrefixes| && StartsWith(href, IgnoredPrefixes[i])
  }

  /** The guards in front of slug extraction: a non-empty site-local path
      without a query string, outside the ignored site sections. */
  predicate LocalPath(href: string) {
    href != "" && !StartsWith(href, "http://") && !StartsWith(href, "https://")
    && '?' !in href && StartsWith(href, "/") && !HasIgnoredPrefix(href)
  }

  /** `_slug_from_href`. */
  function SlugFromHref(href: Option<string>): (r: Option<string>)
    ensures href.None? || href.value == "" ==> r.None?
    ensures href.Some? && (StartsWith(href.value, "http://") || StartsWith(href.value, "https://")) ==> r.None?
    ensures href.Some? && '?' in href.value ==> r.None?
    ensures href.Some? && !StartsWith(href.value, "/") ==> r.None?
    ensures href.Some? && HasIgnoredPrefix(href.value) ==> r.None?
    ensures r.Some? <==> href.Some? && LocalPath(href.value) && SlugShaped(Lower(StripChar(href.value, '/')))
    ensures r.Some? ==> SlugShaped(r.value) && r.value == Lower(StripChar(href.value, '/'))
  {
    if href.None? || !LocalPath(href.value) then None
    else
      var slug := Lower(StripChar(href.value, '/'));
      if slug == "" || !SlugShaped(slug) then None else Some(slug)
  }

  /** Lower-casing leaves a slug unchanged. */
  lemma LowerSlug(s: string)
    requires SlugShaped(s)
    ensures Lower(s) == s
  {
    var l := Lower(s);
    forall i | 0 <= i < |s| ensures l[i] == s[i] {
      assert IsSlugChar(s[i]);
    }
  }

  lemma DropLeadingSlash(s: string, tail: string)
    requires SlugShaped(s) && (tail == "" || tail == "/")
    ensures DropLeading("/" + s + tail, '/') == s + tail
  {
    var t := s + tail;
    assert t[0] != '/' by {
      assert t[0] == s[0] && IsSlugChar(s[0]);
    }
    assert DropLeading(t, '/') == t;
    var u := "/" + s + tail;
    assert u[0] == '/' && u[1..] == t;
  }

  lemma DropTrailingSlash(s: string, tail: string)
    requires SlugShaped(s) && (tail == "" || tail == "/")
    ensures DropTrailing(s + tail, '/') == s
  {
    assert IsSlugChar(s[|s| - 1]);
    if tail == "/" {
      assert (s + tail)[..|s|] == s;
    } else {
      assert s + tail == s;
    }
  }

  /** A slug has no slash, so stripping the slashes around "/" + slug gives it back. */
  lemma StripSlashesAround(s: string, tail: string)
    requires SlugShaped(s) && (tail == "" || tail == "/")
    ensures StripChar("/" + s + tail, '/') == s
  {
    DropLeadingSlash(s, tail);
    DropTrailingSlash(s, tail);
  }

  /** A slug holds no '?'. */
  lemma NoQueryMark(s: string, lead: string, tail: string)
    requires SlugShaped(s) && (lead == "" || lead == "/") && (tail == "" || tail == "/")
    ensures '?' !in lead + s + tail
  {
    var h := lead + s + tail;
    forall i | 0 <= i < |h| ensures h[i] != '?' {
      if |lead| <= i < |lead| + |s| {
        assert h[i] == s[i - |lead|];
        assert IsSlugChar(s[i - |lead|]);
      }
    }
  }

  /** The href "/slug" (with or without a trailing slash) of a slug outside
      the ignored sections gives the slug back. */
  lemma SlugRoundTrip(s: string, tail: string)
    requires SlugShaped(s) && (tail == "" || tail == "/") && !HasIgnoredPrefix("/" + s + tail)
    ensures SlugFromHref(Some("/" + s + tail)) == Some(s)
  {
    var h := "/" + s + tail;
    assert LocalPath(h) by {
      NoQueryMark(s, "/", tail);
      assert h[0] == '/';
      assert !StartsWith(h, "http://") by {
        if |h| >= 7 { assert h[..7][0] == '/'; }
      }
      assert !StartsWith(h, "https://") by {
        if |h| >= 8 { assert h[..8][0] == '/'; }
      }
      assert StartsWith(h, "/") by { assert h[..1] == "/"; }
    }
    assert Lower(StripChar(h, '/')) == s by {
      StripSlashesAround(s, tail);
      LowerSlug(s);
    }
  }

  function SlugOf(m: SearchMatch): string { m.slug }

  // ---------------------------------------------------------------- page matches

  /** What one anchor contributes: a match when its href gives a slug and its
      text has at least three characters. */
  function AnchorMatch(anchor: Node): Option<SearchMatch> {
    var href := Attr(Some(anchor), "href");
    var slug := SlugFromHref(href);
    var title := NodeText(Some(anchor));
    if slug.Some? && slug.value != "" && |title| >= 3 then
      // A slug exists only for a non-empty href, so the source's fallback
      // href "/" + slug is never used.
      Some(SearchMatch(slug.value, title, href.value))
    else None
  }

  /** The matches of a list of anchors, in anchor order. */
  function AnchorMatches(anchors: seq<Node>): seq<SearchMatch> {
    FilterMap(anchors, AnchorMatch)
  }

  /** A match of a page anchor: a valid slug, a title of at least three
      characters, and an href that gives the slug back. */
  predicate ValidPageMatch(m: SearchMatch) {
    SlugShaped(m.slug) && |m.title| >= 3 && SlugFromHref(Some(m.href)) == Some(m.slug)
  }

  /** Every page match is valid, and the matches are exactly the
      contributions of the anchors that contribute one. */
  lemma AnchorMatchesExact(anchors: seq<Node>)
    ensures forall m :: m in AnchorMatches(anchors) ==> ValidPageMatch(m)
    ensures forall m :: m in AnchorMatches(anchors) <==> exists i :: 0 <= i < |anchors| && AnchorMatch(anchors[i]) == Some(m)
  {
    FilterMapExact(anchors, AnchorMatch);
    forall m | m in AnchorMatches(anchors) ensures ValidPageMatch(m) {
      var i := FilterMapSource(anchors, AnchorMatch, m);
    }
  }

  /** Strategy S1: the matches of the first container selector that yields any. */
  function FirstNonEmpty(groups: seq<seq<Node>>): seq<SearchMatch>
    decreases |groups|
  {
    if groups == [] then []
    else
      var m := AnchorMatches(groups[0]);
      if m != [] then m else FirstNonEmpty(groups[1..])
  }

  /** S1 yields the matches of one selector, every earlier selector yielding
      none; it yields nothing exactly when no selector yields anything. */
  lemma {:induction false} FirstNonEmptyPicks(groups: seq<seq<Node>>)
    ensures var r := FirstNonEmpty(groups);
      (r == [] <==> forall g :: 0 <= g < |groups| ==> AnchorMatches(groups[g]) == [])
      && (r != [] ==> exists g :: 0 <= g < |groups| && r == AnchorMatches(groups[g]) && forall j :: 0 <= j < g ==> AnchorMatches(groups[j]) == [])
    decreases |groups|
  {
    if groups != [] {
      FirstNonEmptyPicks(groups[1..]);
      var r := FirstNonEmpty(groups);
      if AnchorMatches(groups[0]) == [] {
        forall g | 1 <= g < |groups| ensures groups[g] == groups[1..][g - 1] { }
        if r != [] {
          var g :| 0 <= g < |groups[1..]| && r == AnchorMatches(groups[1..][g])
            && forall j :: 0 <= j < g ==> AnchorMatches(groups[1..][j]) == [];
          assert r == AnchorMatches(groups[g + 1]);
          forall j | 0 <= j < g + 1 ensures AnchorMatches(groups[j]) == [] {
            if j > 0 { assert groups[j] == groups[1..][j - 1]; }
          }
        }
      } else {
        assert r == AnchorMatches(groups[0]);
      }
    }
  }

  /** The page matches before de-duplication: S1, or S2 when S1 found nothing. */
  function PageMatches(groups: seq<seq<Node>>, anchors: seq<Node>): seq<SearchMatch> {
    var first := FirstNonEmpty(groups);
    if first != [] then first else AnchorMatches(anchors)
  }

  /** The anchor loop shared by S1 (per selector) and S2. */
  method MatchesOf(anchors: seq<Node>) returns (matches: seq<SearchMatch>)
    ensures matches == AnchorMatches(anchors)
  {
    matches := [];
    for i := 0 to |anchors|
      invariant matches == AnchorMatches(anchors[..i])
    {
      FilterMapPrefix(anchors, AnchorMatch, i);
      var anchor := anchors[i];
      var href := Attr(Some(anchor), "href");
      var slug := SlugFromHref(href);
      var title := NodeText(Some(anchor));
      if slug.Some? && slug.value != "" && |title| >= 3 {
        matches := matches + [SearchMatch(slug.value, title, href.value)];
      }
    }
    assert anchors[..|anchors|] == anchors;
  }

  /** Strategy S1: the container selectors in order, stopping at the first
      that yields matches. */
  method FirstStrategy(groups: seq<seq<Node>>) returns (matches: seq<SearchMatch>)
    ensures matches == FirstNonEmpty(groups)
  {
    matches := [];
    var g := 0;
    while g < |groups|
      invariant 0 <= g <= |groups|
      invariant matches == []
      invariant FirstNonEmpty(groups) == FirstNonEmpty(groups[g..])
    {
      matches := MatchesOf(groups[g]);
      if matches != [] {
        assert groups[g..][0] == groups[g];
        break;
      }
      assert groups[g..][1..] == groups[g + 1..];
      g := g + 1;
    }
  }

  /** The page strategies: S1, and S2 over every anchor when S1 found nothing. */
  method PageStrategies(groups: seq<seq<Node>>, anchors: seq<Node>) returns (matches: seq<SearchMatch>)
    ensures matches == PageMatches(groups, anchors)
    ensures forall m :: m in matches ==> ValidPageMatch(m)
  {
    AnchorMatchesExact(anchors);
    matches := FirstStrategy(groups);
    if matches == [] {
      matches := MatchesOf(anchors);
    } else {
      FirstNonEmptyPicks(groups);
      var g :| 0 <= g < |groups| && matches == AnchorMatches(groups[g])
        && forall j :: 0 <= j < g ==> AnchorMatches(groups[j]) == [];
      AnchorMatchesExact(groups[g]);
    }
  }

  // ---------------------------------------------------------------- de-duplication

  /** `_dedupe`: the first match of each slug, in order. */
  method Dedupe(matches: seq<SearchMatch>) returns (output: seq<SearchMatch>)
    ensures output == UniqueBy(matches, SlugOf)
    ensures forall i, j :: 0 <= i < j < |output| ==> output[i].slug != output[j].slug
    ensures IsSubseq(output, matches)
    ensures KeysOf(output, SlugOf) == KeysOf(matches, SlugOf)
    ensures forall j :: 0 <= j < |matches| && IsFirst(matches, j, SlugOf) ==> matches[j] in output
    ensures PicksFirsts(output, matches, FirstIndices(matches, SlugOf), SlugOf)
  {
    var seen: set<string> := {};
    output := [];
    for i := 0 to |matches|
      invariant output == UniqueBy(matches[..i], SlugOf)
      invariant seen == KeysOf(matches[..i], SlugOf)
    {
      var item := matches[i];
      DedupeStep(matches, i);
      if item.slug in seen {
        continue;
      }
      seen := seen + {item.slug};
      output := output + [item];
    }
    assert matches[..|matches|] == matches;
    UniqueByDistinct(matches, SlugOf);
    UniqueBySubseq(matches, SlugOf);
    UniqueByKeys(matches, SlugOf);
    UniqueByKeepsFirsts(matches, SlugOf);
    UniqueByOrder(matches, SlugOf);
  }

  lemma DedupeStep(matches: seq<SearchMatch>, i: int)
    requires 0 <= i < |matches|
    ensures var p := matches[..i];
      var x := matches[i];
      UniqueBy(matches[..i + 1], SlugOf) == UniqueBy(p, SlugOf) + (if x.slug in KeysOf(p, SlugOf) then [] else [x])
      && KeysOf(matches[..i + 1], SlugOf) == KeysOf(p, SlugOf) + {x.slug}
  {
    assert matches[..i + 1] == matches[..i] + [matches[i]];
    UniqueBySnoc(matches[..i], matches[i], SlugOf);
    KeysOfSnoc(matches[..i], matches[i], SlugOf);
  }

  // ---------------------------------------------------------------- API matches

  /** The search and data backends of the site. Their addresses are not part
      of this model. */
  datatype Backend = Backend(searchQueryUrl: string, featureDataUrl: string)

  /** The normalised (id, title) of one "fullData" entry, when it is an object
      with a string id and a string title that are not blank. */
  function EntryTitle(entry: Json): Option<(string, string)> {
    if !entry.JObject? then None
    else
      var id := Lookup(entry.fields, "id");
      var title := Lookup(entry.fields, "title");
      if !id.JString? || !title.JString? then None
      else
        var normalizedId := CleanId(id.s);
        var normalizedTitle := Strip(title.s);
        if normalizedId != "" && normalizedTitle != "" then Some((normalizedId, normalizedTitle)) else None
  }

  /** The "fullData" list of a support-data payload, or nothing. */
  function FullData(payload: map<string, Json>): seq<Json> {
    var fullData := Lookup(payload, "fullData");
    if fullData.JArray? then fullData.items else []
  }

  /** The title of every id, later entries overriding earlier ones; `titled`
      reads the (id, title) of one entry, if it has one. */
  function TitleMap<T>(entries: seq<T>, titled: T -> Option<(string, string)>): map<string, string>
    decreases |entries|
  {
    if entries == [] then map[]
    else
      var titles := TitleMap(entries[..|entries| - 1], titled);
      var e := titled(entries[|entries| - 1]);
      if e.Some? then titles[e.value.0 := e.value.1] else titles
  }

  /** Entry `i` has a title for `id`. */
  predicate Names<T>(entries: seq<T>, titled: T -> Option<(string, string)>, i: int, id: string)
    requires 0 <= i < |entries|
  {
    titled(entries[i]).Some? && titled(entries[i]).value.0 == id
  }

  lemma TitleMapPrefix<T>(entries: seq<T>, titled: T -> Option<(string, string)>, i: int)
    requires 0 <= i < |entries|
    ensures var e := titled(entries[i]);
      TitleMap(entries[..i + 1], titled)
        == if e.Some? then TitleMap(entries[..i], titled)[e.value.0 := e.value.1] else TitleMap(entries[..i], titled)
  {
    assert entries[..i + 1][..i] == entries[..i];
  }

  /** An id has a title exactly when some entry names it. */
  lemma {:induction false} TitleMapKeys<T>(entries: seq<T>, titled: T -> Option<(string, string)>)
    ensures forall id :: id in TitleMap(entries, titled) <==> exists i :: 0 <= i < |entries| && Names(entries, titled, i, id)
    decreases |entries|
  {
    if entries != [] {
      var n := |entries| - 1;
      var p := entries[..n];
      TitleMapKeys(p, titled);
      forall id ensures id in TitleMap(entries, titled) <==> exists i :: 0 <= i < |entries| && Names(entries, titled, i, id) {
        assert id in TitleMap(entries, titled) <==> id in TitleMap(p, titled) || Names(entries, titled, n, id);
        if exists i :: 0 <= i < |p| && Names(p, titled, i, id) {
          var i :| 0 <= i < |p| && Names(p, titled, i, id);
          assert p[i] == entries[i];
          assert Names(entries, titled, i, id);
        }
        if exists i :: 0 <= i < |entries| && Names(entries, titled, i, id) {
          var i :| 0 <= i < |entries| && Names(entries, titled, i, id);
          if i < n {
            assert p[i] == entries[i];
            assert Names(p, titled, i, id);
          }
        }
      }
    }
  }

  /** The title of an id is the one of the last entry naming it. */
  lemma {:induction false} TitleMapLastWins<T>(entries: seq<T>, titled: T -> Option<(string, string)>, i: int)
    requires 0 <= i < |entries| && titled(entries[i]).Some?
    requires forall j :: i < j < |entries| ==> !Names(entries, titled, j, titled(entries[i]).value.0)
    ensures titled(entries[i]).value.0 in TitleMap(entries, titled)
    ensures TitleMap(entries, titled)[titled(entries[i]).value.0] == titled(entries[i]).value.1
    decreases |entries|
  {
    var n := |entries| - 1;
    var p := entries[..n];
    var id := titled(entries[i]).value.0;
    if i < n {
      assert p[i] == entries[i];
      forall j | i < j < |p| ensures !Names(p, titled, j, id) {
        assert p[j] == entries[j];
        assert !Names(entries, titled, j, id);
      }
      TitleMapLastWins(p, titled, i);
      assert !Names(entries, titled, n, id);
    }
  }

  /** The API match of one id: its title from the map, or the id itself. */
  function ApiMatch(id: string, titles: map<string, string>): SearchMatch {
    SearchMatch(id, if id in titles && titles[id] != "" then titles[id] else id, "/" + id)
  }

  /** The API matches of the ids that are slug-shaped, in id order. */
  function ApiMatches(ids: seq<string>, titles: map<string, string>): seq<SearchMatch>
    decreases |ids|
  {
    if ids == [] then []
    else
      var id := ids[|ids| - 1];
      ApiMatches(ids[..|ids| - 1], titles) + (if SlugShaped(id) then [ApiMatch(id, titles)] else [])
  }

  /** What an API match looks like: a slug-shaped slug, the href "/" + slug,
      a title that is not empty. */
  predicate ApiShaped(m: SearchMatch) {
    SlugShaped(m.slug) && m.href == "/" + m.slug && m.title != ""
  }

  /** The API matches are exactly the slug-shaped ids, each with the href
      "/" + id and the mapped title or else the id. */
  lemma {:induction false} ApiMatchesExact(ids: seq<string>, titles: map<string, string>)
    ensures forall m :: m in ApiMatches(ids, titles) ==> ApiShaped(m) && m.slug in ids && m == ApiMatch(m.slug, titles)
    ensures forall id :: id in ids && SlugShaped(id) ==> ApiMatch(id, titles) in ApiMatches(ids, titles)
    decreases |ids|
  {
    if ids != [] {
      var p := ids[..|ids| - 1];
      ApiMatchesExact(p, titles);
      assert ids == p + [ids[|ids| - 1]];
    }
  }

  /** The title loop of `_parse_api_matches`. */
  method TitlesById(payload: map<string, Json>) returns (titles: map<string, string>)
    ensures titles == TitleMap(FullData(payload), EntryTitle)
  {
    titles := map[];
    var fullData := Lookup(payload, "fullData");
    if !fullData.JArray? {
      return;
    }
    var entries := fullData.items;
    for i := 0 to |entries|
      invariant titles == TitleMap(entries[..i], EntryTitle)
    {
      TitleMapPrefix(entries, EntryTitle, i);
      var entry := entries[i];
      if !entry.JObject? {
        continue;
      }
      var id := Lookup(entry.fields, "id");
      var title := Lookup(entry.fields, "title");
      if !id.JString? || !title.JString? {
        continue;
      }
      var normalizedId := CleanId(id.s);
      var normalizedTitle := Strip(title.s);
      if normalizedId != "" && normalizedTitle != "" {
        titles := titles[normalizedId := normalizedTitle];
      }
    }
    assert entries[..|entries|] == entries;
  }

  /** The match loop of `_parse_api_matches`. */
  method ApiMatchList(ids: seq<string>, titles: map<string, string>) returns (matches: seq<SearchMatch>)
    ensures matches == ApiMatches(ids, titles)
    ensures forall m :: m in matches ==> ApiShaped(m) && m.slug in ids
  {
    ApiMatchesExact(ids, titles);
    matches := [];
    for i := 0 to |ids|
      invariant matches == ApiMatches(ids[..i], titles)
    {
      assert ids[..i + 1][..i] == ids[..i];
      var id := ids[i];
      if !SlugShaped(id) {
        continue;
      }
      var title := if id in titles && titles[id] != "" then titles[id] else id;
      matches := matches + [SearchMatch(id, title, "/" + id)];
    }
    assert ids[..|ids|] == ids;
  }

  /** The API matches and the requests sent for them. */
  datatype ApiFetched = ApiFetched(matches: seq<SearchMatch>, sent: seq<Request>)

  /** The ids of a search fetch's result: none when it failed. */
  function SearchIdsFrom(url: string, decode: string -> Option<Json>, body: Result<string, HttpError>): Result<seq<string>, HttpError> {
    if body.Ok? then SearchIdsOf(url, decode(body.value)) else Err(body.error)
  }

  /** The payload of a support-data fetch's result. */
  function SupportPayloadFrom(url: string, decode: string -> Option<Json>, body: Result<string, HttpError>): Result<map<string, Json>, HttpError> {
    if body.Ok? then SupportPayloadOf(url, decode(body.value)) else Err(body.error)
  }

  /** The titles a support-data fetch's result gives: those of its
      "fullData" entries, or none when it failed. */
  function SupportTitles(url: string, decode: string -> Option<Json>, body: Result<string, HttpError>): map<string, string> {
    var payload := SupportPayloadFrom(url, decode, body);
    TitleMap(FullData(if payload.Ok? then payload.value else map[]), EntryTitle)
  }

  /** `_parse_api_matches` given `f`, the fetch of the backend's ids for the
      query, and `a`, the support-data attempt that follows it: when the ids
      fetch fails or finds nothing, no matches and nothing more sent;
      otherwise one support-data request for those ids, whose "fullData"
      entries title them, and no titles (each match titled by its id) when
      that request fails. */
  function ApiFetch(backend: Backend, decode: string -> Option<Json>, f: Fetched, a: Attempted): ApiFetched {
    var ids := SearchIdsFrom(backend.searchQueryUrl, decode, f.result);
    if ids.Err? || ids.value == [] then ApiFetched([], f.sent)
    else
      ApiFetched(ApiMatches(ids.value, SupportTitles(backend.featureDataUrl, decode, a.result)),
                 f.sent + SupportSent(backend.featureDataUrl, ids.value, a.sends))
  }

  /** The support-data requests for `ids`: `sends` copies of the form POST. */
  function SupportSent(url: string, ids: seq<string>, sends: nat): seq<Request> {
    Repeat(Request(Post, url, SupportForm(ids, [])), sends)
  }

  /** `matches` are what `_parse_api_matches` returns for `query`, and
      `after` the request log once it has sent its requests after `before`,
      the transport playing `plan`: the id fetch from the next planned outcome
      on, then `ApiFetch` of it and of the support-data attempt that follows. */
  predicate ApiParsed(backend: Backend, decode: string -> Option<Json>, query: string, plan: nat -> Outcome,
                      before: seq<Request>, after: seq<Request>, matches: seq<SearchMatch>) {
    ApiFollows(backend, decode, FetchHtmlSpec(backend.searchQueryUrl, map["search" := query], false, plan, |before|),
               plan, before, after, matches)
  }

  /** `matches` and `after` are what follows the id fetch `f` made after
      `before`: `ApiFetch` of it and of the support-data attempt after it. */
  predicate ApiFollows(backend: Backend, decode: string -> Option<Json>, f: Fetched, plan: nat -> Outcome,
                       before: seq<Request>, after: seq<Request>, matches: seq<SearchMatch>) {
    var r := ApiFetch(backend, decode, f, Attempt(backend.featureDataUrl, plan, |before| + |f.sent|));
    matches == r.matches && after == before + r.sent
  }

  /** `_parse_api_matches`. */
  method ParseApiMatches(t: Transport, backend: Backend, decode: string -> Option<Json>, query: string)
    returns (matches: seq<SearchMatch>)
    modifies t
    ensures ApiParsed(backend, decode, query, t.plan, old(t.sent), t.sent, matches)
  {
    ghost var f := FetchHtmlSpec(backend.searchQueryUrl, map["search" := query], false, t.plan, |old(t.sent)|);
    var ids := FetchSearchFeatureIds(t, backend.searchQueryUrl, query, decode);
    if ids.Err? || ids.value == [] {
      matches := [];
      ApiFollowsNoIds(backend, decode, f, t.plan, old(t.sent), t.sent, matches);
      return;
    }
    SearchIdsNormalized(backend.searchQueryUrl, decode(f.result.value));
    ghost var s1 := t.sent;
    matches := TitledMatches(t, backend, decode, ids.value);
    ApiFollowsIds(backend, decode, f, t.plan, old(t.sent), s1, t.sent, ids.value, matches);
  }

  /** Without ids, nothing follows the id fetch. */
  lemma ApiFollowsNoIds(backend: Backend, decode: string -> Option<Json>, f: Fetched, plan: nat -> Outcome,
                        before: seq<Request>, after: seq<Request>, matches: seq<SearchMatch>)
    requires var ids := SearchIdsFrom(backend.searchQueryUrl, decode, f.result);
      ids.Err? || ids.value == []
    requires matches == [] && after == before + f.sent
    ensures ApiFollows(backend, decode, f, plan, before, after, matches)
  {
    ApiFetchNoIds(backend, decode, f, Attempt(backend.featureDataUrl, plan, |before| + |f.sent|));
  }

  /** With ids, the titled matches and the support-data request follow the
      id fetch. */
  lemma ApiFollowsIds(backend: Backend, decode: string -> Option<Json>, f: Fetched, plan: nat -> Outcome,
                      before: seq<Request>, mid: seq<Request>, after: seq<Request>, ids: seq<string>,
                      matches: seq<SearchMatch>)
    requires SearchIdsFrom(backend.searchQueryUrl, decode, f.result) == Ok(ids) && ids != []
    requires mid == before + f.sent
    requires var a := Attempt(backend.featureDataUrl, plan, |mid|);
      && matches == ApiMatches(ids, SupportTitles(backend.featureDataUrl, decode, a.result))
      && after == mid + SupportSent(backend.featureDataUrl, ids, a.sends)
    ensures ApiFollows(backend, decode, f, plan, before, after, matches)
  {
    var a := Attempt(backend.featureDataUrl, plan, |mid|);
    var tail := SupportSent(backend.featureDataUrl, ids, a.sends);
    ApiFetchIds(backend, decode, f, a, ids, SupportTitles(backend.featureDataUrl, decode, a.result), matches, tail);
    Lists.Regroup(before, f.sent, tail);
  }

  /** The second half of `_parse_api_matches`, for ids that are already
      normalised and not empty: one support-data request for them, its
      "fullData" titles (none when the request fails), and the match list. */
  method TitledMatches(t: Transport, backend: Backend, decode: string -> Option<Json>, ids: seq<string>)
    returns (matches: seq<SearchMatch>)
    requires ids != [] && NormalizedIds(Some(ids)) == ids
    modifies t
    ensures var a := Attempt(backend.featureDataUrl, t.plan, |old(t.sent)|);
      && matches == ApiMatches(ids, SupportTitles(backend.featureDataUrl, decode, a.result))
      && t.sent == old(t.sent) + SupportSent(backend.featureDataUrl, ids, a.sends)
  {
    ghost var a := Attempt(backend.featureDataUrl, t.plan, |old(t.sent)|);
    assert NormalizedIds(None) == [];
    var payload := FetchSupportData(t, backend.featureDataUrl, Some(ids), None, decode);
    SupportFetchOfIds(backend.featureDataUrl, ids, t.plan, decode, old(t.sent), t.sent, payload);
    var fields := if payload.Ok? then payload.value else map[];
    var titles := TitlesById(fields);
    matches := ApiMatchList(ids, titles);
  }

  /** `fetch_support_data` for ids that are already normalised: one support
      request for exactly those ids, and its payload. */
  lemma SupportFetchOfIds(url: string, ids: seq<string>, plan: nat -> Outcome, decode: string -> Option<Json>,
                          before: seq<Request>, after: seq<Request>, r: Result<map<string, Json>, HttpError>)
    requires ids != [] && NormalizedIds(Some(ids)) == ids
    requires var fullIds := NormalizedIds(Some(ids));
      var metaIds := NormalizedIds(None);
      if fullIds == [] && metaIds == [] then
        r == Ok(map[]) && after == before
      else
        var a := Attempt(url, plan, |before|);
        after == before + Repeat(Request(Post, url, SupportForm(fullIds, metaIds)), a.sends)
        && (a.result.Err? ==> r == Err(a.result.error))
        && (a.result.Ok? ==> r == SupportPayloadOf(url, decode(a.result.value)))
    ensures var a := Attempt(url, plan, |before|);
      && after == before + SupportSent(url, ids, a.sends)
      && r == SupportPayloadFrom(url, decode, a.result)
  {
    assert NormalizedIds(None) == [];
  }

  /** The API matches are exactly the slug-shaped ids the search backend
      returned, in id order, each with the href "/" + id and titled from the
      support data (or by its id); without ids there are none and nothing
      follows the id fetch. */
  lemma ApiFetchMatches(backend: Backend, decode: string -> Option<Json>, f: Fetched, a: Attempted)
    ensures var r := ApiFetch(backend, decode, f, a);
      var ids := SearchIdsFrom(backend.searchQueryUrl, decode, f.result);
      var titles := SupportTitles(backend.featureDataUrl, decode, a.result);
      && (forall m :: m in r.matches ==> ApiShaped(m))
      && (ids.Err? || ids.value == [] ==> r.matches == [] && r.sent == f.sent)
      && (ids.Ok? ==> forall m :: m in r.matches ==> m.slug in ids.value && m == ApiMatch(m.slug, titles))
      && (ids.Ok? ==> forall id :: id in ids.value && SlugShaped(id) ==> ApiMatch(id, titles) in r.matches)
      && (ids.Ok? && ids.value != [] ==> |r.sent| == |f.sent| + a.sends && r.sent[..|f.sent|] == f.sent)
  {
    var ids := SearchIdsFrom(backend.searchQueryUrl, decode, f.result);
    if ids.Ok? && ids.value != [] {
      ApiMatchesExact(ids.value, SupportTitles(backend.featureDataUrl, decode, a.result));
    }
  }

  /** Whatever `_parse_api_matches` returns is API-shaped. */
  lemma ApiParsedShaped(backend: Backend, decode: string -> Option<Json>, query: string, plan: nat -> Outcome,
                        before: seq<Request>, after: seq<Request>, matches: seq<SearchMatch>)
    requires ApiParsed(backend, decode, query, plan, before, after, matches)
    ensures forall m :: m in matches ==> ApiShaped(m)
  {
    var f := FetchHtmlSpec(backend.searchQueryUrl, map["search" := query], false, plan, |before|);
    ApiFollowsShaped(backend, decode, f, plan, before, after, matches);
  }

  lemma ApiFollowsShaped(backend: Backend, decode: string -> Option<Json>, f: Fetched, plan: nat -> Outcome,
                         before: seq<Request>, after: seq<Request>, matches: seq<SearchMatch>)
    requires ApiFollows(backend, decode, f, plan, before, after, matches)
    ensures forall m :: m in matches ==> ApiShaped(m)
  {
    ApiFetchShaped(backend, decode, f, Attempt(backend.featureDataUrl, plan, |before| + |f.sent|), matches);
  }

  lemma ApiFetchShaped(backend: Backend, decode: string -> Option<Json>, f: Fetched, a: Attempted, matches: seq<SearchMatch>)
    requires matches == ApiFetch(backend, decode, f, a).matches
    ensures forall m :: m in matches ==> ApiShaped(m)
  {
    ApiFetchMatches(backend, decode, f, a);
  }

  /** Without ids, nothing follows the id fetch. */
  lemma ApiFetchNoIds(backend: Backend, decode: string -> Option<Json>, f: Fetched, a: Attempted)
    requires var ids := SearchIdsFrom(backend.searchQueryUrl, decode, f.result);
      ids.Err? || ids.value == []
    ensures ApiFetch(backend, decode, f, a) == ApiFetched([], f.sent)
  {
  }

  /** With ids, the support-data request follows the id fetch and its
      payload titles the ids. */
  lemma ApiFetchIds(backend: Backend, decode: string -> Option<Json>, f: Fetched, a: Attempted,
                    ids: seq<string>, titles: map<string, string>, matches: seq<SearchMatch>, tail: seq<Request>)
    requires SearchIdsFrom(backend.searchQueryUrl, decode, f.result) == Ok(ids) && ids != []
    requires titles == SupportTitles(backend.featureDataUrl, decode, a.result)
    requires matches == ApiMatches(ids, titles) && tail == SupportSent(backend.featureDataUrl, ids, a.sends)
    ensures ApiFetch(backend, decode, f, a) == ApiFetched(matches, f.sent + tail)
  {
  }

  // ---------------------------------------------------------------- results

  /** The final merge: API matches before page matches, then de-duplication,
      so that an API match wins a slug collision. */
  function MergeMatches(api: seq<SearchMatch>, page: seq<SearchMatch>): seq<SearchMatch> {
    if api != [] then UniqueBy(api + page, SlugOf) else UniqueBy(page, SlugOf)
  }

  /** The merged list starts with the API matches (de-duplicated); no later
      match shares a slug with an API match; no slug of either list is lost;
      and slugs are pairwise distinct. */
  lemma MergeApiFirst(api: seq<SearchMatch>, page: seq<SearchMatch>)
    ensures var r := MergeMatches(api, page);
      var ra := UniqueBy(api, SlugOf);
      |ra| <= |r| && r[..|ra|] == ra
      && (forall i :: |ra| <= i < |r| ==> r[i].slug !in KeysOf(api, SlugOf))
      && KeysOf(r, SlugOf) == KeysOf(api, SlugOf) + KeysOf(page, SlugOf)
      && (forall i, j :: 0 <= i < j < |r| ==> r[i].slug != r[j].slug)
  {
    var r := MergeMatches(api, page);
    if api == [] {
      assert api + page == page;
    }
    UniqueByAppend(api, page, SlugOf);
    UniqueByKeys(api + page, SlugOf);
    UniqueByDistinct(api + page, SlugOf);
    KeysOfAppend(api, page);
  }

  lemma KeysOfAppend(a: seq<SearchMatch>, b: seq<SearchMatch>)
    ensures KeysOf(a + b, SlugOf) == KeysOf(a, SlugOf) + KeysOf(b, SlugOf)
  {
    var s := a + b;
    forall k | k in KeysOf(s, SlugOf) ensures k in KeysOf(a, SlugOf) + KeysOf(b, SlugOf) {
      var i :| 0 <= i < |s| && SlugOf(s[i]) == k;
      if i < |a| { assert s[i] == a[i]; } else { assert s[i] == b[i - |a|]; }
    }
    forall k | k in KeysOf(a, SlugOf) + KeysOf(b, SlugOf) ensures k in KeysOf(s, SlugOf) {
      if k in KeysOf(a, SlugOf) {
        var i :| 0 <= i < |a| && SlugOf(a[i]) == k;
        assert s[i] == a[i];
      } else {
        var i :| 0 <= i < |b| && SlugOf(b[i]) == k;
        assert s[|a| + i] == b[i];
      }
    }
  }

  /** The search page as its selectors see it. */
  datatype SearchPage = SearchPage(groups: seq<seq<Node>>, anchors: seq<Node>, query: Option<string>)

  /** `parse_search_results`: page strategies, then the API matches of the
      page's query (only when it has one), then the merge. `api` is what
      the backend contributed. */
  method ParseSearchResults(t: Transport, backend: Backend, decode: string -> Option<Json>, page: SearchPage)
    returns (results: seq<SearchMatch>, ghost api: seq<SearchMatch>)
    modifies t
    ensures results == MergeMatches(api, PageMatches(page.groups, page.anchors))
    ensures forall m :: m in api ==> ApiShaped(m)
    ensures page.query.None? || page.query.value == "" ==> api == [] && t.sent == old(t.sent)
    ensures page.query.Some? && page.query.value != "" ==>
      ApiParsed(backend, decode, page.query.value, t.plan, old(t.sent), t.sent, api)
  {
    var matches := PageStrategies(page.groups, page.anchors);
    api := [];
    if page.query.Some? && page.query.value != "" {
      var apiMatches := ParseApiMatches(t, backend, decode, page.query.value);
      api := apiMatches;
      ApiParsedShaped(backend, decode, page.query.value, t.plan, old(t.sent), t.sent, api);
      if apiMatches != [] {
        results := Dedupe(apiMatches + matches);
        return;
      }
    }
    results := Dedupe(matches);
  }
}
