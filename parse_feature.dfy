/** The feature-page rules of caniuse/parse_feature.py.

    A feature page is given by what its selectors find: the title nodes, the
    specification link, the support lists with their heading and stat cells,
    the resource anchors and the children of every definition list. Usage
    numbers, description and notes are inputs: their extraction (percent
    parsing, markdown conversion) is not part of this model. */
module ParseFeature {
  import opened Wrappers
  import opened Strings
  import opened Text
  import opened Html
  import opened Dedup
  import opened Lists
  import opened Model

  /** One `.support-list`: its `h4.browser-heading`, if any, and its
      `ol > li.stat-cell` cells in document order. */
  datatype SupportList = SupportList(heading: Option<Node>, cells: seq<Node>)

  /** A child of a `dl`: a term, a definition with the anchors inside it, or
      any other node. */
  datatype DlChild = Dt(term: Node) | Dd(anchors: seq<Node>) | OtherChild

  datatype FeaturePage = FeaturePage(
    featureTitle: Option<Node>,
    titleTag: Option<Node>,
    spec: Option<Node>,
    usageSupported: Option<real>,
    usagePartial: Option<real>,
    usageTotal: Option<real>,
    description: string,
    supportLists: seq<SupportList>,
    notes: Option<string>,
    resourceAnchors: seq<Node>,
    dls: seq<seq<DlChild>>)

  /** A character of a URL scheme after its first letter. */
  predicate IsSchemeChar(c: char) {
    IsAlpha(c) || IsDigit(c) || c == '+' || c == '-' || c == '.'
  }

  /** The reference starts with a scheme and a ':', as "mailto:" or "https:". */
  predicate HasScheme(href: string) {
    exists k :: 0 < k < |href| && href[k] == ':' && IsAlpha(href[0])
      && forall j :: 0 < j < k ==> IsSchemeChar(href[j])
  }

  /** `urljoin(BASE_URL, href)`: a reference with a scheme is kept, a
      network-path reference "//host/..." takes the site's scheme, a path,
      query or fragment is appended to the site address, and any other
      relative reference is taken from the site root. */
  function SiteUrl(href: string): (r: string)
    ensures r != ""
  {
    if HasScheme(href) then href
    else if StartsWith(href, "//") then "https:" + href
    else if StartsWith(href, "/") || StartsWith(href, "?") || StartsWith(href, "#") then BaseUrl + href
    else BaseUrl + "/" + href
  }

  // ---------------------------------------------------------------- title

  const TitleSuffix: string := "| Can I use"

  /** `_parse_title`: the feature-title text, else the page title before the
      first "| Can I use" (stripped, and possibly empty), else the slug. */
  function ParseTitle(page: FeaturePage, slug: string): string {
    var title := NodeText(page.featureTitle);
    if title != "" then title
    else
      var fallback := NodeText(page.titleTag);
      if fallback != "" then Strip(BeforeFirst(fallback, TitleSuffix)) else slug
  }

  /** An occurrence inside a slice is an occurrence in the whole. */
  lemma ContainsSlice(s: string, lo: int, hi: int, t: string)
    requires 0 <= lo <= hi <= |s| && Contains(s[lo..hi], t)
    ensures Contains(s, t)
  {
    var u := s[lo..hi];
    var i :| 0 <= i <= |u| - |t| && OccursAt(u, t, i);
    forall k | 0 <= k < |t| ensures s[lo + i + k] == t[k] {
      assert u[i..i + |t|][k] == t[k];
    }
    assert s[lo + i..lo + i + |t|] == t;
    assert OccursAt(s, t, lo + i);
  }

  /** An occurrence in a prefix is an occurrence in the whole. */
  lemma OccursInPrefix(s: string, k: int, t: string, i: int)
    requires 0 <= k <= |s| && OccursAt(s[..k], t, i)
    ensures OccursAt(s, t, i)
  {
    assert s[..k][i..i + |t|] == s[i..i + |t|];
  }

  /** The title taken from the page title never holds the site suffix. */
  lemma TitleFallbackHasNoSuffix(fallback: string)
    ensures !Contains(Strip(BeforeFirst(fallback, TitleSuffix)), TitleSuffix)
  {
    var b := BeforeFirst(fallback, TitleSuffix);
    var lo := StripBounds(b);
    var r := Strip(b);
    if Contains(r, TitleSuffix) {
      ContainsSlice(b, lo, lo + |r|, TitleSuffix);
      var i :| 0 <= i <= |b| - |TitleSuffix| && OccursAt(b, TitleSuffix, i);
      assert b == fallback[..|b|];
      OccursInPrefix(fallback, |b|, TitleSuffix, i);
      assert false;
    }
  }

  /** The title is the feature title when there is one; otherwise the slug
      exactly when the page title is empty too; otherwise the page title up to
      the first site marker (all of it when there is none), stripped, which
      never leaves the marker in. */
  lemma TitleChoice(page: FeaturePage, slug: string)
    ensures NodeText(page.featureTitle) != "" ==> ParseTitle(page, slug) == NodeText(page.featureTitle)
    ensures NodeText(page.featureTitle) == "" && NodeText(page.titleTag) == "" ==> ParseTitle(page, slug) == slug
    ensures NodeText(page.featureTitle) == "" && NodeText(page.titleTag) != "" ==>
      var t := NodeText(page.titleTag);
      exists k :: (0 <= k <= |t| && ParseTitle(page, slug) == Strip(t[..k])
        && (forall j :: 0 <= j < k ==> !OccursAt(t, TitleSuffix, j))
        && (OccursAt(t, TitleSuffix, k) || (k == |t| && !Contains(t, TitleSuffix))))
    ensures NodeText(page.featureTitle) == "" && NodeText(page.titleTag) != "" ==>
      !Contains(ParseTitle(page, slug), TitleSuffix)
  {
    var t := NodeText(page.titleTag);
    TitleFallbackHasNoSuffix(t);
    if NodeText(page.featureTitle) == "" && t != "" {
      TitleFallbackCut(t, ParseTitle(page, slug));
    }
  }

  /** `split("| Can I use", maxsplit=1)[0].strip()` is the stripped prefix up
      to the first marker, or the whole string when there is none. */
  lemma TitleFallbackCut(t: string, title: string)
    requires title == Strip(BeforeFirst(t, TitleSuffix))
    ensures exists k :: (0 <= k <= |t| && title == Strip(t[..k])
      && (forall j :: 0 <= j < k ==> !OccursAt(t, TitleSuffix, j))
      && (OccursAt(t, TitleSuffix, k) || (k == |t| && !Contains(t, TitleSuffix))))
  {
    var b := BeforeFirst(t, TitleSuffix);
    var k := |b|;
    assert b == t[..k];
    assert OccursAt(t, TitleSuffix, k) || (k == |t| && !Contains(t, TitleSuffix));
  }

  // ---------------------------------------------------------------- specification

  /** A class token that can stand for a specification status. */
  predicate IsStatusToken(t: string) {
    t != "specification" && IsAlphaWord(t) && |t| <= 4
  }

  /** The first status token, upper-cased. */
  function FirstStatusToken(tokens: seq<string>): Option<string>
    decreases |tokens|
  {
    if tokens == [] then None
    else if IsStatusToken(tokens[0]) then Some(Upper(tokens[0]))
    else FirstStatusToken(tokens[1..])
  }

  /** The status is the upper-cased first status token; there is none
      exactly when no token is one. */
  lemma {:induction false} FirstStatusTokenPicks(tokens: seq<string>)
    ensures FirstStatusToken(tokens).None? <==> forall i :: 0 <= i < |tokens| ==> !IsStatusToken(tokens[i])
    ensures FirstStatusToken(tokens).Some? ==>
      exists i :: (0 <= i < |tokens| && IsStatusToken(tokens[i])
        && FirstStatusToken(tokens).value == Upper(tokens[i])
        && forall j :: 0 <= j < i ==> !IsStatusToken(tokens[j]))
    decreases |tokens|
  {
    if tokens != [] && !IsStatusToken(tokens[0]) {
      var rest := tokens[1..];
      FirstStatusTokenPicks(rest);
      forall i | 1 <= i < |tokens| ensures tokens[i] == rest[i - 1] { }
      if FirstStatusToken(rest).Some? {
        var i :| 0 <= i < |rest| && IsStatusToken(rest[i]) && FirstStatusToken(rest).value == Upper(rest[i])
          && forall j :: 0 <= j < i ==> !IsStatusToken(rest[j]);
        assert tokens[i + 1] == rest[i];
        forall j | 0 <= j < i + 1 ensures !IsStatusToken(tokens[j]) {
          if j > 0 { assert tokens[j] == rest[j - 1]; }
        }
      }
    }
  }

  /** The status read from the visible text: what follows its last '-',
      stripped, when that is not empty. */
  function DashStatus(visible: string): Option<string> {
    if '-' in visible then
      var tail := Strip(AfterLast(visible, '-'));
      if tail != "" then Some(tail) else None
    else None
  }

  /** The specification status: the dash status, else the first status token. */
  function SpecStatus(visible: string, classes: seq<string>): Option<string> {
    var status := DashStatus(visible);
    if status.Some? then status else FirstStatusToken(classes)
  }

  /** Upper-casing letters gives upper-case letters. */
  lemma UpperLetters(t: string)
    requires IsAlphaWord(t)
    ensures forall i :: 0 <= i < |Upper(t)| ==> 'A' <= Upper(t)[i] <= 'Z'
  {
    forall i | 0 <= i < |t| ensures 'A' <= Upper(t)[i] <= 'Z' {
      assert IsAlpha(t[i]);
    }
  }

  /** Stripping removes characters only. */
  lemma StripKeepsOut(s: string, c: char)
    requires c !in s
    ensures c !in Strip(s)
  {
    var lo := StripBounds(s);
    var r := Strip(s);
    forall i | 0 <= i < |r| ensures r[i] != c {
      assert r[i] == s[lo + i];
    }
  }

  /** A status is never empty; from the text it holds no '-', from the
      classes it is at most four upper-case letters. */
  lemma SpecStatusShape(visible: string, classes: seq<string>)
    ensures var r := SpecStatus(visible, classes);
      r.Some? ==>
        (r.value != ""
        && (DashStatus(visible).Some? ==> '-' !in r.value && r == DashStatus(visible))
        && (DashStatus(visible).None? ==> |r.value| <= 4 && forall i :: 0 <= i < |r.value| ==> 'A' <= r.value[i] <= 'Z'))
  {
    var r := SpecStatus(visible, classes);
    if DashStatus(visible).Some? {
      StripKeepsOut(AfterLast(visible, '-'), '-');
    } else if r.Some? {
      FirstStatusTokenPicks(classes);
      var i :| 0 <= i < |classes| && IsStatusToken(classes[i]) && r.value == Upper(classes[i]);
      UpperLetters(classes[i]);
    }
  }

  /** The class-token loop of `_parse_spec`. */
  method StatusFromClasses(classes: seq<string>) returns (status: Option<string>)
    ensures status == FirstStatusToken(classes)
  {
    status := None;
    var i := 0;
    while i < |classes|
      invariant 0 <= i <= |classes|
      invariant status.None?
      invariant FirstStatusToken(classes) == FirstStatusToken(classes[i..])
    {
      var token := classes[i];
      if token != "specification" && IsAlphaWord(token) && |token| <= 4 {
        status := Some(Upper(token));
        break;
      }
      assert classes[i..][1..] == classes[i + 1..];
      i := i + 1;
    }
  }

  /** `_parse_spec`: no URL and no status without a specification link;
      otherwise the joined href and the status of its text or classes. */
  method ParseSpec(spec: Option<Node>) returns (url: Option<string>, status: Option<string>)
    ensures spec.None? ==> url.None? && status.None?
    ensures spec.Some? ==> url == SafeJoinUrl(SiteUrl, Attr(spec, "href"))
    ensures spec.Some? ==> status == SpecStatus(NodeText(spec), ClassTokens(spec))
  {
    if spec.None? {
      return None, None;
    }
    url := SafeJoinUrl(SiteUrl, Attr(spec, "href"));
    var visible := NodeText(spec);
    status := None;
    if '-' in visible {
      var tail := Strip(AfterLast(visible, '-'));
      status := if tail != "" then Some(tail) else None;
    }
    if status.None? {
      status := StatusFromClasses(ClassTokens(spec));
    }
  }

  // ---------------------------------------------------------------- support blocks

  /** The status classes in order of priority. */
  const StatusClassOrder: seq<string> := ["y", "n", "a", "u"]

  /** The first status class the cell carries, "u" when it carries none. */
  function StatusOf(classes: seq<string>): string {
    if "y" in classes then "y"
    else if "n" in classes then "n"
    else if "a" in classes then "a"
    else "u"
  }

  /** A range's status is one of the four, and a status class is taken only
      when no class of higher priority is present. */
  lemma StatusPriority(classes: seq<string>)
    ensures StatusOf(classes) in StatusClassOrder
    ensures forall k :: 0 <= k < |StatusClassOrder| && StatusOf(classes) == StatusClassOrder[k] ==>
      (StatusClassOrder[k] in classes || k == 3)
      && forall j :: 0 <= j < k ==> StatusClassOrder[j] !in classes
  {
  }

  lemma StatusOfFirst(classes: seq<string>, k: int)
    requires 0 <= k < |StatusClassOrder| && StatusClassOrder[k] in classes
    requires forall j :: 0 <= j < k ==> StatusClassOrder[j] !in classes
    ensures StatusOf(classes) == StatusClassOrder[k]
  {
    if k > 0 { assert StatusClassOrder[0] !in classes; }
    if k > 1 { assert StatusClassOrder[1] !in classes; }
    if k > 2 { assert StatusClassOrder[2] !in classes; }
  }

  /** The status loop of `_parse_support_blocks`. */
  method StatusFromCell(classes: seq<string>) returns (status: string)
    ensures status == StatusOf(classes)
  {
    status := "u";
    for k := 0 to |StatusClassOrder|
      invariant status == "u"
      invariant forall j :: 0 <= j < k ==> StatusClassOrder[j] !in classes
    {
      var token := StatusClassOrder[k];
      if token in classes {
        status := token;
        StatusOfFirst(classes, k);
        return;
      }
    }
    assert "y" !in classes && "n" !in classes && "a" !in classes by {
      assert StatusClassOrder[0] !in classes && StatusClassOrder[1] !in classes && StatusClassOrder[2] !in classes;
    }
  }

  const BrowserPrefix: string := "browser--"

  /** What follows the prefix of the first "browser--" token. */
  function FirstBrowserSuffix(tokens: seq<string>): Option<string>
    decreases |tokens|
  {
    if tokens == [] then None
    else if StartsWith(tokens[0], BrowserPrefix) then Some(tokens[0][|BrowserPrefix|..])
    else FirstBrowserSuffix(tokens[1..])
  }

  /** The suffix is that of the first token starting with "browser--";
      there is none exactly when no token starts with it. */
  lemma {:induction false} FirstBrowserSuffixPicks(tokens: seq<string>)
    ensures FirstBrowserSuffix(tokens).None? <==> forall i :: 0 <= i < |tokens| ==> !StartsWith(tokens[i], BrowserPrefix)
    ensures FirstBrowserSuffix(tokens).Some? ==>
      exists i :: (0 <= i < |tokens| && StartsWith(tokens[i], BrowserPrefix)
        && FirstBrowserSuffix(tokens).value == tokens[i][|BrowserPrefix|..]
        && forall j :: 0 <= j < i ==> !StartsWith(tokens[j], BrowserPrefix))
    decreases |tokens|
  {
    if tokens != [] && !StartsWith(tokens[0], BrowserPrefix) {
      var rest := tokens[1..];
      FirstBrowserSuffixPicks(rest);
      forall i | 1 <= i < |tokens| ensures tokens[i] == rest[i - 1] { }
      if FirstBrowserSuffix(rest).Some? {
        var i :| 0 <= i < |rest| && StartsWith(rest[i], BrowserPrefix)
          && FirstBrowserSuffix(rest).value == rest[i][|BrowserPrefix|..]
          && forall j :: 0 <= j < i ==> !StartsWith(rest[j], BrowserPrefix);
        assert tokens[i + 1] == rest[i];
        forall j | 0 <= j < i + 1 ensures !StartsWith(tokens[j], BrowserPrefix) {
          if j > 0 { assert tokens[j] == rest[j - 1]; }
        }
      }
    }
  }

  /** The browser key: the suffix of the first "browser--" class token when
      it is not empty, else the name lower-cased with spaces turned to '-'. */
  function BrowserKey(name: string, tokens: seq<string>): string {
    var suffix := FirstBrowserSuffix(tokens);
    if suffix.Some? && suffix.value != "" then suffix.value else ReplaceChar(Lower(name), ' ', '-')
  }

  lemma {:induction false} FirstBrowserSuffixIsWord(tokens: seq<string>)
    requires AreWords(tokens)
    ensures FirstBrowserSuffix(tokens).Some? ==> NoSpace(FirstBrowserSuffix(tokens).value)
    decreases |tokens|
  {
    if tokens != [] {
      if StartsWith(tokens[0], BrowserPrefix) {
        var w := tokens[0];
        forall i | 0 <= i < |w| - |BrowserPrefix| ensures !IsSpace(w[|BrowserPrefix|..][i]) {
          assert w[|BrowserPrefix|..][i] == w[|BrowserPrefix| + i];
        }
      } else {
        assert AreWords(tokens[1..]) by {
          forall i | 0 <= i < |tokens[1..]| ensures tokens[1..][i] != [] && NoSpace(tokens[1..][i]) {
            assert tokens[1..][i] == tokens[i + 1];
          }
        }
        FirstBrowserSuffixIsWord(tokens[1..]);
      }
    }
  }

  /** For a heading with text, the browser key is never empty and holds no
      whitespace. */
  lemma BrowserKeyShape(name: string, tokens: seq<string>)
    requires name != "" && Normalized(name) && AreWords(tokens)
    ensures BrowserKey(name, tokens) != "" && NoSpace(BrowserKey(name, tokens))
  {
    FirstBrowserSuffixIsWord(tokens);
    var suffix := FirstBrowserSuffix(tokens);
    if !(suffix.Some? && suffix.value != "") {
      var k := ReplaceChar(Lower(name), ' ', '-');
      forall i | 0 <= i < |k| ensures !IsSpace(k[i]) {
        NormalizedSpaces(name, i);
      }
    }
  }

  /** The only whitespace of a normalized string is the plain space. */
  lemma NormalizedSpaces(s: string, i: int)
    requires Normalized(s) && 0 <= i < |s|
    ensures IsSpace(s[i]) ==> s[i] == ' '
  {
    assert SingleSpaced(s);
  }

  /** The "browser--" token loop of `_parse_support_blocks`. */
  method BrowserKeyOf(name: string, tokens: seq<string>) returns (key: string)
    ensures key == BrowserKey(name, tokens)
  {
    key := "";
    var i := 0;
    while i < |tokens|
      invariant 0 <= i <= |tokens|
      invariant key == ""
      invariant FirstBrowserSuffix(tokens) == FirstBrowserSuffix(tokens[i..])
    {
      var token := tokens[i];
      if StartsWith(token, BrowserPrefix) {
        key := token[|BrowserPrefix|..];
        break;
      }
      assert tokens[i..][1..] == tokens[i + 1..];
      i := i + 1;
    }
    if key == "" {
      key := ReplaceChar(Lower(name), ' ', '-');
    }
  }

  /** What one stat cell contributes: a range when its text is not empty. */
  function CellRange(cell: Node): Option<SupportRange> {
    var classes := ClassTokens(Some(cell));
    var rangeText := NodeText(Some(cell));
    var title := Attr(Some(cell), "title");
    if rangeText == "" then None
    else
      Some(SupportRange(rangeText, StatusOf(classes), "past" in classes, "current" in classes, "future" in classes,
        if title.Some? then title.value else "", classes))
  }

  /** The ranges of a list of cells, in cell order. */
  function CellRanges(cells: seq<Node>): seq<SupportRange> {
    FilterMap(cells, CellRange)
  }

  /** What a range read from a cell looks like. */
  predicate ValidRange(r: SupportRange) {
    r.rangeText != "" && Normalized(r.rangeText) && r.status in StatusClassOrder
    && r.status == StatusOf(r.rawClasses)
    && r.isPast == ("past" in r.rawClasses) && r.isCurrent == ("current" in r.rawClasses)
    && r.isFuture == ("future" in r.rawClasses)
  }

  lemma CellRangeValid(cell: Node)
    ensures CellRange(cell).Some? <==> NodeText(Some(cell)) != ""
    ensures CellRange(cell).Some? ==> ValidRange(CellRange(cell).value)
  {
    StatusPriority(ClassTokens(Some(cell)));
  }

  /** Every range is valid, and the ranges are exactly the contributions of
      the cells: with `CellRangeValid`, only cells without text are dropped. */
  lemma CellRangesExact(cells: seq<Node>)
    ensures forall r :: r in CellRanges(cells) ==> ValidRange(r)
    ensures forall r :: r in CellRanges(cells) <==> exists i :: 0 <= i < |cells| && CellRange(cells[i]) == Some(r)
  {
    FilterMapExact(cells, CellRange);
    forall r | r in CellRanges(cells) ensures ValidRange(r) {
      var i := FilterMapSource(cells, CellRange, r);
      CellRangeValid(cells[i]);
    }
  }

  /** The stat-cell loop of `_parse_support_blocks`. */
  method RangesOf(cells: seq<Node>) returns (ranges: seq<SupportRange>)
    ensures ranges == CellRanges(cells)
  {
    ranges := [];
    for i := 0 to |cells|
      invariant ranges == CellRanges(cells[..i])
    {
      FilterMapPrefix(cells, CellRange, i);
      var cell := cells[i];
      var classes := ClassTokens(Some(cell));
      var status := StatusFromCell(classes);
      var rangeText := NodeText(Some(cell));
      if rangeText == "" {
        continue;
      }
      var title := Attr(Some(cell), "title");
      ranges := ranges + [SupportRange(rangeText, status, "past" in classes, "current" in classes,
        "future" in classes, if title.Some? then title.value else "", classes)];
    }
    assert cells[..|cells|] == cells;
  }

  /** The block of one support list: none when its heading has no text. */
  function ListBlock(list: SupportList): Option<BrowserSupportBlock> {
    var name := NodeText(list.heading);
    if name == "" then None
    else Some(BrowserSupportBlock(name, BrowserKey(name, ClassTokens(list.heading)), CellRanges(list.cells)))
  }

  /** The blocks of every support list, in list order. */
  function AllBlocks(lists: seq<SupportList>): seq<BrowserSupportBlock> {
    FilterMap(lists, ListBlock)
  }

  predicate IsBasicBlock(b: BrowserSupportBlock) {
    b.browserKey in BasicModeBrowsers
  }

  /** The blocks of the basic-mode browsers, in order. */
  function BasicBlocks(blocks: seq<BrowserSupportBlock>): seq<BrowserSupportBlock> {
    Filter(blocks, IsBasicBlock)
  }

  /** `_parse_support_blocks`: every block in full mode, the basic-mode
      browsers' blocks otherwise. */
  function SupportBlocks(lists: seq<SupportList>, includeAll: bool): seq<BrowserSupportBlock> {
    if includeAll then AllBlocks(lists) else BasicBlocks(AllBlocks(lists))
  }

  /** What a block read from a support list looks like. */
  predicate ValidBlock(b: BrowserSupportBlock) {
    b.browserName != "" && b.browserKey != "" && NoSpace(b.browserKey)
    && forall r :: r in b.ranges ==> ValidRange(r)
  }

  lemma ListBlockValid(list: SupportList)
    ensures ListBlock(list).Some? <==> NodeText(list.heading) != ""
    ensures ListBlock(list).Some? ==> ValidBlock(ListBlock(list).value)
  {
    var name := NodeText(list.heading);
    if name != "" {
      BrowserKeyShape(name, ClassTokens(list.heading));
      CellRangesExact(list.cells);
    }
  }

  /** Every block is valid, and the blocks are exactly the contributions of
      the lists whose heading has text. */
  lemma AllBlocksExact(lists: seq<SupportList>)
    ensures forall b :: b in AllBlocks(lists) ==> ValidBlock(b)
    ensures forall b :: b in AllBlocks(lists) <==> exists i :: 0 <= i < |lists| && ListBlock(lists[i]) == Some(b)
  {
    FilterMapExact(lists, ListBlock);
    forall b | b in AllBlocks(lists) ensures ValidBlock(b) {
      var i := FilterMapSource(lists, ListBlock, b);
      ListBlockValid(lists[i]);
    }
  }

  /** The support-list loop of `_parse_support_blocks`. */
  method BlocksOf(lists: seq<SupportList>) returns (output: seq<BrowserSupportBlock>)
    ensures output == AllBlocks(lists)
  {
    output := [];
    for i := 0 to |lists|
      invariant output == AllBlocks(lists[..i])
    {
      FilterMapPrefix(lists, ListBlock, i);
      var support := lists[i];
      var browserName := NodeText(support.heading);
      if browserName == "" {
        continue;
      }
      var browserKey := BrowserKeyOf(browserName, ClassTokens(support.heading));
      var ranges := RangesOf(support.cells);
      output := output + [BrowserSupportBlock(browserName, browserKey, ranges)];
    }
    assert lists[..|lists|] == lists;
  }

  /** The basic-mode comprehension of `_parse_support_blocks`. */
  method KeepBasic(blocks: seq<BrowserSupportBlock>) returns (kept: seq<BrowserSupportBlock>)
    ensures kept == BasicBlocks(blocks)
  {
    kept := [];
    for i := 0 to |blocks|
      invariant kept == BasicBlocks(blocks[..i])
    {
      FilterPrefix(blocks, IsBasicBlock, i);
      if blocks[i].browserKey in BasicModeBrowsers {
        kept := kept + [blocks[i]];
      }
    }
    assert blocks[..|blocks|] == blocks;
  }

  /** `_parse_support_blocks`. */
  method ParseSupportBlocks(lists: seq<SupportList>, includeAll: bool) returns (blocks: seq<BrowserSupportBlock>)
    ensures blocks == SupportBlocks(lists, includeAll)
    ensures forall b :: b in blocks ==> ValidBlock(b)
    ensures !includeAll ==> forall b :: b in blocks ==> IsBasicBlock(b)
  {
    AllBlocksExact(lists);
    FilterExact(AllBlocks(lists), IsBasicBlock);
    blocks := BlocksOf(lists);
    if !includeAll {
      blocks := KeepBasic(blocks);
    }
  }

  // ---------------------------------------------------------------- resources and sub-features

  /** What one anchor contributes: (label, url) when both are non-empty. */
  function AnchorLink(anchor: Node): Option<Link> {
    var href := SafeJoinUrl(SiteUrl, Attr(Some(anchor), "href"));
    var linkText := NodeText(Some(anchor));
    if href.Some? && href.value != "" && linkText != "" then Some((linkText, href.value)) else None
  }

  /** The links of a list of anchors, in anchor order. */
  function AnchorLinks(anchors: seq<Node>): seq<Link> {
    FilterMap(anchors, AnchorLink)
  }

  predicate ValidLink(l: Link) {
    l.0 != "" && Normalized(l.0) && l.1 != ""
  }

  /** Every link has a normalized label and a url, both non-empty, and the
      links are exactly the contributions of the anchors that contribute one. */
  lemma AnchorLinksExact(anchors: seq<Node>)
    ensures forall l :: l in AnchorLinks(anchors) ==> ValidLink(l)
    ensures forall l :: l in AnchorLinks(anchors) <==> exists i :: 0 <= i < |anchors| && AnchorLink(anchors[i]) == Some(l)
  {
    FilterMapExact(anchors, AnchorLink);
    forall l | l in AnchorLinks(anchors) ensures ValidLink(l) {
      var i := FilterMapSource(anchors, AnchorLink, l);
    }
  }

  /** The anchor loop shared by `_parse_resources` and `_parse_subfeatures`. */
  method LinksOf(anchors: seq<Node>) returns (links: seq<Link>)
    ensures links == AnchorLinks(anchors)
  {
    links := [];
    for i := 0 to |anchors|
      invariant links == AnchorLinks(anchors[..i])
    {
      FilterMapPrefix(anchors, AnchorLink, i);
      var href := SafeJoinUrl(SiteUrl, Attr(Some(anchors[i]), "href"));
      var linkText := NodeText(Some(anchors[i]));
      if href.Some? && href.value != "" && linkText != "" {
        links := links + [(linkText, href.value)];
      }
    }
    assert anchors[..|anchors|] == anchors;
  }

  /** `_parse_resources`. */
  method ParseResources(anchors: seq<Node>) returns (resources: seq<Link>)
    ensures resources == AnchorLinks(anchors)
    ensures forall l :: l in resources ==> ValidLink(l)
  {
    AnchorLinksExact(anchors);
    resources := LinksOf(anchors);
  }

  /** A term that opens the sub-features list: its text without trailing
      colons, stripped and lower-cased, is "sub-features". */
  predicate IsSubfeatureTerm(term: Node) {
    Lower(Strip(DropTrailing(NodeText(Some(term)), ':'))) == "sub-features"
  }

  /** The collecting flag after the given children of one `dl`: set by
      every term to whether it `opens` the list, false before the first. */
  function Collecting(children: seq<DlChild>, opens: Node -> bool): bool
    decreases |children|
  {
    if children == [] then false
    else
      var c := children[|children| - 1];
      if c.Dt? then opens(c.term) else Collecting(children[..|children| - 1], opens)
  }

  /** The flag is set exactly when the last term so far opens the list. */
  lemma {:induction false} CollectingIsLastTerm(children: seq<DlChild>, opens: Node -> bool)
    ensures Collecting(children, opens) <==>
      exists j :: (0 <= j < |children| && children[j].Dt? && opens(children[j].term)
        && forall k :: j < k < |children| ==> !children[k].Dt?)
    decreases |children|
  {
    if children != [] {
      var n := |children| - 1;
      var p := children[..n];
      CollectingIsLastTerm(p, opens);
      if !children[n].Dt? {
        assert Collecting(children, opens) == Collecting(p, opens);
        if Collecting(p, opens) {
          var j :| 0 <= j < |p| && p[j].Dt? && opens(p[j].term) && forall k :: j < k < |p| ==> !p[k].Dt?;
          assert children[j] == p[j];
          forall k | j < k < |children| ensures !children[k].Dt? {
            if k < n { assert children[k] == p[k]; }
          }
        }
        if (exists j :: (0 <= j < |children| && children[j].Dt? && opens(children[j].term)
            && forall k :: j < k < |children| ==> !children[k].Dt?)) {
          var j :| 0 <= j < |children| && children[j].Dt? && opens(children[j].term)
            && forall k :: j < k < |children| ==> !children[k].Dt?;
          assert p[j] == children[j];
          forall k | j < k < |p| ensures !p[k].Dt? { assert p[k] == children[k]; }
        }
      } else {
        if (exists j :: (0 <= j < |children| && children[j].Dt? && opens(children[j].term)
            && forall k :: j < k < |children| ==> !children[k].Dt?)) {
          var j :| 0 <= j < |children| && children[j].Dt? && opens(children[j].term)
            && forall k :: j < k < |children| ==> !children[k].Dt?;
          assert j == n;
        }
      }
    }
  }

  /** The links of one `dl`: the `linksOf` of every definition met while
      collecting, in order. */
  function DlLinks(children: seq<DlChild>, opens: Node -> bool, linksOf: seq<Node> -> seq<Link>): seq<Link>
    decreases |children|
  {
    if children == [] then []
    else
      var p := children[..|children| - 1];
      var c := children[|children| - 1];
      DlLinks(p, opens, linksOf) + (if c.Dd? && Collecting(p, opens) then linksOf(c.anchors) else [])
  }

  /** The sub-feature links of every `dl`, in document order. */
  function SubfeatureLinks(dls: seq<seq<DlChild>>): seq<Link>
    decreases |dls|
  {
    if dls == [] then [] else SubfeatureLinks(dls[..|dls| - 1]) + DlLinks(dls[|dls| - 1], IsSubfeatureTerm, AnchorLinks)
  }

  /** A definition met while collecting. */
  predicate CollectedAt(children: seq<DlChild>, opens: Node -> bool, i: int)
    requires 0 <= i < |children|
  {
    children[i].Dd? && Collecting(children[..i], opens)
  }

  /** Every link of a `dl` comes from a definition met while collecting. */
  lemma {:induction false} DlLinksFrom(children: seq<DlChild>, opens: Node -> bool, linksOf: seq<Node> -> seq<Link>, l: Link)
    returns (i: int)
    requires l in DlLinks(children, opens, linksOf)
    ensures 0 <= i < |children| && CollectedAt(children, opens, i) && l in linksOf(children[i].anchors)
    decreases |children|
  {
    var n := |children| - 1;
    var p := children[..n];
    if l in DlLinks(p, opens, linksOf) {
      i := DlLinksFrom(p, opens, linksOf, l);
      assert children[i] == p[i] && children[..i] == p[..i];
    } else {
      i := n;
    }
  }

  /** Every definition met while collecting contributes all its links. */
  lemma {:induction false} DlLinksKeep(children: seq<DlChild>, opens: Node -> bool, linksOf: seq<Node> -> seq<Link>, i: int, l: Link)
    requires 0 <= i < |children| && CollectedAt(children, opens, i) && l in linksOf(children[i].anchors)
    ensures l in DlLinks(children, opens, linksOf)
    decreases |children|
  {
    var n := |children| - 1;
    var p := children[..n];
    if i < n {
      assert p[i] == children[i] && p[..i] == children[..i];
      DlLinksKeep(p, opens, linksOf, i, l);
    }
  }

  /** The sub-feature links of one `dl` are exactly the links of its
      definitions met while the last term was a sub-features term; each is
      a valid link. */
  lemma SubfeatureLinksOfDl(children: seq<DlChild>)
    ensures forall l :: l in DlLinks(children, IsSubfeatureTerm, AnchorLinks) ==> ValidLink(l)
    ensures forall l :: l in DlLinks(children, IsSubfeatureTerm, AnchorLinks) <==>
      exists i :: 0 <= i < |children| && CollectedAt(children, IsSubfeatureTerm, i) && l in AnchorLinks(children[i].anchors)
  {
    forall l | l in DlLinks(children, IsSubfeatureTerm, AnchorLinks)
      ensures ValidLink(l)
      ensures exists i :: 0 <= i < |children| && CollectedAt(children, IsSubfeatureTerm, i) && l in AnchorLinks(children[i].anchors)
    {
      var i := DlLinksFrom(children, IsSubfeatureTerm, AnchorLinks, l);
      AnchorLinksExact(children[i].anchors);
    }
    forall l, i | 0 <= i < |children| && CollectedAt(children, IsSubfeatureTerm, i) && l in AnchorLinks(children[i].anchors)
      ensures l in DlLinks(children, IsSubfeatureTerm, AnchorLinks)
    {
      DlLinksKeep(children, IsSubfeatureTerm, AnchorLinks, i, l);
    }
  }

  lemma DlLinksPrefix(children: seq<DlChild>, opens: Node -> bool, linksOf: seq<Node> -> seq<Link>, i: int)
    requires 0 <= i < |children|
    ensures var c := children[i];
      DlLinks(children[..i + 1], opens, linksOf)
        == DlLinks(children[..i], opens, linksOf) + (if c.Dd? && Collecting(children[..i], opens) then linksOf(c.anchors) else [])
    ensures Collecting(children[..i + 1], opens) == if children[i].Dt? then opens(children[i].term) else Collecting(children[..i], opens)
  {
    assert children[..i + 1][..i] == children[..i];
  }

  lemma SubfeatureLinksPrefix(dls: seq<seq<DlChild>>, i: int)
    requires 0 <= i < |dls|
    ensures SubfeatureLinks(dls[..i + 1]) == SubfeatureLinks(dls[..i]) + DlLinks(dls[i], IsSubfeatureTerm, AnchorLinks)
  {
    assert dls[..i + 1][..i] == dls[..i];
  }

  /** The child loop of `_parse_subfeatures` over one `dl`. */
  method DlSubfeatures(children: seq<DlChild>, links: seq<Link>) returns (out: seq<Link>)
    ensures out == links + DlLinks(children, IsSubfeatureTerm, AnchorLinks)
  {
    var found: seq<Link> := [];
    var collecting := false;
    for i := 0 to |children|
      invariant collecting == Collecting(children[..i], IsSubfeatureTerm)
      invariant found == DlLinks(children[..i], IsSubfeatureTerm, AnchorLinks)
    {
      DlLinksPrefix(children, IsSubfeatureTerm, AnchorLinks, i);
      var child := children[i];
      if child.Dt? {
        collecting := IsSubfeatureTerm(child.term);
        continue;
      }
      if child.Dd? && collecting {
        var more := LinksOf(child.anchors);
        found := found + more;
      }
    }
    assert children[..|children|] == children;
    out := links + found;
  }

  /** `_parse_subfeatures`. */
  method ParseSubfeatures(dls: seq<seq<DlChild>>) returns (subfeatures: seq<Link>)
    ensures subfeatures == SubfeatureLinks(dls)
  {
    subfeatures := [];
    for i := 0 to |dls|
      invariant subfeatures == SubfeatureLinks(dls[..i])
    {
      SubfeatureLinksPrefix(dls, i);
      subfeatures := DlSubfeatures(dls[i], subfeatures);
    }
    assert dls[..|dls|] == dls;
  }

  // ---------------------------------------------------------------- tabs and warnings

  /** "- label: url". */
  function LinkLine(l: Link): string {
    "- " + l.0 + ": " + l.1
  }

  function LinkLines(links: seq<Link>): seq<string>
    ensures |LinkLines(links)| == |links|
    ensures forall i :: 0 <= i < |links| ==> LinkLines(links)[i] == LinkLine(links[i])
    decreases |links|
  {
    if links == [] then [] else LinkLines(links[..|links| - 1]) + [LinkLine(links[|links| - 1])]
  }

  /** The tabs, in the order Notes, Resources, Sub-features, each present
      when its source is not empty. */
  function Tabs(notes: Option<string>, resources: seq<Link>, subfeatures: seq<Link>): seq<(string, string)> {
    (if notes.Some? && notes.value != "" then [("Notes", notes.value)] else [])
    + (if resources != [] then [("Resources", Join("\n", LinkLines(resources)))] else [])
    + (if subfeatures != [] then [("Sub-features", Join("\n", LinkLines(subfeatures)))] else [])
  }

  /** The position of a tab name in the fixed order. */
  function NameRank(name: string): int {
    if name == "Notes" then 0 else if name == "Resources" then 1 else if name == "Sub-features" then 2 else 3
  }

  predicate HasTab(tabs: seq<(string, string)>, name: string) {
    exists i :: 0 <= i < |tabs| && tabs[i].0 == name
  }

  /** Each tab is present exactly when its source is non-empty, and the
      names keep the fixed order Notes, Resources, Sub-features, so that no
      name appears twice. */
  lemma TabsOrder(notes: Option<string>, resources: seq<Link>, subfeatures: seq<Link>)
    ensures var tabs := Tabs(notes, resources, subfeatures);
      (HasTab(tabs, "Notes") <==> notes.Some? && notes.value != "")
      && (HasTab(tabs, "Resources") <==> resources != [])
      && (HasTab(tabs, "Sub-features") <==> subfeatures != [])
      && (forall i :: 0 <= i < |tabs| ==> NameRank(tabs[i].0) < 3)
      && (forall i, j :: 0 <= i < j < |tabs| ==> NameRank(tabs[i].0) < NameRank(tabs[j].0))
  {
    var n := if notes.Some? && notes.value != "" then [("Notes", notes.value)] else [];
    var r := if resources != [] then [("Resources", Join("\n", LinkLines(resources)))] else [];
    var s := if subfeatures != [] then [("Sub-features", Join("\n", LinkLines(subfeatures)))] else [];
    TabRanks(n, r, s);
  }

  lemma TabRanks(n: seq<(string, string)>, r: seq<(string, string)>, s: seq<(string, string)>)
    requires |n| <= 1 && |r| <= 1 && |s| <= 1
    requires n != [] ==> n[0].0 == "Notes"
    requires r != [] ==> r[0].0 == "Resources"
    requires s != [] ==> s[0].0 == "Sub-features"
    ensures var tabs := n + r + s;
      (HasTab(tabs, "Notes") <==> n != [])
      && (HasTab(tabs, "Resources") <==> r != [])
      && (HasTab(tabs, "Sub-features") <==> s != [])
      && (forall i :: 0 <= i < |tabs| ==> NameRank(tabs[i].0) < 3)
      && (forall i, j :: 0 <= i < j < |tabs| ==> NameRank(tabs[i].0) < NameRank(tabs[j].0))
  {
    var tabs := n + r + s;
    forall i | 0 <= i < |tabs|
      ensures tabs[i] == (if i < |n| then n[0] else if i < |n| + |r| then r[0] else s[0])
    {
    }
    if n != [] { assert tabs[0].0 == "Notes"; }
    if r != [] { assert tabs[|n|].0 == "Resources"; }
    if s != [] { assert tabs[|n| + |r|].0 == "Sub-features"; }
  }

  /** `parse_warnings`: ["support"] exactly when there are no blocks. */
  function Warnings(blocks: seq<BrowserSupportBlock>): (r: seq<string>)
    ensures r == ["support"] <==> blocks == []
    ensures r == [] <==> blocks != []
  {
    if blocks == [] then ["support"] else []
  }

  // ---------------------------------------------------------------- parsers

  /** `b` is the record the parser builds for `page` and `slug`: every field
      read from the page, with the blocks of the browsers the mode keeps. */
  predicate ParsedBasic(b: FeatureBasic, page: FeaturePage, slug: string, fullMode: bool) {
    && b.slug == slug && b.title == ParseTitle(page, slug)
    && (page.spec.None? ==> b.specUrl.None? && b.specStatus.None?)
    && (page.spec.Some? ==> b.specUrl == SafeJoinUrl(SiteUrl, Attr(page.spec, "href")))
    && (page.spec.Some? ==> b.specStatus == SpecStatus(NodeText(page.spec), ClassTokens(page.spec)))
    && b.usageSupported == page.usageSupported && b.usagePartial == page.usagePartial
    && b.usageTotal == page.usageTotal && b.descriptionText == page.description
    && b.browserBlocks == SupportBlocks(page.supportLists, fullMode)
    && b.parseWarnings == Warnings(b.browserBlocks)
  }

  /** `parse_feature_basic`. */
  method ParseFeatureBasic(page: FeaturePage, slug: string) returns (feature: FeatureBasic)
    ensures feature.slug == slug && feature.title == ParseTitle(page, slug)
    ensures page.spec.None? ==> feature.specUrl.None? && feature.specStatus.None?
    ensures page.spec.Some? ==> feature.specUrl == SafeJoinUrl(SiteUrl, Attr(page.spec, "href"))
    ensures page.spec.Some? ==> feature.specStatus == SpecStatus(NodeText(page.spec), ClassTokens(page.spec))
    ensures feature.usageSupported == page.usageSupported && feature.usagePartial == page.usagePartial
      && feature.usageTotal == page.usageTotal && feature.descriptionText == page.description
    ensures feature.browserBlocks == SupportBlocks(page.supportLists, false)
    ensures forall b :: b in feature.browserBlocks ==> ValidBlock(b) && IsBasicBlock(b)
    ensures feature.parseWarnings == Warnings(feature.browserBlocks)
  {
    var specUrl, specStatus := ParseSpec(page.spec);
    var blocks := ParseSupportBlocks(page.supportLists, false);
    feature := FeatureBasic(slug, ParseTitle(page, slug), specUrl, specStatus, page.usageSupported,
      page.usagePartial, page.usageTotal, page.description, blocks, Warnings(blocks));
  }

  /** `parse_feature_full`. */
  method ParseFeatureFull(page: FeaturePage, slug: string) returns (feature: FeatureFull)
    ensures feature.basic.slug == slug && feature.basic.title == ParseTitle(page, slug)
    ensures page.spec.None? ==> feature.basic.specUrl.None? && feature.basic.specStatus.None?
    ensures page.spec.Some? ==> feature.basic.specUrl == SafeJoinUrl(SiteUrl, Attr(page.spec, "href"))
    ensures page.spec.Some? ==> feature.basic.specStatus == SpecStatus(NodeText(page.spec), ClassTokens(page.spec))
    ensures feature.basic.usageSupported == page.usageSupported && feature.basic.usagePartial == page.usagePartial
      && feature.basic.usageTotal == page.usageTotal && feature.basic.descriptionText == page.description
    ensures feature.basic.browserBlocks == SupportBlocks(page.supportLists, true)
    ensures forall b :: b in feature.basic.browserBlocks ==> ValidBlock(b)
    ensures feature.basic.parseWarnings == Warnings(feature.basic.browserBlocks)
    ensures feature.notesText == page.notes
    ensures feature.resources == AnchorLinks(page.resourceAnchors)
    ensures feature.subfeatures == SubfeatureLinks(page.dls)
    ensures feature.tabs == Tabs(page.notes, feature.resources, feature.subfeatures)
  {
    var specUrl, specStatus := ParseSpec(page.spec);
    var blocks := ParseSupportBlocks(page.supportLists, true);
    var resources := ParseResources(page.resourceAnchors);
    var subfeatures := ParseSubfeatures(page.dls);
    var basic := FeatureBasic(slug, ParseTitle(page, slug), specUrl, specStatus, page.usageSupported,
      page.usagePartial, page.usageTotal, page.description, blocks, Warnings(blocks));
    feature := FeatureFull(basic, page.notes, resources, subfeatures, Tabs(page.notes, resources, subfeatures));
  }

  /** The basic parse of a page keeps exactly the basic-mode browsers' blocks
      of the full parse, in order. */
  lemma BasicIsFilteredFull(lists: seq<SupportList>)
    ensures IsSubseq(SupportBlocks(lists, false), SupportBlocks(lists, true))
    ensures forall b :: b in SupportBlocks(lists, false) <==> b in SupportBlocks(lists, true) && IsBasicBlock(b)
  {
    FilterExact(AllBlocks(lists), IsBasicBlock);
  }
}
