/** The line builders of the full-mode renderer, caniuse/ui/fullscreen.py:
    the plain support lines, the legend, the tab sections, the era of a
    range, the global usage read from a range's tooltip and the text of one
    support-table row. Styles, panels, tables and the pager are not part of
    this model; the two-decimal rendering of a usage share is the parameter
    `fmt`. */
module Fullscreen {
  import opened Wrappers
  import opened Strings
  import opened Text
  import opened Model
  import opened Lists
  import ParseFeature

  // ---------------------------------------------------------------- support lines

  const NoBlocksLine: string := "No browser support blocks found."

  /** The " [notes: 1,2]" tail of a support line; empty without markers. */
  function NotesHint(markers: seq<string>): string {
    if markers == [] then "" else " [notes: " + Join(",", markers) + "]"
  }

  /** "  icon range" and the notes tail; a status without an icon gets the
      icon of "u". */
  function RangeLine(r: SupportRange): string {
    "  " + StatusIcon(r.status) + " " + r.rangeText + NotesHint(ExtractNoteMarkers(r.rawClasses))
  }

  /** The lines of one block: its name, one line per range, a blank line. */
  function BlockLines(b: BrowserSupportBlock): seq<string> {
    [b.browserName] + Map(b.ranges, RangeLine) + [""]
  }

  /** `_support_lines`: the lines of every block, or the placeholder line
      when that list is empty. */
  function SupportLines(blocks: seq<BrowserSupportBlock>): seq<string> {
    var lines := FlatMap(blocks, BlockLines);
    if lines == [] then [NoBlocksLine] else lines
  }

  /** One range's line of `_support_lines`. */
  method FormatRangeLine(range: SupportRange) returns (line: string)
    ensures line == RangeLine(range)
  {
    var icon := StatusIcon(range.status);
    var markers := ExtractNoteMarkers(range.rawClasses);
    var markerTail := if markers != [] then " [notes: " + Join(",", markers) + "]" else "";
    line := "  " + icon + " " + range.rangeText + markerTail;
  }

  /** The lines of one block: the name, the range lines appended one by
      one, a blank line. */
  method BlockLinesOf(block: BrowserSupportBlock) returns (lines: seq<string>)
    ensures lines == BlockLines(block)
  {
    var rangeLines: seq<string> := [];
    for j := 0 to |block.ranges|
      invariant rangeLines == Map(block.ranges[..j], RangeLine)
    {
      var line := FormatRangeLine(block.ranges[j]);
      rangeLines := rangeLines + [line];
      MapPrefix(block.ranges, RangeLine, j);
    }
    assert block.ranges[..|block.ranges|] == block.ranges;
    lines := [block.browserName] + rangeLines + [""];
  }

  /** `_support_lines`, appending block by block. */
  method SupportLinesOf(feature: FeatureFull) returns (lines: seq<string>)
    ensures lines == SupportLines(feature.basic.browserBlocks)
  {
    var blocks := feature.basic.browserBlocks;
    lines := [];
    for i := 0 to |blocks|
      invariant lines == FlatMap(blocks[..i], BlockLines)
    {
      var more := BlockLinesOf(blocks[i]);
      lines := lines + more;
      FlatMapPrefix(blocks, BlockLines, i);
    }
    assert blocks[..|blocks|] == blocks;
    if lines == [] {
      lines := [NoBlocksLine];
    }
  }

  /** The number of lines the first `i` blocks take. */
  function LinesBefore(blocks: seq<BrowserSupportBlock>, i: nat): nat
    requires i <= |blocks|
  {
    if i == 0 then 0 else LinesBefore(blocks, i - 1) + |blocks[i - 1].ranges| + 2
  }

  /** `lines` shows block `b` from index `at` on: its name, one line per
      range in order, then a blank line. */
  predicate BlockAt(lines: seq<string>, at: nat, b: BrowserSupportBlock) {
    Framed(lines, at, b.browserName, b.ranges, RangeLine, [""])
  }

  lemma {:induction false} LinesBeforeCount(blocks: seq<BrowserSupportBlock>, i: nat)
    requires i <= |blocks|
    ensures |FlatMap(blocks[..i], BlockLines)| == LinesBefore(blocks, i)
  {
    if i > 0 {
      LinesBeforeCount(blocks, i - 1);
      FlatMapPrefix(blocks, BlockLines, i - 1);
    }
  }

  lemma BlocksPlaced(blocks: seq<BrowserSupportBlock>, i: nat)
    requires i < |blocks|
    ensures BlockAt(FlatMap(blocks, BlockLines), LinesBefore(blocks, i), blocks[i])
  {
    LinesBeforeCount(blocks, i);
    BlockPlaced(blocks, i);
  }

  lemma BlockPlaced(blocks: seq<BrowserSupportBlock>, i: nat)
    requires i < |blocks|
    ensures BlockAt(FlatMap(blocks, BlockLines), |FlatMap(blocks[..i], BlockLines)|, blocks[i])
  {
    FlatMapFramed(FlatMap(blocks, BlockLines), blocks, BlockLines, i, |FlatMap(blocks[..i], BlockLines)|,
                  blocks[i].browserName, blocks[i].ranges, RangeLine, [""]);
  }

  /** The support lines are the placeholder exactly when there are no
      blocks; otherwise they show every block in order, as its name, one
      line per range and a blank line, each block right after the lines of
      the ones before it, and nothing else. */
  lemma SupportLinesLayout(blocks: seq<BrowserSupportBlock>)
    ensures SupportLines(blocks) == [NoBlocksLine] <==> blocks == []
    ensures blocks != [] ==> |SupportLines(blocks)| == LinesBefore(blocks, |blocks|)
    ensures blocks != [] ==> forall i :: 0 <= i < |blocks| ==>
      BlockAt(SupportLines(blocks), LinesBefore(blocks, i), blocks[i])
  {
    LinesBeforeCount(blocks, |blocks|);
    assert blocks[..|blocks|] == blocks;
    if blocks != [] {
      FlatMapPrefix(blocks, BlockLines, |blocks| - 1);
      assert |BlockLines(blocks[|blocks| - 1])| >= 2;
      forall i | 0 <= i < |blocks|
        ensures BlockAt(FlatMap(blocks, BlockLines), LinesBefore(blocks, i), blocks[i])
      {
        BlocksPlaced(blocks, i);
      }
    }
  }

  /** A support line is "  icon range", followed by " [notes: ...]" with the
      markers exactly when the range has note markers. */
  lemma RangeLineNotes(r: SupportRange)
    ensures var plain := "  " + StatusIcon(r.status) + " " + r.rangeText;
      var markers := ExtractNoteMarkers(r.rawClasses);
      && |plain| <= |RangeLine(r)| && RangeLine(r)[..|plain|] == plain
      && (RangeLine(r) == plain <==> markers == [])
      && (markers != [] ==> RangeLine(r)[|plain|..] == " [notes: " + Join(",", markers) + "]")
  {
    var plain := "  " + StatusIcon(r.status) + " " + r.rangeText;
    var hint := NotesHint(ExtractNoteMarkers(r.rawClasses));
    assert RangeLine(r) == plain + hint;
    assert (plain + hint)[..|plain|] == plain && (plain + hint)[|plain|..] == hint;
  }

  /** A range whose status has no icon is shown as one of status "u". */
  lemma RangeLineUnknownStatus(r: SupportRange)
    requires r.status !in StatusIcons
    ensures RangeLine(r) == RangeLine(r.(status := "u"))
  {
  }

  // ---------------------------------------------------------------- legend

  /** "- icon = label" for one status. */
  function LegendEntry(status: string): string {
    "- " + StatusIcon(status) + " = " + StatusLabel(status)
  }

  /** `_legend_lines`: the header, then one entry per status. */
  function LegendLines(): seq<string> {
    ["Legend", LegendEntry("y"), LegendEntry("n"), LegendEntry("a"), LegendEntry("u")]
  }

  /** The legend is its header followed by one entry for each status that
      has an icon, no entry repeated. */
  lemma LegendCoversStatuses()
    ensures |LegendLines()| == 5 && LegendLines()[0] == "Legend"
    ensures forall s :: s in StatusIcons ==> LegendEntry(s) in LegendLines()[1..]
    ensures forall i, j :: 1 <= i < j < 5 ==> LegendLines()[i] != LegendLines()[j]
  {
    var l := LegendLines();
    var icons := [StatusIcon("y"), StatusIcon("n"), StatusIcon("a"), StatusIcon("u")];
    assert icons == ["\U{2705}", "\U{274C}", "\U{25D0}", "\U{FE56}"];
    forall i | 1 <= i < 5 ensures l[i][2] == icons[i - 1][0] {
    }
    forall i, j | 1 <= i < j < 5 ensures l[i] != l[j] {
      assert l[i][2] != l[j][2];
    }
    assert StatusIcons.Keys == {"y", "n", "a", "u"};
  }

  // ---------------------------------------------------------------- tab sections

  const NoMetadataLine: string := "No additional feature metadata."

  /** The usage parts of the Info section, in the order supported, partial, total. */
  function InfoUsageParts(f: FeatureBasic, fmt: real -> string): seq<string> {
    UsagePart("\U{2705} ", fmt, f.usageSupported) + UsagePart("\U{25D0} ", fmt, f.usagePartial)
    + UsagePart("Total ", fmt, f.usageTotal)
  }

  /** "Spec: url (status)", when there is a spec link. */
  function SpecLines(f: FeatureBasic): seq<string> {
    if Given(f.specUrl)
    then ["Spec: " + f.specUrl.value + (if Given(f.specStatus) then " (" + f.specStatus.value + ")" else "")]
    else []
  }

  /** "Usage: " and the parts, when there is at least one. */
  function UsageLines(f: FeatureBasic, fmt: real -> string): seq<string> {
    var parts := InfoUsageParts(f, fmt);
    if parts != [] then ["Usage: " + Join("  ", parts)] else []
  }

  function DescriptionLines(f: FeatureBasic): seq<string> {
    if f.descriptionText != "" then ["", "Description", f.descriptionText] else []
  }

  /** The spec, usage and description lines of the Info section. */
  function InfoBody(f: FeatureBasic, fmt: real -> string): seq<string> {
    SpecLines(f) + UsageLines(f, fmt) + DescriptionLines(f)
  }

  /** The Info section's lines, or the placeholder when there are none. */
  function InfoLines(f: FeatureBasic, fmt: real -> string): seq<string> {
    var body := InfoBody(f, fmt);
    if body == [] then [NoMetadataLine] else body
  }

  /** `content.splitlines() or [content]`. */
  function TabLines(content: string): seq<string> {
    var lines := SplitLines(content);
    if lines == [] then [content] else lines
  }

  function TabSection(tab: (string, string)): (string, seq<string>) {
    (tab.0, TabLines(tab.1))
  }

  /** The sections built from the fields when the feature has no tabs. */
  function FallbackSections(notes: Option<string>, resources: seq<Link>, subfeatures: seq<Link>): seq<(string, seq<string>)> {
    (if Given(notes) then [("Notes", [notes.value])] else [])
    + (if resources != [] then [("Resources", ParseFeature.LinkLines(resources))] else [])
    + (if subfeatures != [] then [("Sub-features", ParseFeature.LinkLines(subfeatures))] else [])
  }

  /** `_tab_sections`: Info, then the tabs (or the fallback sections), then
      the legend without its header. */
  function TabSections(f: FeatureFull, fmt: real -> string): seq<(string, seq<string>)> {
    [("Info", InfoLines(f.basic, fmt))]
    + (if f.tabs != [] then Map(f.tabs, TabSection) else FallbackSections(f.notesText, f.resources, f.subfeatures))
    + [("Legend", LegendLines()[1..])]
  }

  /** The Info section of `_tab_sections`, appending line by line. */
  method InfoLinesOf(f: FeatureBasic, fmt: real -> string) returns (info: seq<string>)
    ensures info == InfoLines(f, fmt)
  {
    info := [];
    if Given(f.specUrl) {
      var suffix := if Given(f.specStatus) then " (" + f.specStatus.value + ")" else "";
      info := info + ["Spec: " + f.specUrl.value + suffix];
    }
    assert info == SpecLines(f);
    var parts := UsagePart("\U{2705} ", fmt, f.usageSupported);
    parts := parts + UsagePart("\U{25D0} ", fmt, f.usagePartial);
    parts := parts + UsagePart("Total ", fmt, f.usageTotal);
    if parts != [] {
      info := info + ["Usage: " + Join("  ", parts)];
    }
    assert info == SpecLines(f) + UsageLines(f, fmt);
    if f.descriptionText != "" {
      info := info + ["", "Description", f.descriptionText];
    }
    if info == [] {
      info := [NoMetadataLine];
    }
  }

  /** The sections of the tabs, in order. */
  method TabListSections(tabs: seq<(string, string)>) returns (sections: seq<(string, seq<string>)>)
    ensures sections == Map(tabs, TabSection)
  {
    sections := [];
    for i := 0 to |tabs|
      invariant sections == Map(tabs[..i], TabSection)
    {
      var (name, content) := tabs[i];
      var lines := SplitLines(content);
      if lines == [] {
        lines := [content];
      }
      sections := sections + [(name, lines)];
      MapPrefix(tabs, TabSection, i);
    }
    assert tabs[..|tabs|] == tabs;
  }

  /** The sections `_tab_sections` builds from the fields when there are no tabs. */
  method FallbackSectionsOf(notes: Option<string>, resources: seq<Link>, subfeatures: seq<Link>)
    returns (sections: seq<(string, seq<string>)>)
    ensures sections == FallbackSections(notes, resources, subfeatures)
  {
    sections := [];
    if Given(notes) {
      sections := sections + [("Notes", [notes.value])];
    }
    if resources != [] {
      sections := sections + [("Resources", ParseFeature.LinkLines(resources))];
    }
    if subfeatures != [] {
      sections := sections + [("Sub-features", ParseFeature.LinkLines(subfeatures))];
    }
  }

  /** `_tab_sections`. */
  method TabSectionsOf(feature: FeatureFull, fmt: real -> string) returns (sections: seq<(string, seq<string>)>)
    ensures sections == TabSections(feature, fmt)
  {
    var info := InfoLinesOf(feature.basic, fmt);
    var middle: seq<(string, seq<string>)>;
    if feature.tabs != [] {
      middle := TabListSections(feature.tabs);
    } else {
      middle := FallbackSectionsOf(feature.notesText, feature.resources, feature.subfeatures);
    }
    sections := [("Info", info)] + middle + [("Legend", LegendLines()[1..])];
  }

  /** The sections start with Info and end with the four legend entries;
      Info is the placeholder exactly when the feature has no spec link, no
      usage and no description. */
  lemma TabSectionsFrame(f: FeatureFull, fmt: real -> string)
    ensures var sections := TabSections(f, fmt);
      |sections| >= 2 && sections[0] == ("Info", InfoLines(f.basic, fmt))
      && sections[|sections| - 1] == ("Legend", [LegendEntry("y"), LegendEntry("n"), LegendEntry("a"), LegendEntry("u")])
    ensures InfoLines(f.basic, fmt) == [NoMetadataLine] <==>
      !Given(f.basic.specUrl) && f.basic.usageSupported.None? && f.basic.usagePartial.None?
      && f.basic.usageTotal.None? && f.basic.descriptionText == ""
  {
    var sections := TabSections(f, fmt);
    var middle := if f.tabs != [] then Map(f.tabs, TabSection) else FallbackSections(f.notesText, f.resources, f.subfeatures);
    Between(("Info", InfoLines(f.basic, fmt)), middle, ("Legend", LegendLines()[1..]));
    var body := InfoBody(f.basic, fmt);
    var spec, usage := SpecLines(f.basic), UsageLines(f.basic, fmt);
    if body != [] {
      if spec != [] {
        assert body[0] == spec[0] && spec[0][0] == 'S';
      } else if usage != [] {
        assert body[0] == usage[0] && usage[0][0] == 'U';
      } else {
        assert |body| == 3;
      }
      assert NoMetadataLine[0] == 'N';
    }
  }

  /** With tabs, the middle sections are the tabs in order, each split into
      lines, an empty tab giving one empty line; without, they are the
      fallback sections. */
  lemma TabSectionsMiddle(f: FeatureFull, fmt: real -> string)
    ensures var sections := TabSections(f, fmt);
      f.tabs != [] ==> (|sections| == |f.tabs| + 2
        && forall i :: 0 <= i < |f.tabs| ==> sections[i + 1] == (f.tabs[i].0, TabLines(f.tabs[i].1)))
    ensures f.tabs == [] ==> TabSections(f, fmt)[1..|TabSections(f, fmt)| - 1] == FallbackSections(f.notesText, f.resources, f.subfeatures)
    ensures TabLines("") == [""]
  {
    var middle := if f.tabs != [] then Map(f.tabs, TabSection) else FallbackSections(f.notesText, f.resources, f.subfeatures);
    Between(("Info", InfoLines(f.basic, fmt)), middle, ("Legend", LegendLines()[1..]));
  }

  /** `LinePrefix` of a line-break-free text, then a break, stops at the break. */
  lemma {:induction false} LinePrefixBefore(a: string, c: char, x: string)
    requires NoLineBreak(a) && IsLineBreak(c)
    ensures LinePrefix(a + [c] + x) == a
    decreases |a|
  {
    if a == [] {
      assert a + [c] + x == [c] + x;
    } else {
      assert (a + [c] + x)[0] == a[0];
      assert (a + [c] + x)[1..] == a[1..] + [c] + x;
      LinePrefixBefore(a[1..], c, x);
      assert a == [a[0]] + a[1..];
    }
  }

  /** Joining lines free of line breaks with "\n" and splitting the result
      into lines gives them back, provided the last one is not empty. */
  lemma {:induction false} SplitLinesJoin(lines: seq<string>)
    requires lines != [] && lines[|lines| - 1] != ""
    requires forall i :: 0 <= i < |lines| ==> NoLineBreak(lines[i])
    ensures SplitLines(Join("\n", lines)) == lines
    decreases |lines|
  {
    if |lines| == 1 {
      var r := LinePrefix(lines[0]);
      assert |r| == |lines[0]|;
    } else {
      var s := Join("\n", lines);
      var rest := Join("\n", lines[1..]);
      assert s == lines[0] + "\n" + rest;
      LinePrefixBefore(lines[0], '\n', rest);
      assert s[|lines[0]|] == '\n';
      assert s[|lines[0]| + 1..] == rest;
      SplitLinesJoin(lines[1..]);
      assert lines == [lines[0]] + lines[1..];
    }
  }

  lemma NoLineBreakJoin(a: string, b: string)
    requires NoLineBreak(a) && NoLineBreak(b)
    ensures NoLineBreak(a + b)
  {
    forall k | 0 <= k < |a + b| ensures !IsLineBreak((a + b)[k]) {
      if k < |a| { assert (a + b)[k] == a[k]; } else { assert (a + b)[k] == b[k - |a|]; }
    }
  }

  lemma PairNoLineBreak(a: char, b: char)
    requires !IsLineBreak(a) && !IsLineBreak(b)
    ensures NoLineBreak([a, b])
  {
  }

  lemma LinkLineNoBreak(l: Link)
    requires NoLineBreak(l.0) && NoLineBreak(l.1)
    ensures NoLineBreak(ParseFeature.LinkLine(l))
  {
    PairNoLineBreak('-', ' ');
    PairNoLineBreak(':', ' ');
    NoLineBreakJoin("- ", l.0);
    NoLineBreakJoin("- " + l.0, ": ");
    NoLineBreakJoin("- " + l.0 + ": ", l.1);
  }

  /** A list tab built by the parser splits back into its "- label: url" lines. */
  lemma ListTabLines(links: seq<Link>)
    requires links != []
    requires forall i :: 0 <= i < |links| ==> NoLineBreak(links[i].0) && NoLineBreak(links[i].1)
    ensures TabLines(Join("\n", ParseFeature.LinkLines(links))) == ParseFeature.LinkLines(links)
  {
    var lines := ParseFeature.LinkLines(links);
    forall i | 0 <= i < |lines| ensures NoLineBreak(lines[i]) {
      LinkLineNoBreak(links[i]);
    }
    assert lines[|lines| - 1][0] == '-';
    SplitLinesJoin(lines);
  }

  /** A note free of line breaks is a tab of one line. */
  lemma NotesTabLines(notes: string)
    requires notes != "" && NoLineBreak(notes)
    ensures TabLines(notes) == [notes]
  {
    var r := LinePrefix(notes);
    assert |r| == |notes|;
  }

  lemma MapOne<T, U>(x: T, f: T -> U)
    ensures Map([x], f) == [f(x)]
  {
  }

  lemma NotesTabSection(notes: Option<string>)
    requires notes.Some? ==> NoLineBreak(notes.value)
    ensures var n := if Given(notes) then [("Notes", notes.value)] else [];
      Map(n, TabSection) == if Given(notes) then [("Notes", [notes.value])] else []
  {
    if Given(notes) {
      NotesTabLines(notes.value);
      MapOne(("Notes", notes.value), TabSection);
    }
  }

  lemma ListTabSection(name: string, links: seq<Link>)
    requires forall i :: 0 <= i < |links| ==> NoLineBreak(links[i].0) && NoLineBreak(links[i].1)
    ensures var t := if links != [] then [(name, Join("\n", ParseFeature.LinkLines(links)))] else [];
      Map(t, TabSection) == if links != [] then [(name, ParseFeature.LinkLines(links))] else []
  {
    if links != [] {
      ListTabLines(links);
      MapOne((name, Join("\n", ParseFeature.LinkLines(links))), TabSection);
    }
  }

  /** The tabs the parser builds, split into lines, are the fallback sections. */
  lemma TabsMapToFallback(notes: Option<string>, resources: seq<Link>, subfeatures: seq<Link>)
    requires notes.Some? ==> NoLineBreak(notes.value)
    requires forall i :: 0 <= i < |resources| ==> NoLineBreak(resources[i].0) && NoLineBreak(resources[i].1)
    requires forall i :: 0 <= i < |subfeatures| ==> NoLineBreak(subfeatures[i].0) && NoLineBreak(subfeatures[i].1)
    ensures Map(ParseFeature.Tabs(notes, resources, subfeatures), TabSection) == FallbackSections(notes, resources, subfeatures)
  {
    var n := if Given(notes) then [("Notes", notes.value)] else [];
    var r := if resources != [] then [("Resources", Join("\n", ParseFeature.LinkLines(resources)))] else [];
    var s := if subfeatures != [] then [("Sub-features", Join("\n", ParseFeature.LinkLines(subfeatures)))] else [];
    assert ParseFeature.Tabs(notes, resources, subfeatures) == n + r + s;
    MapAppend(n + r, s, TabSection);
    MapAppend(n, r, TabSection);
    NotesTabSection(notes);
    ListTabSection("Resources", resources);
    ListTabSection("Sub-features", subfeatures);
  }

  /** For the tabs the parser builds, the tab path and the fallback path of
      `_tab_sections` give the same sections, as long as no note, label or
      address holds a line break. */
  lemma TabsAgreeWithFallback(f: FeatureFull, fmt: real -> string)
    requires f.tabs == ParseFeature.Tabs(f.notesText, f.resources, f.subfeatures)
    requires f.notesText.Some? ==> NoLineBreak(f.notesText.value)
    requires forall i :: 0 <= i < |f.resources| ==> NoLineBreak(f.resources[i].0) && NoLineBreak(f.resources[i].1)
    requires forall i :: 0 <= i < |f.subfeatures| ==> NoLineBreak(f.subfeatures[i].0) && NoLineBreak(f.subfeatures[i].1)
    ensures TabSections(f, fmt) == TabSections(f.(tabs := []), fmt)
  {
    if f.tabs != [] {
      TabsMapToFallback(f.notesText, f.resources, f.subfeatures);
    }
  }

  // ---------------------------------------------------------------- era

  /** `_era_label`. */
  function EraLabel(r: SupportRange): (era: string)
    ensures era == "current" <==> r.isCurrent
    ensures era == "future" <==> !r.isCurrent && r.isFuture
    ensures era == "past" <==> !r.isCurrent && !r.isFuture
  {
    if r.isCurrent then "current" else if r.isFuture then "future" else "past"
  }

  /** The era does not look at the past flag. */
  lemma EraIgnoresPast(r: SupportRange, past: bool)
    ensures EraLabel(r.(isPast := past)) == EraLabel(r)
  {
  }

  // ---------------------------------------------------------------- global usage

  /** The literal start of `Global usage:\s*([0-9]+(?:\.[0-9]+)?)%`. */
  const UsageLabel: string := "Global usage:"

  /** The longest prefix of `s` made of digits. */
  function DigitRun(s: string): (r: string)
    ensures |r| <= |s| && r == s[..|r|] && AllDigits(r)
    ensures |r| < |s| ==> !IsDigit(s[|r|])
  {
    if s != [] && IsDigit(s[0]) then [s[0]] + DigitRun(s[1..]) else []
  }

  /** A number as `[0-9]+(?:\.[0-9]+)?` matches it: a whole part and an
      optional fraction. */
  function UsageNumber(whole: string, fraction: string): string {
    if fraction == "" then whole else whole + "." + fraction
  }

  /** What `\s*([0-9]+(?:\.[0-9]+)?)%` captures at the start of `s`. Every
      repetition is greedy and backing off from it never helps, because the
      character given back is a space or a digit, never '%' or a digit. */
  function NumberAt(s: string): (r: Option<string>)
    ensures r.Some? ==> exists whole, fraction :: (whole != "" && AllDigits(whole) && AllDigits(fraction)
      && r.value == UsageNumber(whole, fraction))
  {
    var t := TrimStart(s);
    var whole := DigitRun(t);
    var rest := t[|whole|..];
    if whole == "" then None
    else if rest != [] && rest[0] == '%' then
      assert whole == UsageNumber(whole, "");
      Some(whole)
    else if rest != [] && rest[0] == '.' then
      var fraction := DigitRun(rest[1..]);
      if fraction != "" && |fraction| + 1 < |rest| && rest[|fraction| + 1] == '%' then
        assert whole + "." + fraction == UsageNumber(whole, fraction);
        Some(whole + "." + fraction)
      else None
    else None
  }

  /** The capture of the pattern matched from index `k` of `s`, if it matches there. */
  function MatchAt(s: string, k: nat): Option<string> {
    if OccursAt(s, UsageLabel, k) then NumberAt(s[k + |UsageLabel|..]) else None
  }

  /** `re.search` from index `k` on, for a pattern whose match at index `j`
      of `s` captures `at(s, j)`: the capture at the leftmost index that
      has a match. */
  function Search(s: string, k: nat, at: (string, nat) -> Option<string>): Option<string>
    decreases |s| - k
  {
    if k > |s| then None
    else if at(s, k).Some? then at(s, k)
    else Search(s, k + 1, at)
  }

  /** `_extract_global_usage`: the captured number and "%". */
  function ExtractGlobalUsage(title: string): (r: Option<string>)
    ensures r.Some? ==> |r.value| > 0 && r.value[|r.value| - 1] == '%'
  {
    if title == "" then None
    else
      match Search(title, 0, MatchAt)
      case Some(n) => Some(n + "%")
      case None => None
  }

  lemma {:induction false} SearchLeftmost(s: string, k: nat, at: (string, nat) -> Option<string>)
    ensures Search(s, k, at).None? <==> forall j :: k <= j <= |s| ==> at(s, j).None?
    ensures Search(s, k, at).Some? ==> exists j :: (k <= j <= |s| && at(s, j) == Search(s, k, at)
      && forall i :: k <= i < j ==> at(s, i).None?)
    decreases |s| - k
  {
    if k <= |s| && at(s, k).None? {
      SearchLeftmost(s, k + 1, at);
    }
  }

  /** No match anywhere in the text (or an empty text) gives None; a match
      gives the capture of the leftmost match followed by "%". */
  lemma ExtractGlobalUsageLeftmost(title: string)
    ensures ExtractGlobalUsage(title).None? <==> forall j :: 0 <= j <= |title| ==> MatchAt(title, j).None?
    ensures ExtractGlobalUsage(title).Some? ==> exists j, n :: (0 <= j <= |title| && MatchAt(title, j) == Some(n)
      && ExtractGlobalUsage(title) == Some(n + "%") && forall i :: 0 <= i < j ==> MatchAt(title, i).None?)
  {
    SearchLeftmost(title, 0, MatchAt);
    if title == "" {
      assert !OccursAt(title, UsageLabel, 0);
    }
  }

  lemma {:induction false} TrimStartSpaces(ws: string, x: string)
    requires forall i :: 0 <= i < |ws| ==> IsSpace(ws[i])
    requires x == [] || !IsSpace(x[0])
    ensures TrimStart(ws + x) == x
    decreases |ws|
  {
    if ws == [] {
      assert ws + x == x;
    } else {
      assert (ws + x)[0] == ws[0];
      assert (ws + x)[1..] == ws[1..] + x;
      TrimStartSpaces(ws[1..], x);
    }
  }

  lemma {:induction false} DigitRunOf(d: string, x: string)
    requires AllDigits(d)
    requires x == [] || !IsDigit(x[0])
    ensures DigitRun(d + x) == d
    decreases |d|
  {
    if d == [] {
      assert d + x == x;
    } else {
      assert (d + x)[0] == d[0];
      assert (d + x)[1..] == d[1..] + x;
      DigitRunOf(d[1..], x);
      assert d == [d[0]] + d[1..];
    }
  }

  /** The capture at the start of spacing, a number, '%' and anything. */
  lemma NumberAtOf(ws: string, whole: string, fraction: string, rest: string)
    requires forall i :: 0 <= i < |ws| ==> IsSpace(ws[i])
    requires whole != "" && AllDigits(whole) && AllDigits(fraction)
    ensures NumberAt(ws + (UsageNumber(whole, fraction) + ("%" + rest))) == Some(UsageNumber(whole, fraction))
  {
    var t := UsageNumber(whole, fraction) + ("%" + rest);
    assert t[0] == whole[0];
    TrimStartSpaces(ws, t);
    if fraction == "" {
      NumberAtWhole(ws + t, whole, rest);
    } else {
      SeqAssoc(whole, ".", fraction, "%" + rest);
      NumberAtFraction(ws + t, whole, fraction, rest);
    }
  }

  lemma NumberAtWhole(s: string, whole: string, rest: string)
    requires whole != "" && AllDigits(whole)
    requires TrimStart(s) == whole + ("%" + rest)
    ensures NumberAt(s) == Some(whole)
  {
    DigitRunOf(whole, "%" + rest);
    assert (whole + ("%" + rest))[|whole|..] == "%" + rest;
  }

  lemma NumberAtFraction(s: string, whole: string, fraction: string, rest: string)
    requires whole != "" && AllDigits(whole) && fraction != "" && AllDigits(fraction)
    requires TrimStart(s) == whole + ("." + (fraction + ("%" + rest)))
    ensures NumberAt(s) == Some(whole + "." + fraction)
  {
    var t := TrimStart(s);
    FractionRuns(t, whole, fraction, "%" + rest);
    var after := t[|whole|..];
    assert after[0] == '.' && after[0] != '%';
    var run := DigitRun(after[1..]);
    assert run == fraction && run != "";
    assert after[|run| + 1] == '%';
  }

  /** The digit runs of a number with a fraction, followed by '%'. */
  lemma FractionRuns(t: string, whole: string, fraction: string, pct: string)
    requires AllDigits(whole) && AllDigits(fraction) && pct != [] && pct[0] == '%'
    requires t == whole + ("." + (fraction + pct))
    ensures DigitRun(t) == whole
    ensures var tail := t[|whole|..];
      && tail == "." + (fraction + pct) && DigitRun(tail[1..]) == fraction
      && |fraction| + 1 < |tail| && tail[|fraction| + 1] == '%'
  {
    var tail := "." + (fraction + pct);
    DigitRunOf(whole, tail);
    assert t[|whole|..] == tail;
    assert tail[1..] == fraction + pct;
    DigitRunOf(fraction, pct);
    assert tail[|fraction| + 1] == (fraction + pct)[|fraction|];
  }

  /** A tooltip that starts with the label, spacing and a number followed
      by '%' yields that number and '%', whatever follows. */
  lemma GlobalUsageRoundTrip(ws: string, whole: string, fraction: string, rest: string)
    requires forall i :: 0 <= i < |ws| ==> IsSpace(ws[i])
    requires whole != "" && AllDigits(whole) && AllDigits(fraction)
    ensures var n := UsageNumber(whole, fraction);
      ExtractGlobalUsage(UsageLabel + ws + n + "%" + rest) == Some(n + "%")
  {
    var n := UsageNumber(whole, fraction);
    var after := ws + (n + ("%" + rest));
    var title := UsageLabel + after;
    assert UsageLabel + ws + n + "%" + rest == title;
    assert title[..|UsageLabel|] == UsageLabel;
    assert title[|UsageLabel|..] == after;
    NumberAtOf(ws, whole, fraction, rest);
    assert MatchAt(title, 0) == Some(n);
  }

  // ---------------------------------------------------------------- support-table row

  /** The icon, range, era and label of a row. */
  function RowHead(r: SupportRange): string {
    " " + StatusIcon(r.status) + " " + " " + r.rangeText + " " + "[" + EraLabel(r) + "]"
    + "  " + StatusLabel(r.status)
  }

  /** The plain text of `_format_support_line`: the head, then
      "  usage:X" when the usage is asked for and found, then
      "  notes:a,b" when the range has note markers. */
  function SupportLineText(r: SupportRange, includeUsage: bool): string {
    var usage := if includeUsage then ExtractGlobalUsage(r.titleAttr) else None;
    var notes := ExtractNoteMarkers(r.rawClasses);
    var head := RowHead(r);
    var withUsage := if usage.Some? && usage.value != "" then head + "  usage:" + usage.value else head;
    if notes != [] then withUsage + "  notes:" + Join(",", notes) else withUsage
  }

  /** `_format_support_line`, appending piece by piece to the row text. */
  method FormatSupportLine(r: SupportRange, includeUsage: bool) returns (line: string)
    ensures line == SupportLineText(r, includeUsage)
  {
    var icon := StatusIcon(r.status);
    var statusLabel := StatusLabel(r.status);
    var notes := ExtractNoteMarkers(r.rawClasses);
    var era := EraLabel(r);
    var usage := if includeUsage then ExtractGlobalUsage(r.titleAttr) else None;
    line := " " + icon + " ";
    line := line + " " + r.rangeText + " ";
    line := line + "[" + era + "]";
    line := line + "  " + statusLabel;
    assert line == RowHead(r);
    if usage.Some? && usage.value != "" {
      line := line + "  usage:" + usage.value;
    }
    if notes != [] {
      line := line + "  notes:" + Join(",", notes);
    }
  }

  /** Asking for the usage only inserts "  usage:X" right after the status
      label, and only when the tooltip holds a global usage. */
  lemma SupportLineUsage(r: SupportRange)
    ensures ExtractGlobalUsage(r.titleAttr).None? ==> SupportLineText(r, true) == SupportLineText(r, false)
    ensures ExtractGlobalUsage(r.titleAttr).Some? ==>
      var k := |RowHead(r)|;
      var plain := SupportLineText(r, false);
      k <= |plain| && SupportLineText(r, true) == plain[..k] + "  usage:" + ExtractGlobalUsage(r.titleAttr).value + plain[k..]
  {
    var u := ExtractGlobalUsage(r.titleAttr);
    if u.Some? {
      var notes := ExtractNoteMarkers(r.rawClasses);
      var head := RowHead(r);
      var k := |head|;
      var plain := SupportLineText(r, false);
      var tail := if notes != [] then "  notes:" + Join(",", notes) else "";
      var withUsage := head + "  usage:" + u.value;
      if notes != [] {
        Regroup(head, "  notes:", Join(",", notes));
        Regroup(withUsage, "  notes:", Join(",", notes));
      }
      assert plain == head + tail;
      assert SupportLineText(r, true) == withUsage + tail;
      assert plain[..k] == head && plain[k..] == tail;
    }
  }

  /** Without asking for the usage, the row is its head, followed by
      "  notes:" and the markers exactly when the range has note markers. */
  lemma SupportLineNotes(r: SupportRange)
    ensures var markers := ExtractNoteMarkers(r.rawClasses);
      && (SupportLineText(r, false) == RowHead(r) <==> markers == [])
      && (markers != [] ==> SupportLineText(r, false)[|RowHead(r)|..] == "  notes:" + Join(",", markers))
  {
    var markers := ExtractNoteMarkers(r.rawClasses);
    if markers != [] {
      var tail := "  notes:" + Join(",", markers);
      Regroup(RowHead(r), "  notes:", Join(",", markers));
      assert SupportLineText(r, false) == RowHead(r) + tail;
      assert |SupportLineText(r, false)| > |RowHead(r)|;
    }
  }

  /** A row whose status has neither icon nor label reads as one of status "u". */
  lemma SupportLineUnknownStatus(r: SupportRange, includeUsage: bool)
    requires r.status !in StatusIcons && r.status !in StatusLabels
    ensures SupportLineText(r, includeUsage) == SupportLineText(r.(status := "u"), includeUsage)
  {
  }
}
