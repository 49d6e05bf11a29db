/** The basic-mode renderer, caniuse/render_basic.py: the usage line and the
    lines of the panel that shows one feature. Text styles and the panel's
    border are not part of this model; the two-decimal rendering of a usage
    share is the parameter `fmt`. */
module RenderBasic {
  import opened Wrappers
  import opened Strings
  import opened Text
  import opened Model
  import opened Lists

  // ---------------------------------------------------------------- usage line

  const SupportedMark: string := "\U{2705} "
  const PartialMark: string := "\U{25D0} "
  const TotalMark: string := "Total: "
  const UsagePrefix: string := "Usage: "

  /** The parts of the usage line, in the order supported, partial, total. */
  function UsageParts(f: FeatureBasic, fmt: real -> string): seq<string> {
    UsagePart(SupportedMark, fmt, f.usageSupported) + UsagePart(PartialMark, fmt, f.usagePartial)
    + UsagePart(TotalMark, fmt, f.usageTotal)
  }

  /** `_usage_line`: nothing when all three shares are unknown, otherwise
      "Usage: " and the parts joined by two spaces. */
  function UsageLine(f: FeatureBasic, fmt: real -> string): Option<string> {
    if f.usageSupported.None? && f.usagePartial.None? && f.usageTotal.None? then None
    else Some(UsagePrefix + Join("  ", UsageParts(f, fmt)))
  }

  /** `_usage_line` as the source builds it, appending one part per known share. */
  method UsageLineOf(f: FeatureBasic, fmt: real -> string) returns (line: Option<string>)
    ensures line == UsageLine(f, fmt)
  {
    if f.usageSupported.None? && f.usagePartial.None? && f.usageTotal.None? {
      return None;
    }
    var parts: seq<string> := [];
    if f.usageSupported.Some? {
      parts := parts + [SupportedMark + fmt(f.usageSupported.value) + "%"];
    }
    if f.usagePartial.Some? {
      parts := parts + [PartialMark + fmt(f.usagePartial.value) + "%"];
    }
    if f.usageTotal.Some? {
      parts := parts + [TotalMark + fmt(f.usageTotal.value) + "%"];
    }
    assert parts == UsageParts(f, fmt);
    line := Some(UsagePrefix + Join("  ", parts));
  }

  function Known(share: Option<real>): nat {
    if share.Some? then 1 else 0
  }

  /** The usage line is absent exactly when no share is known; otherwise it
      starts with "Usage: " and has one part per known share, the supported
      share first and the total last when they are known. */
  lemma UsageLineShape(f: FeatureBasic, fmt: real -> string)
    ensures UsageLine(f, fmt).None? <==> f.usageSupported.None? && f.usagePartial.None? && f.usageTotal.None?
    ensures UsageLine(f, fmt).Some? ==> StartsWith(UsageLine(f, fmt).value, UsagePrefix)
    ensures var parts := UsageParts(f, fmt);
      |parts| == Known(f.usageSupported) + Known(f.usagePartial) + Known(f.usageTotal)
      && (f.usageSupported.Some? ==> parts[0] == SupportedMark + fmt(f.usageSupported.value) + "%")
      && (f.usageTotal.Some? ==> parts[|parts| - 1] == TotalMark + fmt(f.usageTotal.value) + "%")
  {
  }

  // ---------------------------------------------------------------- panel lines

  const BrowserSupportHeader: string := "Browser Support"

  /** "Spec: url [status]", when there is a spec link. */
  function SpecLines(f: FeatureBasic): seq<string> {
    if Given(f.specUrl)
    then ["Spec: " + f.specUrl.value + (if Given(f.specStatus) then " [" + f.specStatus.value + "]" else "")]
    else []
  }

  function UsageLines(f: FeatureBasic, fmt: real -> string): seq<string> {
    var usage := UsageLine(f, fmt);
    if usage.Some? then [usage.value] else []
  }

  function DescriptionLines(f: FeatureBasic): seq<string> {
    if f.descriptionText != "" then ["", "Description", f.descriptionText] else []
  }

  /** The lines above the browser blocks: the title, the optional spec, usage
      and description lines, a blank line and the "Browser Support" header. */
  function HeadLines(f: FeatureBasic, fmt: real -> string): seq<string> {
    [f.title] + SpecLines(f) + UsageLines(f, fmt) + DescriptionLines(f) + ["", BrowserSupportHeader]
  }

  /** The " [See notes: 1,2]" tail of a range line; empty without markers. */
  function SeeNotesHint(markers: seq<string>): string {
    if markers == [] then "" else " [See notes: " + Join(",", markers) + "]"
  }

  /** "  range: icon label" and the notes tail; a status without an icon or
      label gets those of "u". */
  function RangeLine(r: SupportRange): string {
    "  " + r.rangeText + ": " + StatusIcon(r.status) + " " + StatusLabel(r.status)
    + SeeNotesHint(ExtractNoteMarkers(r.rawClasses))
  }

  /** One block: its name, then one line per range (no blank line between blocks). */
  function BlockLines(b: BrowserSupportBlock): seq<string> {
    [b.browserName] + Map(b.ranges, RangeLine)
  }

  /** All lines of the panel, in order. */
  function BasicLines(f: FeatureBasic, fmt: real -> string): seq<string> {
    HeadLines(f, fmt) + FlatMap(f.browserBlocks, BlockLines) + ["", FullModeHint]
  }

  /** The panel: its title "/slug" and its lines. */
  datatype Panel = Panel(title: string, lines: seq<string>)

  /** The lines above the browser blocks, appended one by one. */
  method HeadLinesOf(f: FeatureBasic, fmt: real -> string) returns (lines: seq<string>)
    ensures lines == HeadLines(f, fmt)
  {
    lines := [f.title];
    if Given(f.specUrl) {
      var specTail := if Given(f.specStatus) then " [" + f.specStatus.value + "]" else "";
      lines := lines + ["Spec: " + f.specUrl.value + specTail];
    }
    var usage := UsageLineOf(f, fmt);
    if usage.Some? {
      lines := lines + [usage.value];
    }
    if f.descriptionText != "" {
      lines := lines + ["", "Description", f.descriptionText];
    }
    lines := lines + ["", BrowserSupportHeader];
  }

  /** One block's lines: the name, then a line per range. */
  method BlockLinesOf(b: BrowserSupportBlock) returns (lines: seq<string>)
    ensures lines == BlockLines(b)
  {
    var rows: seq<string> := [];
    var ranges := b.ranges;
    for j := 0 to |ranges|
      invariant rows == Map(ranges[..j], RangeLine)
    {
      var notes := ExtractNoteMarkers(ranges[j].rawClasses);
      var noteHint := if notes != [] then " [See notes: " + Join(",", notes) + "]" else "";
      rows := rows + ["  " + ranges[j].rangeText + ": " + StatusIcon(ranges[j].status) + " "
                      + StatusLabel(ranges[j].status) + noteHint];
      MapPrefix(ranges, RangeLine, j);
    }
    assert ranges[..|ranges|] == ranges;
    lines := [b.browserName] + rows;
  }

  /** `render_basic`: the head lines, every block in order, then a blank
      line and the full-mode hint, in a panel titled "/slug". */
  method Render(f: FeatureBasic, fmt: real -> string) returns (panel: Panel)
    ensures panel.title == "/" + f.slug
    ensures panel.lines == BasicLines(f, fmt)
  {
    var head := HeadLinesOf(f, fmt);
    var blocks := f.browserBlocks;
    var body: seq<string> := [];
    for i := 0 to |blocks|
      invariant body == FlatMap(blocks[..i], BlockLines)
    {
      var more := BlockLinesOf(blocks[i]);
      body := body + more;
      FlatMapPrefix(blocks, BlockLines, i);
    }
    assert blocks[..|blocks|] == blocks;
    panel := Panel("/" + f.slug, head + body + ["", FullModeHint]);
  }

  // ---------------------------------------------------------------- layout

  /** The number of lines the blocks before block `i` take. */
  function LinesBefore(blocks: seq<BrowserSupportBlock>, i: nat): nat
    requires i <= |blocks|
  {
    if i == 0 then 0 else LinesBefore(blocks, i - 1) + |blocks[i - 1].ranges| + 1
  }

  /** `lines` shows block `b` from index `at` on: its name, then one line per
      range in order. */
  predicate BlockAt(lines: seq<string>, at: nat, b: BrowserSupportBlock) {
    Framed(lines, at, b.browserName, b.ranges, RangeLine, [])
  }

  lemma {:induction false} LinesBeforeCount(blocks: seq<BrowserSupportBlock>, i: nat)
    requires i <= |blocks|
    ensures |FlatMap(blocks[..i], BlockLines)| == LinesBefore(blocks, i)
  {
    if i > 0 {
      LinesBeforeCount(blocks, i - 1);
      FlatMapPrefix(blocks, BlockLines, i - 1);
    }
  }

  lemma BlockPlaced(blocks: seq<BrowserSupportBlock>, i: nat)
    requires i < |blocks|
    ensures BlockAt(FlatMap(blocks, BlockLines), |FlatMap(blocks[..i], BlockLines)|, blocks[i])
  {
    assert BlockLines(blocks[i]) == [blocks[i].browserName] + Map(blocks[i].ranges, RangeLine) + [];
    FlatMapFramed(FlatMap(blocks, BlockLines), blocks, BlockLines, i, |FlatMap(blocks[..i], BlockLines)|,
                  blocks[i].browserName, blocks[i].ranges, RangeLine, []);
  }

  /** The head: the title first, then the spec, usage and description
      lines exactly when the feature has them, then a blank line and the
      "Browser Support" header. */
  lemma HeadLayout(f: FeatureBasic, fmt: real -> string)
    ensures var head := HeadLines(f, fmt);
      var h := 1 + |SpecLines(f)| + |UsageLines(f, fmt)| + |DescriptionLines(f)|;
      && |head| == h + 2 && head[0] == f.title
      && (|SpecLines(f)| == 1 <==> Given(f.specUrl))
      && (|UsageLines(f, fmt)| == 1 <==> UsageLine(f, fmt).Some?)
      && (|DescriptionLines(f)| == 3 <==> f.descriptionText != "")
      && head[h] == "" && head[h + 1] == BrowserSupportHeader
    ensures var head := HeadLines(f, fmt);
      Given(f.specUrl) ==>
        head[1] == "Spec: " + f.specUrl.value + (if Given(f.specStatus) then " [" + f.specStatus.value + "]" else "")
    ensures var head := HeadLines(f, fmt);
      var u := 1 + |SpecLines(f)|;
      UsageLine(f, fmt).Some? ==> u < |head| && head[u] == UsageLine(f, fmt).value
    ensures var head := HeadLines(f, fmt);
      var d := 1 + |SpecLines(f)| + |UsageLines(f, fmt)|;
      f.descriptionText != "" ==>
        d + 2 < |head| && head[d] == "" && head[d + 1] == "Description" && head[d + 2] == f.descriptionText
  {
    var spec, usage, desc := SpecLines(f), UsageLines(f, fmt), DescriptionLines(f);
    var head := HeadLines(f, fmt);
    assert head == [f.title] + spec + usage + desc + ["", BrowserSupportHeader];
    assert head[1..1 + |spec|] == spec;
    assert head[1 + |spec|..1 + |spec| + |usage|] == usage;
    assert head[1 + |spec| + |usage|..1 + |spec| + |usage| + |desc|] == desc;
  }

  /** The blocks' lines: every block in order, right after the blocks
      before it, and nothing else. */
  lemma BodyLayout(blocks: seq<BrowserSupportBlock>)
    ensures |FlatMap(blocks, BlockLines)| == LinesBefore(blocks, |blocks|)
    ensures forall i :: 0 <= i < |blocks| ==>
      BlockAt(FlatMap(blocks, BlockLines), LinesBefore(blocks, i), blocks[i])
  {
    LinesBeforeCount(blocks, |blocks|);
    assert blocks[..|blocks|] == blocks;
    forall i | 0 <= i < |blocks|
      ensures BlockAt(FlatMap(blocks, BlockLines), LinesBefore(blocks, i), blocks[i])
    {
      BlockPlaced(blocks, i);
      LinesBeforeCount(blocks, i);
    }
  }

  /** In any lines made of a head, the blocks' lines and a tail, block
      `i` follows the head and the blocks before it. */
  lemma BlockBetween(lines: seq<string>, head: seq<string>, blocks: seq<BrowserSupportBlock>, tail: seq<string>, i: nat)
    requires i < |blocks| && lines == head + FlatMap(blocks, BlockLines) + tail
    ensures BlockAt(lines, |head| + LinesBefore(blocks, i), blocks[i])
  {
    var b := blocks[i];
    assert BlockLines(b) == [b.browserName] + Map(b.ranges, RangeLine) + [];
    LinesBeforeCount(blocks, i);
    FlatMapFramedBetween(lines, head, blocks, BlockLines, tail, i, |head| + LinesBefore(blocks, i),
                         b.browserName, b.ranges, RangeLine, []);
  }

  /** Block `i` sits in the panel right after the head and the blocks
      before it. */
  lemma BlockInPanel(f: FeatureBasic, fmt: real -> string, i: nat)
    requires i < |f.browserBlocks|
    ensures BlockAt(BasicLines(f, fmt), |HeadLines(f, fmt)| + LinesBefore(f.browserBlocks, i), f.browserBlocks[i])
  {
    BlockBetween(BasicLines(f, fmt), HeadLines(f, fmt), f.browserBlocks, ["", FullModeHint], i);
  }

  /** The panel is the head, then the lines of the blocks, then a blank
      line and the full-mode hint, and nothing else. */
  lemma BasicLinesLayout(f: FeatureBasic, fmt: real -> string)
    ensures BasicLines(f, fmt)[..|HeadLines(f, fmt)|] == HeadLines(f, fmt)
    ensures |BasicLines(f, fmt)| == |HeadLines(f, fmt)| + LinesBefore(f.browserBlocks, |f.browserBlocks|) + 2
    ensures BasicLines(f, fmt)[|BasicLines(f, fmt)| - 2..] == ["", FullModeHint]
  {
    var blocks := f.browserBlocks;
    var head, body, tail := HeadLines(f, fmt), FlatMap(blocks, BlockLines), ["", FullModeHint];
    assert |body| == LinesBefore(blocks, |blocks|) by {
      LinesBeforeCount(blocks, |blocks|);
      assert blocks[..|blocks|] == blocks;
    }
    assert (head + body + tail)[..|head|] == head;
    assert (head + body + tail)[|head| + |body|..] == tail;
  }

  /** A range line is "  range: icon label", followed by " [See notes: ...]"
      with the markers exactly when the range has note markers. */
  lemma RangeLineNotes(r: SupportRange)
    ensures var plain := "  " + r.rangeText + ": " + StatusIcon(r.status) + " " + StatusLabel(r.status);
      var markers := ExtractNoteMarkers(r.rawClasses);
      && |plain| <= |RangeLine(r)| && RangeLine(r)[..|plain|] == plain
      && (RangeLine(r) == plain <==> markers == [])
      && (markers != [] ==> RangeLine(r)[|plain|..] == " [See notes: " + Join(",", markers) + "]")
  {
    var plain := "  " + r.rangeText + ": " + StatusIcon(r.status) + " " + StatusLabel(r.status);
    var hint := SeeNotesHint(ExtractNoteMarkers(r.rawClasses));
    assert RangeLine(r) == plain + hint;
    assert (plain + hint)[..|plain|] == plain && (plain + hint)[|plain|..] == hint;
  }

  /** A status outside the icon and label tables renders as "u". */
  lemma RangeLineUnknownStatus(r: SupportRange)
    requires r.status !in StatusIcons && r.status !in StatusLabels
    ensures RangeLine(r) == RangeLine(r.(status := "u"))
  {
  }
}
