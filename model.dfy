/** The records and constants of caniuse/model.py and caniuse/constants.py. */
module Model {
  import opened Wrappers

  const BaseUrl: string := "https://caniuse.com"
  const SearchUrl: string := BaseUrl + "/"

  /** The feature page address for a slug. */
  function FeatureUrl(slug: string): string {
    BaseUrl + "/" + slug
  }

  /** The browsers kept in basic mode, in display order. */
  const BasicModeBrowsers: seq<string> := ["chrome", "edge", "firefox", "safari", "opera"]

  const StatusIcons: map<string, string> :=
    map["y" := "\U{2705}", "n" := "\U{274C}", "a" := "\U{25D0}", "u" := "\U{FE56}"]

  const StatusLabels: map<string, string> :=
    map["y" := "Supported", "n" := "Not supported", "a" := "Partial support", "u" := "Unknown"]

  const ParseWarningLine: string := "Some sections could not be parsed (site layout may have changed)."
  const FullModeHint: string := "Run with --full to see all browsers + Notes/Resources/Sub-features."

  /** The icon of a status, the unknown-status icon for any other value. */
  function StatusIcon(status: string): string {
    if status in StatusIcons then StatusIcons[status] else StatusIcons["u"]
  }

  /** The label of a status, the unknown-status label for any other value. */
  function StatusLabel(status: string): string {
    if status in StatusLabels then StatusLabels[status] else StatusLabels["u"]
  }

  /** A text field that Python treats as true: present and not empty. */
  predicate Given(s: Option<string>) {
    s.Some? && s.value != ""
  }

  /** One part of a usage line: a mark, the two-decimal rendering `fmt` of
      the share, and "%"; nothing when the share is unknown. */
  function UsagePart(mark: string, fmt: real -> string, share: Option<real>): seq<string> {
    if share.Some? then [mark + fmt(share.value) + "%"] else []
  }

  datatype SearchMatch = SearchMatch(slug: string, title: string, href: string)

  /** One version range of one browser. `status` is a string, as in the
      record, so that the renderers' fallback for other values is visible. */
  datatype SupportRange = SupportRange(
    rangeText: string,
    status: string,
    isPast: bool,
    isCurrent: bool,
    isFuture: bool,
    titleAttr: string,
    rawClasses: seq<string>)

  datatype BrowserSupportBlock = BrowserSupportBlock(
    browserName: string,
    browserKey: string,
    ranges: seq<SupportRange>)

  /** A (label, url) pair of the resources and sub-features lists. */
  type Link = (string, string)

  /** A parsed feature page. Usage percentages are kept as numbers; their
      two-decimal rendering is a parameter of the renderers. */
  datatype FeatureBasic = FeatureBasic(
    slug: string,
    title: string,
    specUrl: Option<string>,
    specStatus: Option<string>,
    usageSupported: Option<real>,
    usagePartial: Option<real>,
    usageTotal: Option<real>,
    descriptionText: string,
    browserBlocks: seq<BrowserSupportBlock>,
    parseWarnings: seq<string>)

  /** The full-mode record: the basic fields plus notes, resources,
      sub-features and the ordered tabs (name, content). */
  datatype FeatureFull = FeatureFull(
    basic: FeatureBasic,
    notesText: Option<string>,
    resources: seq<Link>,
    subfeatures: seq<Link>,
    tabs: seq<(string, string)>)
}
