# pycaniuse core in Dafny

This project models the parsing, validation and formatting core of pycaniuse, a
command-line client for caniuse.com. The user passes a query. The program fetches the
site's search page and picks one feature. It then fetches and parses that feature's
page and prints a basic panel of the main browsers, or hands the full record to a
full-screen viewer.

The model covers these parts of the program:

- the text helpers: whitespace collapsing, ellipsizing and note markers;
- the DOM helpers: attribute lookup, class tokens and the empty-href guard of URL joining;
- the search-page parser: slug extraction, the two anchor strategies, the search-backend
  matches and the de-duplicating merge;
- the feature-page parser: title, specification, support blocks, resources,
  sub-features, tabs and warnings;
- the request policy of the HTTP layer: the single retry on a failed connection, the
  status and body checks, the static fallback, feature-id normalisation, the
  support-data form and the payload checks;
- the plain-text line builders of the full-screen view and the basic renderer;
- the selection of a match and the orchestration of `main`;
- the error messages.

Modules follow the source files:

| module | source |
|---|---|
| `Strings`, `Lists`, `Dedup`, `Wrappers` | general sequence and string helpers |
| `Model` | `caniuse/model.py` and `caniuse/constants.py` |
| `Text` | `caniuse/util/text.py` |
| `Html` | `caniuse/util/html.py` |
| `Http` | `caniuse/http.py` |
| `ParseSearch` | `caniuse/parse_search.py` |
| `ParseFeature` | `caniuse/parse_feature.py` |
| `Fullscreen` | `caniuse/ui/fullscreen.py` |
| `RenderBasic` | `caniuse/render_basic.py` |
| `Select` | `caniuse/ui/select.py` |
| `Cli` | `caniuse/cli.py` |
| `Exceptions` | `caniuse/exceptions.py` |

How the source's forms are kept:

- Pure code becomes functions and lemmas.
- Every loop that appends to a list or fills a dict or set becomes a method with a
  loop. The loop's invariants are proved against a specification function, and the
  properties are lemmas about that function.
- The network is the class `Http.Transport`. It holds a plan of outcomes, where the
  k-th request sent gets the k-th outcome, and the log of the requests sent so far.
- These are parameters of the model:
  - JSON decoding (`decode`);
  - the two-decimal rendering of a percentage (`fmt`);
  - the search and fetch steps of `main`;
  - whether the terminal is interactive;
  - the Textual selector (`choose`).
- A DOM node is its attribute mapping and the raw text it renders to. A parsed page is
  what its selectors return.
- What `main` prints and how it exits is the datatype `Cli.Outcome`.

## Model

| member | source | states |
|---|---|---|
| Text.NormalizeWhitespace | caniuse/util/text.py:8-14 | the result has no whitespace at either end, its only whitespace character is ' ', and no two whitespace characters are adjacent |
| Text.NormalizeIdempotent | caniuse/util/text.py:12-14 | normalising twice is normalising once |
| Text.JoinWordsIsNormalized | caniuse/util/text.py:12-14 | the result is the input's whitespace-separated words joined by single spaces (an independent definition) |
| Text.CollapseRunsShape | caniuse/util/text.py:8-14 | the substitution leaves single-spaced text, which starts with whitespace exactly when the input does |
| Text.Ellipsize | caniuse/util/text.py:41-49 | "" for width ≤ 0; the value unchanged when it fits; otherwise exactly `width` characters, the first width−1 from the value and the last an ellipsis (so width 1 gives the ellipsis alone) |
| Text.EllipsizeIdempotent | caniuse/util/text.py:41-49 | ellipsizing an ellipsized value to the same width changes nothing |
| Text.NoteDigits | caniuse/util/text.py:9 | the captured group of a note token is a non-empty digit string |
| Text.ExtractNoteMarkersAppend | caniuse/util/text.py:52-54 | extraction goes token by token, in order (it distributes over concatenation) |
| Text.ExtractNoteMarkersNone | caniuse/util/text.py:52-54 | tokens none of which has the form "#digits" give no markers |
| Text.ExtractNoteMarkersRoundTrip | caniuse/util/text.py:52-54 | writing digit strings as "#digits" tokens and extracting gives them back in order |
| Text.ExtractNoteMarkersShape | caniuse/util/text.py:52-54 | at most one marker per token, each a non-empty digit string |
| Html.Attr | caniuse/util/html.py:65-75 | None for a missing node, for attrs that are not a dict, for a missing key and for a stored None; otherwise the stored value's string |
| Html.AttrStored | caniuse/util/html.py:72-75 | a value stored under a name is what the lookup of that name returns |
| Html.AttrOtherKey | caniuse/util/html.py:72-75 | storing under one name leaves the lookup of every other name unchanged |
| Html.NodeText | caniuse/util/html.py:39-50 | the text of a node is normalised, and "" for no node |
| Html.ClassTokens | caniuse/util/html.py:78-83 | () for an absent or empty class attribute; otherwise whitespace-free, non-empty tokens that join back, in order, to the normalised attribute |
| Html.SafeJoinUrl | caniuse/util/html.py:86-90 | None exactly for a None or empty href; otherwise the join of the href |
| Exceptions.BaseError | caniuse/exceptions.py:12-16 | the base error carries "An error occurred." and the given extra detail |
| Exceptions.Message | caniuse/exceptions.py:18-21 | every message starts with the detail; it is the detail alone exactly when the extra detail is absent or empty; otherwise the detail is followed by " :: " and the extra detail |
| Exceptions.ExtraRecoverable | caniuse/exceptions.py:19-20 | the extra detail can be read back from the message after the detail and the separator |
| Http.Transport.constructor | caniuse/http.py:35-45 | a fresh transport has its plan and has sent nothing |
| Http.Transport.Send | caniuse/http.py:67-69 | sending logs the request and gets the next planned outcome |
| Http.Settle | caniuse/http.py:70-86 | a timeout gives RequestTimeoutError, a failed connection or another request error gives NetworkError with its cause, a status ≠ 200 gives HttpStatusError, a blank body gives ContentError, and otherwise the body is returned unchanged |
| Strings.StripEmptyIffBlank | caniuse/http.py:84-85 | stripping a body leaves nothing exactly when every character of it is whitespace |
| Http.AttemptFrom | caniuse/http.py:59-79 | one attempt sends two requests exactly when retries are allowed and the first connection fails, and its result is the settling of the last outcome |
| Http.ConnectRetriedOnce | caniuse/http.py:72-76 | two failed connections in a row end the attempt after two requests with NetworkError |
| Http.TimeoutNotRetried | caniuse/http.py:70-71 | a timeout ends the attempt after one request with RequestTimeoutError |
| Http.Exchange | caniuse/http.py:59-86 | the result and the requests sent are those of one attempt |
| Http.FallbackPolicy | caniuse/http.py:88-95 | a second attempt is made exactly on a status error with the fallback allowed and "static" set to "1"; it sends the same URL with every parameter but "static"; otherwise the first result stands; one fetch sends between 1 and 4 requests |
| Http.FetchHtml | caniuse/http.py:48-95 | the result and the log are those of the fetch specification checked by FallbackPolicy |
| Http.PostForm | caniuse/http.py:98-132 | the form POST follows the same attempt policy and logs its requests |
| Http.FetchSearchPage | caniuse/http.py:208-210 | the search page is fetched with "search" and "static"="1" and no fallback |
| Http.FetchFeaturePage | caniuse/http.py:213-219 | the feature page is fetched with "static"="1" and the fallback allowed |
| Http.CleanIdIsClean | caniuse/http.py:148 | a non-empty cleaned id is stripped and lower-case |
| Http.NormalizedIdsShape | caniuse/http.py:142-153 | the ids are stripped, lower-case, non-empty and pairwise distinct; the i-th id is the cleaned input at the i-th first-occurrence position, those positions increase, and every first occurrence of a non-empty cleaned id is among them; None or empty input gives [] |
| Http.NormalizeFeatureIds | caniuse/http.py:142-153 | the loop computes the normalised ids, clean and pairwise distinct |
| Http.RawIds | caniuse/http.py:165 | the ids come from "featureIds" when it is truthy, else from "feature_ids" when that is truthy, else from [] |
| Http.StringItemsExact | caniuse/http.py:169 | the kept items are exactly the string items of the list |
| Http.NormalizedIdsIdempotent | caniuse/http.py:142-153 | normalising ids that are already normalised changes nothing |
| Http.SearchIdsNormalized | caniuse/http.py:162-169 | the ids a search payload gives are already normalised |
| Http.SearchIdsOf | caniuse/http.py:162-169 | a payload that does not decode to an object is a ContentError; a non-list gives []; a list gives the normalised string items |
| Http.FetchSearchFeatureIds | caniuse/http.py:156-169 | the search backend is fetched with the query and its body decoded and checked as SearchIdsOf states |
| Http.SupportForm | caniuse/http.py:184-188 | the form always has type=support-data, and fullDataFeats and metaDataFeats exactly when their lists are non-empty, as comma-joined values; no other key |
| Http.SupportPayloadOf | caniuse/http.py:191-194 | the payload is accepted exactly when it decodes to an object, and otherwise is a ContentError |
| Http.FetchSupportData | caniuse/http.py:172-194 | with both id lists empty after normalising, {} and no request at all; otherwise one form POST of SupportForm, whose failure is the result and whose body is checked by SupportPayloadOf |
| Http.PostSupportForm | caniuse/http.py:184-194 | the form built key by key is SupportForm, posted once with its retry |
| ParseSearch.SlugFromHref | caniuse/parse_search.py:12-43 | None for a None or empty href, an http(s) URL, any '?', a href not starting with '/' and an ignored prefix; a slug exactly when the href, stripped of '/' and lower-cased, matches [a-z0-9_-]+, and then it is that string |
| ParseSearch.SlugRoundTrip | caniuse/parse_search.py:27-43 | "/slug" and "/slug/" give the slug back for every slug-shaped, non-ignored slug |
| ParseSearch.AnchorMatchesExact | caniuse/parse_search.py:126-143 | an anchor contributes a match exactly when its slug is valid and its title has at least 3 characters, in anchor order |
| ParseSearch.FirstNonEmptyPicks | caniuse/parse_search.py:119-133 | S1 yields the matches of the first selector that has any, and none only when no selector has any |
| ParseSearch.MatchesOf | caniuse/parse_search.py:126-131 | the loop over one selector's anchors computes its matches |
| ParseSearch.FirstStrategy | caniuse/parse_search.py:119-133 | the loop with its early break computes S1 |
| ParseSearch.PageStrategies | caniuse/parse_search.py:116-143 | S2 runs only when S1 found nothing; every page match has a valid slug and a title of at least 3 characters |
| ParseSearch.Dedupe | caniuse/parse_search.py:46-54 | the output has pairwise distinct slugs, is a subsequence of the input and covers every input slug; its i-th match is the input match at the i-th first-occurrence position of a slug, in increasing position order, with every first occurrence included |
| ParseSearch.TitleMapKeys | caniuse/parse_search.py:89-101 | the title map has an entry for an id exactly when some fullData entry names it |
| ParseSearch.TitleMapLastWins | caniuse/parse_search.py:101 | the title of an id is that of the last entry naming it |
| ParseSearch.TitlesById | caniuse/parse_search.py:83-101 | the loop fills the title map |
| ParseSearch.ApiMatchesExact | caniuse/parse_search.py:103-109 | every API match has a slug-shaped id from the list, the fullData title or else the id, and href "/"+id; every slug-shaped id gives a match |
| ParseSearch.ApiMatchList | caniuse/parse_search.py:103-109 | the loop builds the API matches |
| ParseSearch.ParseApiMatches | caniuse/parse_search.py:75-109 | the matches and the requests sent are those of the id fetch for the query followed by ApiFetch of it and of the support-data attempt that comes next in the transport's plan |
| ParseSearch.ApiFetchMatches | caniuse/parse_search.py:75-109 | when the id fetch fails or gives no ids there are no matches and no request after it; otherwise every match is API-shaped, its slug is one of the ids and its title is the one the support payload's fullData gives that id or else the id, every slug-shaped id gives a match, and the support-data requests follow the id-fetch requests |
| ParseSearch.ApiParsedShaped | caniuse/parse_search.py:103-109 | every match `_parse_api_matches` returns is API-shaped |
| ParseSearch.TitledMatches | caniuse/parse_search.py:83-109 | for normalised non-empty ids: exactly the support-data requests for those ids are sent, and the matches are ApiMatches of the ids with the titles of that payload's fullData, none when the request fails |
| ParseSearch.SupportFetchOfIds | caniuse/http.py:172-194 | for ids already normalised, `fetch_support_data` sends one form with exactly those ids as fullDataFeats (repeated once on a failed connection) and returns the checked payload |
| ParseSearch.MergeApiFirst | caniuse/parse_search.py:145-151 | the merged list starts with the de-duplicated API matches, so an API match wins a slug collision; later entries have slugs the API did not give; the slugs are distinct and cover both lists |
| ParseSearch.ParseSearchResults | caniuse/parse_search.py:112-151 | the result is the merge of the backend's matches with the page strategies; without a query there are no backend matches and no request; with one, the backend's matches and requests are those of `_parse_api_matches` |
| ParseFeature.TitleChoice | caniuse/parse_feature.py:15-24 | the title is the feature-title text when non-empty; else, for a non-empty page title, the stripped prefix of the page title that ends where the bar-prefixed "Can I use" marker first occurs, or the whole page title when the marker does not occur; else the slug |
| ParseFeature.TitleFallbackCut | caniuse/parse_feature.py:23 | splitting once at the bar-prefixed "Can I use" marker and stripping gives the stripped prefix ending at the marker's first occurrence, or the whole string when there is none |
| ParseFeature.TitleFallbackHasNoSuffix | caniuse/parse_feature.py:23 | the fallback title never contains the bar-prefixed "Can I use" marker |
| ParseFeature.SiteUrl | caniuse/parse_feature.py:32 | joining a href to the site address never gives an empty URL |
| ParseFeature.SpecStatusShape | caniuse/parse_feature.py:33-43 | a status is non-empty; from the visible text it is the stripped part after the last '-' and holds no '-'; otherwise it is an upper-cased class token of at most 4 letters |
| ParseFeature.FirstStatusTokenPicks | caniuse/parse_feature.py:39-43 | the class status is the first token other than "specification" that is alphabetic and at most 4 long, and none when there is no such token |
| ParseFeature.StatusFromClasses | caniuse/parse_feature.py:39-43 | the loop with its break computes the class status |
| ParseFeature.ParseSpec | caniuse/parse_feature.py:27-45 | no link gives (None, None); otherwise the joined href and the status of SpecStatusShape |
| ParseFeature.StatusPriority | caniuse/parse_feature.py:86-91 | the status is one of y, n, a, u, and no earlier status in that order is among the classes |
| ParseFeature.StatusOfFirst | caniuse/parse_feature.py:86-91 | the first of y, n, a, u present among the classes is the status |
| ParseFeature.StatusFromCell | caniuse/parse_feature.py:86-91 | the loop with its break computes the status, "u" when none is present |
| ParseFeature.FirstBrowserSuffixPicks | caniuse/parse_feature.py:76-82 | the suffix is what follows "browser--" in the first class token that starts with it; there is none exactly when no token starts with it |
| ParseFeature.BrowserKeyShape | caniuse/parse_feature.py:76-82 | the browser key of a named heading is non-empty and has no whitespace |
| ParseFeature.BrowserKeyOf | caniuse/parse_feature.py:76-82 | the loop gives the suffix of the first "browser--" token, or else the lower-cased name with spaces as '-' |
| ParseFeature.CellRangeValid | caniuse/parse_feature.py:85-107 | a cell gives a range exactly when its text is non-empty; the range's status is the cell's, and its past, current and future flags are class membership |
| ParseFeature.CellRangesExact | caniuse/parse_feature.py:84-107 | the ranges are exactly the contributions of the cells, each valid, in order |
| ParseFeature.RangesOf | caniuse/parse_feature.py:84-107 | the loop builds the ranges |
| ParseFeature.ListBlockValid | caniuse/parse_feature.py:70-114 | a support list gives a block exactly when its heading has text, and the block is valid |
| ParseFeature.AllBlocksExact | caniuse/parse_feature.py:66-114 | the blocks are exactly the contributions of the support lists, each valid, in order |
| ParseFeature.BlocksOf | caniuse/parse_feature.py:66-114 | the loop builds the blocks |
| ParseFeature.KeepBasic | caniuse/parse_feature.py:118 | the comprehension keeps the basic-mode browsers' blocks |
| ParseFeature.ParseSupportBlocks | caniuse/parse_feature.py:66-118 | every block is valid, and in basic mode every block belongs to a basic-mode browser |
| ParseFeature.BasicIsFilteredFull | caniuse/parse_feature.py:116-118 | the basic blocks are the full blocks of the basic-mode browsers, in the same order |
| ParseFeature.AnchorLinksExact | caniuse/parse_feature.py:129-136 | the links are exactly the anchors with a non-empty href and label, in order |
| ParseFeature.ParseResources | caniuse/parse_feature.py:129-136 | the loop builds the resource links, each valid |
| ParseFeature.CollectingIsLastTerm | caniuse/parse_feature.py:144-149 | after a run of children, collecting holds exactly when the last term seen says "sub-features" |
| ParseFeature.SubfeatureLinksOfDl | caniuse/parse_feature.py:143-155 | a link is kept exactly when it is a valid link of a dd read while collecting |
| ParseFeature.DlSubfeatures | caniuse/parse_feature.py:143-155 | the loop over one dl's children appends its sub-feature links |
| ParseFeature.ParseSubfeatures | caniuse/parse_feature.py:139-157 | the loop over every dl builds the sub-feature links, in document order |
| ParseFeature.LinkLines | caniuse/parse_feature.py:202-204 | one "- label: url" line per link, in order |
| ParseFeature.TabsOrder | caniuse/parse_feature.py:198-204 | Notes, Resources and Sub-features tabs appear in that order, each exactly when its source is non-empty |
| ParseFeature.Warnings | caniuse/parse_feature.py:206-208 | the warnings are ["support"] exactly when there are no blocks, and [] otherwise |
| ParseFeature.ParseFeatureBasic | caniuse/parse_feature.py:160-183 | the basic record: slug, title, spec, usage and description of the page, the basic-mode blocks and their warnings |
| ParseFeature.ParseFeatureFull | caniuse/parse_feature.py:186-225 | the full record: every block, the notes, resources, sub-features, the tabs built from them and the warnings |
| Fullscreen.FormatRangeLine | caniuse/ui/fullscreen.py:37-40 | the f-string gives the range line whose notes tail RangeLineNotes describes |
| Fullscreen.BlockLinesOf | caniuse/ui/fullscreen.py:35-41 | the inner loop gives the name line, one line per range and "" |
| Fullscreen.SupportLinesOf | caniuse/ui/fullscreen.py:32-42 | the loop gives the support lines |
| Fullscreen.SupportLinesLayout | caniuse/ui/fullscreen.py:32-42 | the lines are exactly ["No browser support blocks found."] when there are no blocks; otherwise each block's name, ranges and blank line sit at its position, in order |
| Fullscreen.RangeLineNotes | caniuse/ui/fullscreen.py:37-40 | a support line is "  icon range" followed by " [notes: a,b]" exactly when the range has note markers |
| Fullscreen.RangeLineUnknownStatus | caniuse/ui/fullscreen.py:37 | a status without an icon is shown as status "u" |
| Fullscreen.LegendCoversStatuses | caniuse/ui/fullscreen.py:87-94 | the legend is a header and one distinct entry per status |
| Fullscreen.InfoLinesOf | caniuse/ui/fullscreen.py:117-134 | the loop builds the Info lines |
| Fullscreen.TabListSections | caniuse/ui/fullscreen.py:137-140 | the loop gives one section per tab, in order |
| Fullscreen.FallbackSectionsOf | caniuse/ui/fullscreen.py:141-151 | the appends give the Notes, Resources and Sub-features sections, each only when its source is non-empty, as TabSectionsMiddle uses them |
| Fullscreen.TabSectionsOf | caniuse/ui/fullscreen.py:115-154 | the method builds the sections whose frame and middle TabSectionsFrame and TabSectionsMiddle describe |
| Fullscreen.TabSectionsFrame | caniuse/ui/fullscreen.py:133-154 | the sections start with Info and end with Legend and its four entries; Info is "No additional feature metadata." exactly when there is no spec, usage or description |
| Fullscreen.TabSectionsMiddle | caniuse/ui/fullscreen.py:137-151 | with tabs, the middle sections are the tabs split into lines, in order ("" gives [""]); without tabs they are the Notes, Resources and Sub-features sections |
| Fullscreen.TabsAgreeWithFallback | caniuse/ui/fullscreen.py:137-151 | for tabs built by the parser from line-free notes and links, the tab path and the fallback path give the same sections |
| Fullscreen.EraLabel | caniuse/ui/fullscreen.py:157-162 | "current" exactly when current, "future" exactly when future and not current, "past" otherwise |
| Fullscreen.EraIgnoresPast | caniuse/ui/fullscreen.py:157-162 | the past flag does not affect the era |
| Fullscreen.DigitRun | caniuse/ui/fullscreen.py:29 | the longest prefix of digits |
| Fullscreen.ExtractGlobalUsage | caniuse/ui/fullscreen.py:165-171 | a usage ends with '%' |
| Fullscreen.ExtractGlobalUsageLeftmost | caniuse/ui/fullscreen.py:165-171 | None exactly when "Global usage:" is nowhere followed by a number and '%'; otherwise the number of the leftmost such place, plus '%' |
| Fullscreen.GlobalUsageRoundTrip | caniuse/ui/fullscreen.py:165-171 | a title "Global usage:" + spaces + number + "%" gives that number plus '%' |
| Fullscreen.FormatSupportLine | caniuse/ui/fullscreen.py:174-192 | the appends give the row text whose usage and notes parts SupportLineUsage and SupportLineNotes describe |
| Fullscreen.SupportLineUsage | caniuse/ui/fullscreen.py:181-189 | "  usage:X" is added only when the usage is asked for and found, and it sits right after the head |
| Fullscreen.SupportLineNotes | caniuse/ui/fullscreen.py:190-191 | "  notes:a,b" follows the head exactly when the range has note markers |
| Fullscreen.SupportLineUnknownStatus | caniuse/ui/fullscreen.py:175-176 | a status without icon and label is shown as status "u" |
| RenderBasic.UsageLineOf | caniuse/render_basic.py:14-29 | the appending builds the usage line |
| RenderBasic.UsageLineShape | caniuse/render_basic.py:14-29 | no line exactly when all three usages are None; otherwise "Usage: " then one part per present usage, supported first and total last |
| RenderBasic.HeadLinesOf | caniuse/render_basic.py:36-52 | the appending builds the head lines |
| RenderBasic.BlockLinesOf | caniuse/render_basic.py:55-63 | the inner loop gives the name line and one line per range |
| RenderBasic.Render | caniuse/render_basic.py:32-68 | the panel's title is "/" + slug and its lines are those of the basic view |
| RenderBasic.HeadLayout | caniuse/render_basic.py:36-52 | the title comes first; with a spec URL the next line is "Spec: " and the URL, followed by " [status]" exactly when there is a status, and there is no spec line without one; the usage line comes next exactly when there is usage data; with a description, a blank line, "Description" and the description text follow; the head ends with "" and "Browser Support" |
| RenderBasic.BodyLayout | caniuse/render_basic.py:54-63 | each block's name and range lines sit at its position, in order |
| RenderBasic.BlockInPanel | caniuse/render_basic.py:54-63 | in the panel, block i's name and range lines follow the head and the blocks before it |
| RenderBasic.BasicLinesLayout | caniuse/render_basic.py:32-68 | the panel is the head, the block lines, then "" and the full-mode hint, and nothing else |
| RenderBasic.RangeLineNotes | caniuse/render_basic.py:57-62 | a range line is "  range: icon label" followed by " [See notes: a,b]" exactly when the range has note markers |
| RenderBasic.RangeLineUnknownStatus | caniuse/render_basic.py:57-58 | a status without icon and label is shown as status "u" |
| Select.SelectMatchChoice | caniuse/ui/select.py:15-30 | nothing is chosen exactly for no matches, or for several matches on a terminal whose selector cancels; a chosen slug is a match's slug when the selector only answers with those |
| Select.SelectorOnlyWhenAmbiguous | caniuse/ui/select.py:24-29 | the selector is consulted only for several matches on a terminal |
| Select.SelectMatchNonInteractive | caniuse/ui/select.py:26-30 | off a terminal the first slug is chosen |
| Cli.QueryTextShape | caniuse/cli.py:25 | the query has no surrounding whitespace, and a single clean word is the query itself |
| Cli.FindSlug | caniuse/cli.py:36 | the index of the first match whose slug is the key, or none when no match has it |
| Cli.ResolveNoMatches | caniuse/cli.py:32-34 | the run stops for no matches, and only then |
| Cli.ResolveExactWins | caniuse/cli.py:36-40 | a match whose slug is the lower-cased query is chosen without the selector |
| Cli.ResolveWithoutExact | caniuse/cli.py:40-47 | without an exact match one match is taken directly; with several the run is cancelled exactly when the selector was asked and cancelled |
| Cli.ResolveChoosesListed | caniuse/cli.py:36-47 | the chosen slug is a match's slug when the selector only answers with those |
| Cli.Show | caniuse/cli.py:49-61 | full mode hands over the page's full record: its slug, title, spec URL and status, usage, description and the blocks of every browser, plus its notes, its resources read from the resource links, its sub-features and the tabs built from them; basic mode gives the page's basic record, with only the basic browsers' blocks, and the panel rendered from it; each comes after the warning line exactly when there are warnings |
| Cli.Run | caniuse/cli.py:28-63 | a failed search or fetch fails with the error's message; no matches exits 1 after saying so; a cancelled choice exits 1; otherwise the chosen feature is shown |
| Cli.Entry | caniuse/cli.py:23-63 | `main` runs on the joined, stripped query |
| Cli.WarningIffNoBlocks | caniuse/cli.py:53-60 | the warning line is printed exactly when the shown feature has no support blocks |
| Dedup.UniqueByDistinct | caniuse/parse_search.py:46-54 | first-occurrence de-duplication leaves distinct keys |
| Dedup.UniqueByKeepsFirsts | caniuse/parse_search.py:46-54 | every first occurrence is kept |
| Dedup.UniqueByOnlyFirsts | caniuse/parse_search.py:46-54 | only first occurrences are kept |
| Dedup.UniqueBySubseq | caniuse/parse_search.py:46-54 | the result is a subsequence of the input |
| Dedup.UniqueByKeys | caniuse/http.py:142-153 | the keys of the result are exactly those of the input |
| Dedup.UniqueByOrder | caniuse/parse_search.py:46-54 | the result lists the first occurrences in input order: its i-th element is the input element at the i-th position of FirstIndices, those positions strictly increase, each is a first occurrence of its key, and every first occurrence is among them |
| Dedup.UniqueByUnique | caniuse/http.py:142-153 | any list that picks the first occurrences by increasing positions, all of them, is the first-occurrence de-duplication: the order is determined |
| Dedup.UniqueByAppend | caniuse/parse_search.py:149 | de-duplicating a concatenation keeps the de-duplicated first part as its prefix |

## Left out

- The network transport (httpx), the shared client and its timeout are not modelled.
  Requests and their outcomes go through `Http.Transport`, and the client that carries a
  request does not change its outcome.
- `json.loads` is the parameter `decode`, and a decoding failure is `None`.
- `fetch_feature_aux_data` (caniuse/http.py:197-205) is not modelled. Nothing in the
  modelled core calls it.
- The search-backend and data URLs come from a constants module that is not part of this
  model, so they are fields of `ParseSearch.Backend` and parameters of the `Http` methods.
- The HTTP error classes come from an exceptions module that is not part of this model.
  They are the datatype `Http.HttpError`, and the modelled error text is `Exceptions.Message`.
- The HTML parser and its selectors, and `text` and `markdown_text`, are not modelled. A
  node is its attributes and raw text, and a page is what its selectors return.
- `_parse_usage`, `_parse_description` and `_parse_notes` are not modelled: their results
  are fields of the page. `parse_percent` and the `:.2f` formatting are not modelled
  either; a percentage is a `real` rendered by the parameter `fmt`.
- `_extract_search_query` is not modelled: the query is a field of the search page.
- `wrap_lines`, `_wrap_line`, `_render_lines` and `_feature_lines` (caniuse/ui/fullscreen.py:45-112)
  are not modelled. They depend on `textwrap`, and `_feature_lines` only feeds `_render_lines`.
- The Rich panels, tables, styles and pager, the Textual selector and viewer, and
  `run_fullscreen` are not modelled. The view's plain text is modelled; styles are dropped.
- The TTY check is the parameter `interactive`.
- Console printing and exit codes are the datatype `Cli.Outcome`.
- Character classes are not Unicode. Whitespace, digits, letters and case mapping cover
  ASCII only, where Python's `str` methods and `re` classes use Unicode.
- ParseFeature.SiteUrl: models `urljoin` only for the shapes of href the site uses. It
  does not resolve "." and ".." segments or a relative path against a base path.
- ParseSearch.ParseSearchResults: the backend's matches are a ghost out-parameter. Its
  contract ties the result to them, and ties them to the fetches through ParseSearch.ApiParsed.
- Http.FetchHtml: the request timeout and `DEFAULT_TIMEOUT_SECONDS` are not modelled,
  because they choose only which client object is used.
