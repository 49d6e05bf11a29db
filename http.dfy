/** The request policy of caniuse/http.py with the network abstracted away.

    The transport is a plan of outcomes: the k-th request sent gets the k-th
    planned outcome (a timeout, a failed connection, another request failure
    or a response), and every request sent is logged. Which client object
    carries a request (the shared one or a fresh one) makes no difference to
    the outcome and is not modelled. JSON decoding is a parameter that maps a
    body to a decoded value or None for a decoding failure. */
module Http {
  import opened Wrappers
  import opened Strings
  import opened Dedup
  import opened Model
  import Lists

  /** The errors the HTTP layer raises. */
  datatype HttpError =
    | NetworkError(url: string, cause: string)
    | RequestTimeoutError(url: string)
    | HttpStatusError(status: int, url: string)
    | ContentError(url: string)

  datatype Verb = Get | Post

  /** A request: GET with query parameters or POST with form fields. */
  datatype Request = Request(verb: Verb, url: string, fields: map<string, string>)

  /** What the transport does with one request. */
  datatype Outcome =
    | Timeout
    | ConnectFailure
    | OtherFailure(cause: string)
    | Response(status: int, finalUrl: string, body: string)

  /** The class name a failed connection reports as its cause. */
  const ConnectErrorName: string := "ConnectError"

  /** The network as the program sees it: planned outcomes and a log of the
      requests sent so far. */
  class Transport {
    const plan: nat -> Outcome
    var sent: seq<Request>

    constructor (plan: nat -> Outcome)
      ensures this.plan == plan && sent == []
    {
      this.plan := plan;
      sent := [];
    }

    /** Sends one request and gets the next planned outcome. */
    method Send(req: Request) returns (o: Outcome)
      modifies this
      ensures sent == old(sent) + [req]
      ensures o == plan(|old(sent)|)
    {
      o := plan(|sent|);
      sent := sent + [req];
    }
  }

  /** `n` copies of one request. */
  function Repeat(req: Request, n: nat): (r: seq<Request>)
    ensures |r| == n && forall i :: 0 <= i < n ==> r[i] == req
  {
    seq(n, _ => req)
  }

  /** What a final outcome means: a body only for status 200 with a body that
      is not blank (see `StripEmptyIffBlank` for `body.strip()`); errors name the requested URL when nothing came back and
      the response's URL when a response did. */
  function Settle(url: string, o: Outcome): (r: Result<string, HttpError>)
    ensures r.Ok? <==> o.Response? && o.status == 200 && !Blank(o.body)
    ensures r.Ok? ==> r.value == o.body
    ensures o.Timeout? ==> r == Err(RequestTimeoutError(url))
    ensures o.ConnectFailure? ==> r == Err(NetworkError(url, ConnectErrorName))
    ensures o.OtherFailure? ==> r == Err(NetworkError(url, o.cause))
    ensures o.Response? && o.status != 200 ==> r == Err(HttpStatusError(o.status, o.finalUrl))
    ensures o.Response? && o.status == 200 && Blank(o.body) ==> r == Err(ContentError(o.finalUrl))
  {
    match o
    case Timeout => Err(RequestTimeoutError(url))
    case ConnectFailure => Err(NetworkError(url, ConnectErrorName))
    case OtherFailure(cause) => Err(NetworkError(url, cause))
    case Response(status, finalUrl, body) =>
      if status != 200 then Err(HttpStatusError(status, finalUrl))
      else if Blank(body) then Err(ContentError(finalUrl))
      else Ok(body)
  }

  /** The result of one request attempt and how many requests it sent. */
  datatype Attempted = Attempted(result: Result<string, HttpError>, sends: nat)

  /** One attempt from the k-th planned outcome on, with the retry still
      available or not: a failed connection is retried while the retry is
      available, and nothing else is. */
  function AttemptFrom(url: string, plan: nat -> Outcome, k: nat, retryOnce: bool): (a: Attempted)
    ensures a.sends == (if retryOnce && plan(k).ConnectFailure? then 2 else 1)
    ensures a.result == Settle(url, plan(k + a.sends - 1))
    decreases retryOnce
  {
    var o := plan(k);
    if o.ConnectFailure? && retryOnce then
      var rest := AttemptFrom(url, plan, k + 1, false);
      Attempted(rest.result, rest.sends + 1)
    else
      Attempted(Settle(url, o), 1)
  }

  /** One `_request` or `_post_form` call: the attempt with its retry available. */
  function Attempt(url: string, plan: nat -> Outcome, k: nat): Attempted {
    AttemptFrom(url, plan, k, true)
  }

  /** Two failed connections in a row give a network error after exactly two requests. */
  lemma ConnectRetriedOnce(url: string, plan: nat -> Outcome, k: nat)
    requires plan(k).ConnectFailure? && plan(k + 1).ConnectFailure?
    ensures Attempt(url, plan, k) == Attempted(Err(NetworkError(url, ConnectErrorName)), 2)
  {
  }

  /** A timeout is final: one request, a timeout error. */
  lemma TimeoutNotRetried(url: string, plan: nat -> Outcome, k: nat)
    requires plan(k).Timeout?
    ensures Attempt(url, plan, k) == Attempted(Err(RequestTimeoutError(url)), 1)
  {
  }

  /** The request loop of `_request` and `_post_form`: it sends the request,
      retries once after a failed connection, and settles the last outcome. */
  method Exchange(t: Transport, req: Request) returns (r: Result<string, HttpError>)
    modifies t
    ensures var a := Attempt(req.url, t.plan, |old(t.sent)|);
      r == a.result && t.sent == old(t.sent) + Repeat(req, a.sends)
  {
    var k := |t.sent|;
    var retryOnce := true;
    while true
      invariant retryOnce ==> t.sent == old(t.sent)
      invariant !retryOnce ==> t.sent == old(t.sent) + [req] && t.plan(k).ConnectFailure?
      decreases retryOnce
    {
      var o := t.Send(req);
      match o {
        case Timeout =>
          r := Err(RequestTimeoutError(req.url));
        case ConnectFailure =>
          if retryOnce {
            retryOnce := false;
            continue;
          }
          r := Err(NetworkError(req.url, ConnectErrorName));
        case OtherFailure(cause) =>
          r := Err(NetworkError(req.url, cause));
        case Response(status, finalUrl, body) =>
          StripEmptyIffBlank(body);
          if status != 200 {
            r := Err(HttpStatusError(status, finalUrl));
          } else if Strip(body) == "" {
            r := Err(ContentError(finalUrl));
          } else {
            r := Ok(body);
          }
      }
      assert t.sent == old(t.sent) + Repeat(req, if retryOnce then 1 else 2);
      return;
    }
  }

  /** The result of a fetch and the requests it sent. */
  datatype Fetched = Fetched(result: Result<string, HttpError>, sent: seq<Request>)

  /** The condition of the static fallback: a status error, the fallback
      allowed, and the parameter "static" set to "1". */
  predicate FallsBack(first: Result<string, HttpError>, params: map<string, string>, allowStaticFallback: bool) {
    first.Err? && first.error.HttpStatusError? && allowStaticFallback
    && "static" in params && params["static"] == "1"
  }

  /** `fetch_html`: one attempt with the parameters, and when the static
      fallback applies a second attempt without "static". */
  function FetchHtmlSpec(url: string, params: map<string, string>, allowStaticFallback: bool,
                         plan: nat -> Outcome, k: nat): (f: Fetched)
  {
    var first := Attempt(url, plan, k);
    var sentFirst := Repeat(Request(Get, url, params), first.sends);
    if FallsBack(first.result, params, allowStaticFallback) then
      var second := Attempt(url, plan, k + first.sends);
      Fetched(second.result, sentFirst + Repeat(Request(Get, url, params - {"static"}), second.sends))
    else
      Fetched(first.result, sentFirst)
  }

  /** The fallback is taken only on a status error with the fallback allowed
      and "static" set to "1"; it repeats the request with the same URL and
      every parameter but "static"; every other result of the first attempt
      is the result of the fetch. */
  lemma FallbackPolicy(url: string, params: map<string, string>, allowStaticFallback: bool,
                       plan: nat -> Outcome, k: nat)
    ensures var first := Attempt(url, plan, k);
      var f := FetchHtmlSpec(url, params, allowStaticFallback, plan, k);
      (|f.sent| > first.sends <==> FallsBack(first.result, params, allowStaticFallback))
      && (!FallsBack(first.result, params, allowStaticFallback) ==> f.result == first.result)
      && (forall i :: 0 <= i < first.sends ==> f.sent[i] == Request(Get, url, params))
      && (forall i :: first.sends <= i < |f.sent| ==>
            f.sent[i].url == url && f.sent[i].fields.Keys == params.Keys - {"static"}
            && forall key :: key in f.sent[i].fields ==> f.sent[i].fields[key] == params[key])
      && 1 <= |f.sent| <= 4
  {
  }

  /** `r` and the request log `after` are what `fetch_html` gives and leaves
      when it starts after the requests `before`, the transport playing `plan`. */
  predicate HtmlFetched(url: string, params: map<string, string>, allowStaticFallback: bool,
                        plan: nat -> Outcome, before: seq<Request>, after: seq<Request>, r: Result<string, HttpError>) {
    var f := FetchHtmlSpec(url, params, allowStaticFallback, plan, |before|);
    r == f.result && after == before + f.sent
  }

  /** `fetch_html`. */
  method FetchHtml(t: Transport, url: string, params: map<string, string>, allowStaticFallback: bool)
    returns (r: Result<string, HttpError>)
    modifies t
    ensures HtmlFetched(url, params, allowStaticFallback, t.plan, old(t.sent), t.sent, r)
  {
    ghost var s0 := t.sent;
    var req := Request(Get, url, params);
    r := Exchange(t, req);
    if FallsBack(r, params, allowStaticFallback) {
      var fallback := Request(Get, url, params - {"static"});
      ghost var s1 := t.sent;
      ghost var sentFirst := Repeat(req, Attempt(url, t.plan, |s0|).sends);
      ghost var sentSecond := Repeat(fallback, Attempt(url, t.plan, |s1|).sends);
      r := Exchange(t, fallback);
      FetchHtmlFallback(url, params, allowStaticFallback, t.plan, s0, s1, t.sent, r, sentFirst, sentSecond);
    } else {
      FetchHtmlFirst(url, params, allowStaticFallback, t.plan, s0, t.sent, r);
    }
  }

  /** Without the fallback, `fetch_html` is its first attempt. */
  lemma FetchHtmlFirst(url: string, params: map<string, string>, allowStaticFallback: bool,
                       plan: nat -> Outcome, before: seq<Request>, after: seq<Request>, r: Result<string, HttpError>)
    requires var first := Attempt(url, plan, |before|);
      r == first.result && after == before + Repeat(Request(Get, url, params), first.sends)
    requires !FallsBack(r, params, allowStaticFallback)
    ensures HtmlFetched(url, params, allowStaticFallback, plan, before, after, r)
  {
  }

  /** With the fallback, `fetch_html` is the second attempt, after the
      requests of the first. */
  lemma FetchHtmlFallback(url: string, params: map<string, string>, allowStaticFallback: bool,
                          plan: nat -> Outcome, before: seq<Request>, mid: seq<Request>, after: seq<Request>,
                          r: Result<string, HttpError>, sentFirst: seq<Request>, sentSecond: seq<Request>)
    requires var first := Attempt(url, plan, |before|);
      && FallsBack(first.result, params, allowStaticFallback)
      && sentFirst == Repeat(Request(Get, url, params), first.sends) && mid == before + sentFirst
    requires var second := Attempt(url, plan, |mid|);
      && r == second.result && sentSecond == Repeat(Request(Get, url, params - {"static"}), second.sends)
      && after == mid + sentSecond
    ensures HtmlFetched(url, params, allowStaticFallback, plan, before, after, r)
  {
    Lists.Regroup(before, sentFirst, sentSecond);
  }

  /** `_post_form`: the same attempt policy for a form POST. */
  method PostForm(t: Transport, url: string, form: map<string, string>) returns (r: Result<string, HttpError>)
    modifies t
    ensures var a := Attempt(url, t.plan, |old(t.sent)|);
      r == a.result && t.sent == old(t.sent) + Repeat(Request(Post, url, form), a.sends)
  {
    r := Exchange(t, Request(Post, url, form));
  }

  /** `fetch_search_page`: the search page with "static" set, no fallback. */
  method FetchSearchPage(t: Transport, query: string) returns (r: Result<string, HttpError>)
    modifies t
    ensures var f := FetchHtmlSpec(SearchUrl, map["search" := query, "static" := "1"], false, t.plan, |old(t.sent)|);
      r == f.result && t.sent == old(t.sent) + f.sent
  {
    r := FetchHtml(t, SearchUrl, map["search" := query, "static" := "1"], false);
  }

  /** `fetch_feature_page`: the feature page with "static" set and the fallback
      allowed, so a status error is answered by one plain request. */
  method FetchFeaturePage(t: Transport, slug: string) returns (r: Result<string, HttpError>)
    modifies t
    ensures var f := FetchHtmlSpec(FeatureUrl(slug), map["static" := "1"], true, t.plan, |old(t.sent)|);
      r == f.result && t.sent == old(t.sent) + f.sent
  {
    r := FetchHtml(t, FeatureUrl(slug), map["static" := "1"], true);
  }

  // ---------------------------------------------------------------- feature ids

  /** One id as normalised: stripped and lower-cased. */
  function CleanId(v: string): string {
    Lower(Strip(v))
  }

  /** The non-empty normalised ids, in input order, duplicates included. */
  function Cleaned(vs: seq<string>): seq<string>
    decreases |vs|
  {
    if vs == [] then []
    else
      var c := CleanId(vs[|vs| - 1]);
      Cleaned(vs[..|vs| - 1]) + (if c == "" then [] else [c])
  }

  function Identity(s: string): string { s }

  /** `_normalize_feature_ids`, as a specification: the first occurrence of
      each non-empty normalised id. */
  function NormalizedIds(values: Option<seq<string>>): seq<string> {
    if values.None? then [] else UniqueBy(Cleaned(values.value), Identity)
  }

  /** An id that is already normalised. */
  predicate IsCleanId(x: string) {
    x != "" && Lower(x) == x && Strip(x) == x
  }

  lemma LowerTwice(s: string)
    ensures Lower(Lower(s)) == Lower(s)
  {
  }

  /** A normalised id, if not empty, is stripped and lower-case. */
  lemma CleanIdIsClean(v: string)
    requires CleanId(v) != ""
    ensures IsCleanId(CleanId(v))
  {
    var w := Strip(v);
    var x := Lower(w);
    LowerTwice(w);
    assert !IsSpace(x[0]) && !IsSpace(x[|x| - 1]);
    StripClean(x);
  }

  lemma {:induction false} CleanedAreClean(vs: seq<string>)
    ensures forall i :: 0 <= i < |Cleaned(vs)| ==> IsCleanId(Cleaned(vs)[i])
    decreases |vs|
  {
    if vs != [] {
      var c := CleanId(vs[|vs| - 1]);
      CleanedAreClean(vs[..|vs| - 1]);
      if c != "" {
        CleanIdIsClean(vs[|vs| - 1]);
      }
    }
  }

  /** The normalised ids are stripped, lower-case, non-empty and pairwise
      distinct; they keep input order and include every non-empty normalised
      input. */
  lemma NormalizedIdsShape(values: Option<seq<string>>)
    ensures var ids := NormalizedIds(values);
      (forall i :: 0 <= i < |ids| ==> IsCleanId(ids[i]))
      && (forall i, j :: 0 <= i < j < |ids| ==> ids[i] != ids[j])
      && (values.Some? ==> IsSubseq(ids, Cleaned(values.value)))
      && (values.Some? ==> KeysOf(ids, Identity) == KeysOf(Cleaned(values.value), Identity))
      && (values.Some? ==> PicksFirsts(ids, Cleaned(values.value), FirstIndices(Cleaned(values.value), Identity), Identity))
      && (values.None? || values.value == [] ==> ids == [])
  {
    if values.Some? {
      var c := Cleaned(values.value);
      var ids := UniqueBy(c, Identity);
      CleanedAreClean(values.value);
      UniqueByDistinct(c, Identity);
      UniqueBySubseq(c, Identity);
      UniqueByKeys(c, Identity);
      UniqueByOnlyFirsts(c, Identity);
      UniqueByOrder(c, Identity);
      forall i | 0 <= i < |ids| ensures IsCleanId(ids[i]) {
        assert ids[i] in ids;
      }
      forall i, j | 0 <= i < j < |ids| ensures ids[i] != ids[j] {
        assert Identity(ids[i]) != Identity(ids[j]);
      }
    }
  }

  /** Ids that are already normalised are their own cleaned list. */
  lemma {:induction false} CleanedOfClean(vs: seq<string>)
    requires forall i :: 0 <= i < |vs| ==> IsCleanId(vs[i])
    ensures Cleaned(vs) == vs
    decreases |vs|
  {
    if vs != [] {
      var n := |vs| - 1;
      assert forall i :: 0 <= i < n ==> vs[..n][i] == vs[i];
      CleanedOfClean(vs[..n]);
      CleanIdOfClean(vs[n]);
      CleanedPrefix(vs, n);
      assert vs[..n + 1] == vs;
      Lists.Snoc(vs);
    }
  }

  lemma CleanIdOfClean(x: string)
    requires IsCleanId(x)
    ensures CleanId(x) == x
  {
  }

  /** Normalising normalised ids changes nothing. */
  lemma NormalizedIdsIdempotent(values: Option<seq<string>>)
    ensures NormalizedIds(Some(NormalizedIds(values))) == NormalizedIds(values)
  {
    var ids := NormalizedIds(values);
    NormalizedIdsShape(values);
    CleanedOfClean(ids);
    UniqueByDistinctKeys(ids, Identity);
  }

  lemma CleanedPrefix(vs: seq<string>, i: int)
    requires 0 <= i < |vs|
    ensures Cleaned(vs[..i + 1]) == Cleaned(vs[..i]) + (if CleanId(vs[i]) == "" then [] else [CleanId(vs[i])])
  {
    assert vs[..i + 1][..i] == vs[..i];
  }

  /** One more normalised id: kept when it is not empty and not seen before. */
  lemma NormalizeStep(c: seq<string>, id: string)
    ensures var next := c + (if id == "" then [] else [id]);
      UniqueBy(next, Identity) == UniqueBy(c, Identity) + (if id == "" || id in KeysOf(c, Identity) then [] else [id])
      && KeysOf(next, Identity) == KeysOf(c, Identity) + (if id == "" then {} else {id})
  {
    if id == "" {
      assert c + [] == c;
    } else {
      UniqueBySnoc(c, id, Identity);
      KeysOfSnoc(c, id, Identity);
    }
  }

  /** The loop of `_normalize_feature_ids` over one more normalised id: it
      is appended and marked seen when it is not empty and not seen before. */
  lemma NormalizeAdvance(c: seq<string>, id: string, ids: seq<string>, seen: set<string>)
    requires ids == UniqueBy(c, Identity) && seen == KeysOf(c, Identity)
    ensures var next := c + (if id == "" then [] else [id]);
      && UniqueBy(next, Identity) == (if id == "" || id in seen then ids else ids + [id])
      && KeysOf(next, Identity) == (if id == "" || id in seen then seen else seen + {id})
  {
    NormalizeStep(c, id);
    if id == "" {
      assert seen + {} == seen;
    } else if id in seen {
      assert seen + {id} == seen;
    }
  }

  /** `_normalize_feature_ids`. */
  method NormalizeFeatureIds(values: Option<seq<string>>) returns (ids: seq<string>)
    ensures ids == NormalizedIds(values)
    ensures forall i :: 0 <= i < |ids| ==> IsCleanId(ids[i])
    ensures forall i, j :: 0 <= i < j < |ids| ==> ids[i] != ids[j]
  {
    if values.None? || values.value == [] {
      NormalizedIdsShape(values);
      return [];
    }
    var vs := values.value;
    var seen: set<string> := {};
    ids := [];
    for i := 0 to |vs|
      invariant ids == UniqueBy(Cleaned(vs[..i]), Identity)
      invariant seen == KeysOf(Cleaned(vs[..i]), Identity)
    {
      var id := CleanId(vs[i]);
      CleanedPrefix(vs, i);
      NormalizeAdvance(Cleaned(vs[..i]), id, ids, seen);
      if id == "" || id in seen {
        continue;
      }
      seen := seen + {id};
      ids := ids + [id];
    }
    assert ids == NormalizedIds(values) by {
      assert vs[..|vs|] == vs;
    }
    NormalizedIdsShape(values);
  }

  // ---------------------------------------------------------------- payloads

  /** A decoded JSON value. */
  datatype Json =
    | JNull
    | JBool(b: bool)
    | JNumber(n: real)
    | JString(s: string)
    | JArray(items: seq<Json>)
    | JObject(fields: map<string, Json>)

  /** Python truthiness of a decoded value. */
  predicate Truthy(j: Json) {
    match j
    case JNull => false
    case JBool(b) => b
    case JNumber(n) => n != 0.0
    case JString(s) => s != ""
    case JArray(items) => items != []
    case JObject(fields) => fields != map[]
  }

  /** `dict.get(key)`, with None as JNull. */
  function Lookup(fields: map<string, Json>, key: string): Json {
    if key in fields then fields[key] else JNull
  }

  /** `payload.get("featureIds") or payload.get("feature_ids") or []`. */
  function RawIds(fields: map<string, Json>): (r: Json)
    ensures Truthy(Lookup(fields, "featureIds")) ==> r == fields["featureIds"]
    ensures !Truthy(Lookup(fields, "featureIds")) && Truthy(Lookup(fields, "feature_ids")) ==> r == fields["feature_ids"]
    ensures !Truthy(Lookup(fields, "featureIds")) && !Truthy(Lookup(fields, "feature_ids")) ==> r == JArray([])
  {
    var a := Lookup(fields, "featureIds");
    if Truthy(a) then a
    else
      var b := Lookup(fields, "feature_ids");
      if Truthy(b) then b else JArray([])
  }

  /** The string items of a list, in order; every other item is dropped. */
  function StringItems(items: seq<Json>): (r: seq<string>)
    ensures |r| <= |items|
    decreases |items|
  {
    if items == [] then []
    else
      var last := items[|items| - 1];
      StringItems(items[..|items| - 1]) + (if last.JString? then [last.s] else [])
  }

  /** Exactly the string items are kept: each kept string is the string of an
      item, and each string item has its string among the kept ones. */
  lemma {:induction false} StringItemsExact(items: seq<Json>)
    ensures forall x :: x in StringItems(items) <==> JString(x) in items
    decreases |items|
  {
    if items != [] {
      var p := items[..|items| - 1];
      var last := items[|items| - 1];
      StringItemsExact(p);
      assert items == p + [last];
      forall x ensures x in StringItems(items) <==> JString(x) in items {
        assert JString(x) in items <==> JString(x) in p || JString(x) == last;
      }
    }
  }

  /** The payload checks of `fetch_search_feature_ids` on the decoded body of
      the search backend at `url`: a body that is not JSON or not an object is
      a content error; ids come from "featureIds", else "feature_ids"; a value
      that is not a list gives no ids; otherwise its string items, normalised. */
  function SearchIdsOf(url: string, decoded: Option<Json>): (r: Result<seq<string>, HttpError>)
    ensures decoded.None? || !decoded.value.JObject? <==> r == Err(ContentError(url))
    ensures r.Err? ==> r == Err(ContentError(url))
    ensures r.Ok? && !RawIds(decoded.value.fields).JArray? ==> r.value == []
    ensures r.Ok? && RawIds(decoded.value.fields).JArray? ==>
      r.value == NormalizedIds(Some(StringItems(RawIds(decoded.value.fields).items)))
  {
    if decoded.None? || !decoded.value.JObject? then Err(ContentError(url))
    else
      var raw := RawIds(decoded.value.fields);
      if !raw.JArray? then Ok([])
      else Ok(NormalizedIds(Some(StringItems(raw.items))))
  }

  /** The ids of a search payload are already normalised. */
  lemma SearchIdsNormalized(url: string, decoded: Option<Json>)
    ensures var r := SearchIdsOf(url, decoded);
      r.Ok? ==> NormalizedIds(Some(r.value)) == r.value
  {
    if decoded.Some? && decoded.value.JObject? && RawIds(decoded.value.fields).JArray? {
      NormalizedIdsIdempotent(Some(StringItems(RawIds(decoded.value.fields).items)));
    }
  }

  /** `fetch_search_feature_ids` against the search backend at `url`. */
  method FetchSearchFeatureIds(t: Transport, url: string, query: string, decode: string -> Option<Json>)
    returns (r: Result<seq<string>, HttpError>)
    modifies t
    ensures var f := FetchHtmlSpec(url, map["search" := query], false, t.plan, |old(t.sent)|);
      t.sent == old(t.sent) + f.sent
      && (f.result.Err? ==> r == Err(f.result.error))
      && (f.result.Ok? ==> r == SearchIdsOf(url, decode(f.result.value)))
  {
    var body := FetchHtml(t, url, map["search" := query], false);
    if body.Err? {
      return Err(body.error);
    }
    var decoded := decode(body.value);
    if decoded.None? || !decoded.value.JObject? {
      return Err(ContentError(url));
    }
    var raw := RawIds(decoded.value.fields);
    if !raw.JArray? {
      return Ok([]);
    }
    var ids := NormalizeFeatureIds(Some(StringItems(raw.items)));
    return Ok(ids);
  }

  /** The form of a support-data request. */
  function SupportForm(fullIds: seq<string>, metaIds: seq<string>): (form: map<string, string>)
    ensures "type" in form && form["type"] == "support-data"
    ensures "fullDataFeats" in form <==> fullIds != []
    ensures "fullDataFeats" in form ==> form["fullDataFeats"] == Join(",", fullIds)
    ensures "metaDataFeats" in form <==> metaIds != []
    ensures "metaDataFeats" in form ==> form["metaDataFeats"] == Join(",", metaIds)
    ensures form.Keys <= {"type", "fullDataFeats", "metaDataFeats"}
  {
    var form := map["type" := "support-data"];
    var form := if fullIds != [] then form["fullDataFeats" := Join(",", fullIds)] else form;
    if metaIds != [] then form["metaDataFeats" := Join(",", metaIds)] else form
  }

  /** The payload check of `fetch_support_data`: a JSON object, or a content
      error naming the backend `url`. */
  function SupportPayloadOf(url: string, decoded: Option<Json>): (r: Result<map<string, Json>, HttpError>)
    ensures r.Ok? <==> decoded.Some? && decoded.value.JObject?
    ensures r.Ok? ==> r.value == decoded.value.fields
    ensures r.Err? ==> r.error == ContentError(url)
  {
    if decoded.Some? && decoded.value.JObject? then Ok(decoded.value.fields) else Err(ContentError(url))
  }

  /** `fetch_support_data` against the data backend at `url`: nothing is sent
      and the payload is empty when both id lists normalise to nothing;
      otherwise one form POST (with its retry) whose body must decode to an
      object. */
  method FetchSupportData(t: Transport, url: string, fullDataFeats: Option<seq<string>>,
                          metaDataFeats: Option<seq<string>>, decode: string -> Option<Json>)
    returns (r: Result<map<string, Json>, HttpError>)
    modifies t
    ensures var fullIds := NormalizedIds(fullDataFeats);
      var metaIds := NormalizedIds(metaDataFeats);
      if fullIds == [] && metaIds == [] then
        r == Ok(map[]) && t.sent == old(t.sent)
      else
        var a := Attempt(url, t.plan, |old(t.sent)|);
        t.sent == old(t.sent) + Repeat(Request(Post, url, SupportForm(fullIds, metaIds)), a.sends)
        && (a.result.Err? ==> r == Err(a.result.error))
        && (a.result.Ok? ==> r == SupportPayloadOf(url, decode(a.result.value)))
  {
    var fullIds := NormalizeFeatureIds(fullDataFeats);
    var metaIds := NormalizeFeatureIds(metaDataFeats);
    if fullIds == [] && metaIds == [] {
      return Ok(map[]);
    }
    r := PostSupportForm(t, url, fullIds, metaIds, decode);
  }

  /** The second half of `fetch_support_data`: the form is built key by key,
      posted, and the body checked. */
  method PostSupportForm(t: Transport, url: string, fullIds: seq<string>, metaIds: seq<string>,
                         decode: string -> Option<Json>)
    returns (r: Result<map<string, Json>, HttpError>)
    modifies t
    ensures var a := Attempt(url, t.plan, |old(t.sent)|);
      t.sent == old(t.sent) + Repeat(Request(Post, url, SupportForm(fullIds, metaIds)), a.sends)
      && (a.result.Err? ==> r == Err(a.result.error))
      && (a.result.Ok? ==> r == SupportPayloadOf(url, decode(a.result.value)))
  {
    var form := map["type" := "support-data"];
    if fullIds != [] {
      form := form["fullDataFeats" := Join(",", fullIds)];
    }
    if metaIds != [] {
      form := form["metaDataFeats" := Join(",", metaIds)];
    }
    assert form == SupportForm(fullIds, metaIds);
    var raw := PostForm(t, url, form);
    if raw.Err? {
      return Err(raw.error);
    }
    var decoded := decode(raw.value);
    if decoded.None? || !decoded.value.JObject? {
      return Err(ContentError(url));
    }
    return Ok(decoded.value.fields);
  }
}
