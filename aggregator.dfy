/** The aggregation endpoint (api/aggregator.js): it authenticates the
    request, selects active sources, dispatches each one with failures
    captured per source, and merges the items, newest first, up to a limit.
    The parallel dispatch is modelled as a sequential loop with one result
    per source, in order. */
module Aggregator {
  import opened Common
  import opened Strings
  import opened Dicts
  import opened Sorting
  import opened Registry
  import opened Auth
  import opened BaseSource
  import opened Twitter

  /** The names under which SOURCE_REGISTRY holds an adapter class. */
  const RegisteredClasses: seq<string> := [SourceKey]

  /** One element of `executeSourcesParallel`'s result. */
  datatype SourceResult = Succeeded(source: string, data: SourceData) | Failed(source: string, error: string)

  // ---------------------------------------------------------------------
  // Source selection

  /** `activeSources.filter(source => names.includes(source.name))`. */
  function NamedIn(active: seq<ActiveSource>, names: seq<string>): (r: seq<ActiveSource>)
    ensures |r| <= |active|
    ensures forall s :: s in r <==> s in active && s.name in names
    decreases |active|
  {
    if active == [] then []
    else (if active[0].name in names then [active[0]] else []) + NamedIn(active[1..], names)
  }

  /** The sources asked for by the `sources` parameter: every active source
      for "all", otherwise those whose name is one of the comma-separated
      pieces, in active-list order. */
  function SelectSources(active: seq<ActiveSource>, sources: string): (r: seq<ActiveSource>)
    ensures |r| <= |active|
    ensures sources == "all" ==> r == active
    ensures sources != "all" ==> forall s :: s in r <==> s in active && s.name in Split(sources, ',')
  {
    if sources == "all" then active else NamedIn(active, Split(sources, ','))
  }

  /** The filter keeps active-list order and multiplicity: filtering a
      concatenation is concatenating the filtered parts. With `NamedInOne`
      this determines `NamedIn` completely. */
  lemma {:induction false} NamedInAppend(a: seq<ActiveSource>, b: seq<ActiveSource>, names: seq<string>)
    ensures NamedIn(a + b, names) == NamedIn(a, names) + NamedIn(b, names)
    decreases |a|
  {
    if a == [] {
      assert a + b == b;
    } else {
      assert (a + b)[0] == a[0] && (a + b)[1..] == a[1..] + b;
      NamedInAppend(a[1..], b, names);
    }
  }

  /** A single source is kept exactly when its name is listed. */
  lemma NamedInOne(s: ActiveSource, names: seq<string>)
    ensures NamedIn([s], names) == if s.name in names then [s] else []
  {
  }

  /** The selection keeps active-list order: selecting from a concatenation
      is concatenating the selections. */
  lemma SelectSourcesAppend(a: seq<ActiveSource>, b: seq<ActiveSource>, sources: string)
    ensures SelectSources(a + b, sources) == SelectSources(a, sources) + SelectSources(b, sources)
  {
    if sources != "all" {
      NamedInAppend(a, b, Split(sources, ','));
    }
  }

  /** A single source is selected by `all`, or when its name is one of the
      comma-separated pieces. */
  lemma SelectSourcesOne(s: ActiveSource, sources: string)
    ensures SelectSources([s], sources) == if sources == "all" || s.name in Split(sources, ',') then [s] else []
  {
    if sources != "all" {
      NamedInOne(s, Split(sources, ','));
    }
  }

  function Names(active: seq<ActiveSource>): (r: seq<string>)
    ensures |r| == |active| && forall i :: 0 <= i < |r| ==> r[i] == active[i].name
  {
    seq(|active|, i requires 0 <= i < |active| => active[i].name)
  }

  // ---------------------------------------------------------------------
  // Dispatch

  /** The result for one selected source: the adapter class is looked up by
      the source's name, constructed (which reads its catalogue entry), and
      asked for data with the query and no options; any error becomes a
      failed result that names the source. A new adapter has no counters. */
  function Dispatch(catalogue: Catalogue, selected: ActiveSource, query: string, env: Env,
                    server: HttpRequest -> UpstreamReply, now: int): (r: SourceResult)
    ensures r.source == selected.name
    ensures selected.name !in RegisteredClasses ==> r == Failed(selected.name, "Source class not found: " + selected.name)
  {
    if selected.name !in RegisteredClasses then Failed(selected.name, "Source class not found: " + selected.name)
    else match GetSourceConfig(catalogue, SourceKey)
      case Err(e) => Failed(selected.name, e)
      case Ok(config) =>
        var fetched := FetchRawData(config, query, [], env, server);
        match DataStep(map[], config.rateLimit.requestsPerHour, SourceKey, fetched, TransformData, now).0
        case Ok(data) => Succeeded(selected.name, data)
        case Err(e) => Failed(selected.name, e)
  }

  /** `executeSourcesParallel(sources, query)`: one result per source, in
      order, each depending only on its own source. */
  method ExecuteSources(catalogue: Catalogue, selected: seq<ActiveSource>, query: string, env: Env,
                        server: HttpRequest -> UpstreamReply, now: int) returns (results: seq<SourceResult>)
    ensures |results| == |selected|
    ensures forall i :: 0 <= i < |selected| ==> results[i] == Dispatch(catalogue, selected[i], query, env, server, now)
  {
    results := [];
    for i := 0 to |selected|
      invariant |results| == i
      invariant forall j :: 0 <= j < i ==> results[j] == Dispatch(catalogue, selected[j], query, env, server, now)
    {
      var sourceConfig := selected[i];
      var result: SourceResult;
      if sourceConfig.name !in RegisteredClasses {
        result := Failed(sourceConfig.name, "Source class not found: " + sourceConfig.name);
      } else {
        var created := Source.Create(catalogue, SourceKey);
        if created.Err? {
          result := Failed(sourceConfig.name, created.error);
        } else {
          var source := created.value;
          var fetched := FetchRawData(source.config, query, [], env, server);
          ghost var trace: seq<Step>;
          var data;
          data, trace := source.GetData(fetched, TransformData, now);
          result := if data.Ok? then Succeeded(sourceConfig.name, data.value) else Failed(sourceConfig.name, data.error);
        }
      }
      results := results + [result];
    }
  }

  // ---------------------------------------------------------------------
  // formatAggregatedResponse

  datatype SourceStat = SourceStat(itemsCount: nat, success: bool, error: Option<string>)

  /** `limitApplied` is `None` when `parseInt` gave NaN. */
  datatype Summary = Summary(totalSources: nat, successfulSources: nat, totalItems: nat, limitApplied: Option<int>)

  datatype Envelope = Envelope(timestamp: int, summary: Summary, items: seq<Item>, sources: Dict<SourceStat>)

  function ItemsOf(r: SourceResult): seq<Item>
  {
    if r.Succeeded? then r.data.items else []
  }

  function StatOf(r: SourceResult): SourceStat
  {
    match r
    case Succeeded(_, data) => SourceStat(|data.items|, true, None)
    case Failed(_, error) => SourceStat(0, false, Some(error))
  }

  /** The items of the successful results, result after result. */
  function MergedItems(rs: seq<SourceResult>): seq<Item>
    decreases |rs|
  {
    if rs == [] then [] else MergedItems(rs[..|rs| - 1]) + ItemsOf(rs[|rs| - 1])
  }

  /** `sourceStats` after recording every result in order. */
  function Stats(rs: seq<SourceResult>): Dict<SourceStat>
    decreases |rs|
  {
    if rs == [] then [] else Put(Stats(rs[..|rs| - 1]), rs[|rs| - 1].source, StatOf(rs[|rs| - 1]))
  }

  /** `results.filter(r => r.success).length`. */
  function CountSucceeded(rs: seq<SourceResult>): (n: nat)
    ensures n <= |rs|
    ensures n == |rs| <==> forall i :: 0 <= i < |rs| ==> rs[i].Succeeded?
    ensures n == 0 <==> forall i :: 0 <= i < |rs| ==> rs[i].Failed?
    decreases |rs|
  {
    if rs == [] then 0
    else
      var n := CountSucceeded(rs[1..]);
      assert forall i :: 1 <= i < |rs| ==> rs[i] == rs[1..][i - 1];
      (if rs[0].Succeeded? then 1 else 0) + n
  }

  /** The successes of a concatenation add up. With `CountSucceededOne`
      this makes the count the number of successful results. */
  lemma {:induction false} CountSucceededAppend(a: seq<SourceResult>, b: seq<SourceResult>)
    ensures CountSucceeded(a + b) == CountSucceeded(a) + CountSucceeded(b)
    decreases |a|
  {
    if a == [] {
      assert a + b == b;
    } else {
      assert (a + b)[0] == a[0] && (a + b)[1..] == a[1..] + b;
      CountSucceededAppend(a[1..], b);
    }
  }

  /** One result counts one exactly when it succeeded. */
  lemma CountSucceededOne(r: SourceResult)
    ensures CountSucceeded([r]) == if r.Succeeded? then 1 else 0
  {
  }

  /** The sort key of the comparator `b.published_at - a.published_at`. */
  function Recency(item: Item): int { -item.publishedAt }

  /** `items.slice(0, limit)`; a NaN limit keeps nothing. */
  function Limited(items: seq<Item>, limit: Option<int>): seq<Item>
  {
    match limit
    case None => []
    case Some(n) => SliceTo(items, n)
  }

  /** The response `formatAggregatedResponse(results, limit)` builds at time `now`. */
  function Format(rs: seq<SourceResult>, limit: Option<int>, now: int): Envelope
  {
    var limited := Limited(SortBy(MergedItems(rs), Recency), limit);
    Envelope(now, Summary(|rs|, CountSucceeded(rs), |limited|, limit), limited, Stats(rs))
  }

  method FormatAggregatedResponse(results: seq<SourceResult>, limit: Option<int>, now: int) returns (response: Envelope)
    ensures response == Format(results, limit, now)
  {
    var allItems: seq<Item> := [];
    var sourceStats: Dict<SourceStat> := [];
    for i := 0 to |results|
      invariant allItems == MergedItems(results[..i])
      invariant sourceStats == Stats(results[..i])
    {
      var result := results[i];
      assert results[..i + 1][..i] == results[..i];
      if result.Succeeded? {
        allItems := allItems + result.data.items;
        sourceStats := Put(sourceStats, result.source, SourceStat(|result.data.items|, true, None));
      } else {
        sourceStats := Put(sourceStats, result.source, SourceStat(0, false, Some(result.error)));
      }
    }
    assert results[..|results|] == results;
    allItems := SortBy(allItems, Recency);
    var limitedItems := Limited(allItems, limit);
    var successful := CountSucceeded(results);
    response := Envelope(now, Summary(|results|, successful, |limitedItems|, limit), limitedItems, sourceStats);
  }

  // ---------------------------------------------------------------------
  // Properties of the response

  /** An item is merged exactly when some successful result carries it. */
  lemma {:induction false} MergedItemsMembers(rs: seq<SourceResult>, x: Item)
    ensures x in MergedItems(rs) <==> exists i :: 0 <= i < |rs| && x in ItemsOf(rs[i])
    decreases |rs|
  {
    if rs != [] {
      var init := rs[..|rs| - 1];
      MergedItemsMembers(init, x);
      assert forall i :: 0 <= i < |init| ==> init[i] == rs[i];
    }
  }

  /** Every result's source has an entry and nothing else does. */
  lemma StatsKeys(rs: seq<SourceResult>, s: string)
    ensures Get(Stats(rs), s).Some? <==> exists i :: 0 <= i < |rs| && rs[i].source == s
  {
    StatsKeysOfSources(rs, s);
  }

  /** The sources of the results, in order. */
  function SourcesOf(rs: seq<SourceResult>): (r: seq<string>)
    ensures forall s :: s in r <==> exists i :: 0 <= i < |rs| && rs[i].source == s
    decreases |rs|
  {
    if rs == [] then []
    else
      var init := rs[..|rs| - 1];
      assert forall i :: 0 <= i < |init| ==> init[i] == rs[i];
      SourcesOf(init) + [rs[|rs| - 1].source]
  }

  lemma {:induction false} StatsKeysOfSources(rs: seq<SourceResult>, s: string)
    ensures Get(Stats(rs), s).Some? <==> s in SourcesOf(rs)
    decreases |rs|
  {
    if rs != [] {
      StatsKeysOfSources(rs[..|rs| - 1], s);
    }
  }

  /** An entry records the last result for its source. */
  lemma {:induction false} StatsOfLast(rs: seq<SourceResult>, s: string, j: nat)
    requires j < |rs| && rs[j].source == s
    requires forall k :: j < k < |rs| ==> rs[k].source != s
    ensures Get(Stats(rs), s) == Some(StatOf(rs[j]))
    decreases |rs|
  {
    if j < |rs| - 1 {
      var init := rs[..|rs| - 1];
      StatsOfLast(init, s, j);
    }
  }

  /** The items are the merged ones, newest first, cut at the limit: a
      NaN limit keeps none and a limit n >= 0 keeps min(n, total). */
  lemma ItemsNewestFirst(rs: seq<SourceResult>, limit: Option<int>, now: int)
    ensures var items := Format(rs, limit, now).items;
      (forall i, j :: 0 <= i < j < |items| ==> items[i].publishedAt >= items[j].publishedAt)
      && (limit.None? ==> items == [])
      && (limit.Some? && limit.value >= 0 ==> |items| == Min(limit.value, |MergedItems(rs)|))
  {
    var sorted := SortBy(MergedItems(rs), Recency);
    var items := Limited(sorted, limit);
    assert Format(rs, limit, now).items == items;
    assert items == sorted[..|items|];
    assert forall i, j :: 0 <= i < j < |items| ==> Recency(sorted[i]) <= Recency(sorted[j]);
  }

  /** The items kept are drawn from the merged ones, and none left out is
      newer than one kept. */
  lemma ItemsAreTheNewest(rs: seq<SourceResult>, limit: Option<int>, now: int)
    ensures var items := Format(rs, limit, now).items;
      var merged := MergedItems(rs);
      multiset(items) <= multiset(merged)
      && (forall y: Item, x: Item :: y in multiset(merged) - multiset(items) && x in items ==> y.publishedAt <= x.publishedAt)
  {
    var merged := MergedItems(rs);
    var items := Limited(SortBy(merged, Recency), limit);
    assert Format(rs, limit, now).items == items;
    assert items == SortBy(merged, Recency)[..|items|];
    SortedTakeIsLeast(merged, Recency, |items|);
  }

  /** Items with the same publication time stay in merged order. */
  lemma EqualTimesKeepMergedOrder(rs: seq<SourceResult>, k: int)
    ensures WithKey(SortBy(MergedItems(rs), Recency), Recency, k) == WithKey(MergedItems(rs), Recency, k)
  {
    SortByStable(MergedItems(rs), Recency, k);
  }

  lemma {:induction false} MergedOfFailures(rs: seq<SourceResult>)
    requires forall i :: 0 <= i < |rs| ==> rs[i].Failed?
    ensures MergedItems(rs) == []
    decreases |rs|
  {
    if rs != [] {
      MergedOfFailures(rs[..|rs| - 1]);
    }
  }

  /** The summary counts the results, the successful ones and the items
      returned, and echoes the limit. */
  lemma SummaryCounts(rs: seq<SourceResult>, limit: Option<int>, now: int)
    ensures var e := Format(rs, limit, now);
      e.summary.totalSources == |rs| && e.summary.successfulSources <= |rs|
      && e.summary.successfulSources == CountSucceeded(rs)
      && (forall i :: 0 <= i <= |rs| ==>
            e.summary.successfulSources == CountSucceeded(rs[..i]) + CountSucceeded(rs[i..]))
      && e.summary.totalItems == |e.items| && e.summary.limitApplied == limit
      && (e.summary.successfulSources == 0 ==> e.items == [])
  {
    forall i | 0 <= i <= |rs|
      ensures CountSucceeded(rs) == CountSucceeded(rs[..i]) + CountSucceeded(rs[i..])
    {
      assert rs == rs[..i] + rs[i..];
      CountSucceededAppend(rs[..i], rs[i..]);
    }
    if CountSucceeded(rs) == 0 {
      MergedOfFailures(rs);
      assert SortBy(MergedItems(rs), Recency) == [];
    }
  }

  // ---------------------------------------------------------------------
  // handler

  datatype HttpResponse =
    | Unauthorized(message: string)
    | NoValidSources(available: seq<string>)
    | Aggregated(body: Envelope)

  function StatusCode(r: HttpResponse): nat
  {
    match r
    case Unauthorized(_) => 401
    case NoValidSources(_) => 400
    case Aggregated(_) => 200
  }

  /** A query parameter, or its destructuring default when it is absent. */
  function Param(req: Request, name: string, default: string): string
  {
    Lookup(req.query, name).GetOr(default)
  }

  /** `parseInt(limit)`, where an absent `limit` is the number 50. */
  function RequestedLimit(req: Request): Option<int>
  {
    match Lookup(req.query, "limit")
    case None => Some(50)
    case Some(text) => ParseInt(text)
  }

  /** The selected sources of a request. */
  function Requested(catalogue: Catalogue, req: Request): seq<ActiveSource>
  {
    SelectSources(ActiveSources(catalogue), Param(req, "sources", "all"))
  }

  function Results(catalogue: Catalogue, selected: seq<ActiveSource>, query: string, env: Env,
                   server: HttpRequest -> UpstreamReply, now: int): (r: seq<SourceResult>)
    ensures |r| == |selected|
  {
    seq(|selected|, i requires 0 <= i < |selected| => Dispatch(catalogue, selected[i], query, env, server, now))
  }

  /** The response of `handler` to an authorised request. */
  function Serve(req: Request, catalogue: Catalogue, env: Env, server: HttpRequest -> UpstreamReply, now: int): (r: HttpResponse)
    ensures !r.Unauthorized?
    ensures r.NoValidSources? <==> Requested(catalogue, req) == []
    ensures r.NoValidSources? ==> r.available == Names(ActiveSources(catalogue))
    ensures r.Aggregated? ==> r.body.summary.totalSources == |Requested(catalogue, req)| >= 1
  {
    var requested := Requested(catalogue, req);
    if requested == [] then NoValidSources(Names(ActiveSources(catalogue)))
    else Aggregated(Format(Results(catalogue, requested, Param(req, "query", ""), env, server, now), RequestedLimit(req), now))
  }

  /** The response of `handler`, once authentication gave `authResult`. */
  function Respond(authResult: AuthResult, req: Request, catalogue: Catalogue, env: Env,
                   server: HttpRequest -> UpstreamReply, now: int): (r: HttpResponse)
    ensures r.Unauthorized? <==> authResult.Denied?
    ensures r.Unauthorized? ==> r.message == authResult.message
    ensures r.NoValidSources? <==> authResult.Authenticated? && Requested(catalogue, req) == []
    ensures r.NoValidSources? ==> r.available == Names(ActiveSources(catalogue))
    ensures r.Aggregated? ==> r.body.summary.totalSources == |Requested(catalogue, req)| >= 1
  {
    if authResult.Denied? then Unauthorized(authResult.message)
    else Serve(req, catalogue, env, server, now)
  }

  /** The part of `handler` after authentication: select, execute, format. */
  method ServeRequest(req: Request, catalogue: Catalogue, env: Env,
                      server: HttpRequest -> UpstreamReply, now: int) returns (response: HttpResponse)
    ensures response == Serve(req, catalogue, env, server, now)
  {
    var sources := Param(req, "sources", "all");
    var query := Param(req, "query", "");
    var activeSources := ActiveSources(catalogue);
    var requestedSources := SelectSources(activeSources, sources);
    if requestedSources == [] {
      return NoValidSources(Names(activeSources));
    }
    var results := ExecuteSources(catalogue, requestedSources, query, env, server, now);
    assert results == Results(catalogue, requestedSources, query, env, server, now);
    var body := FormatAggregatedResponse(results, RequestedLimit(req), now);
    return Aggregated(body);
  }

  /** `handler(req, res)` at time `now`, authenticating through `auth`. */
  method Handle(auth: Authenticator, req: Request, catalogue: Catalogue, env: Env,
                server: HttpRequest -> UpstreamReply, now: int) returns (response: HttpResponse)
    modifies auth
    ensures auth.rateLimits == AuthStep(auth.keys, auth.hash, old(auth.rateLimits), req, now).1
    ensures response == Respond(AuthStep(auth.keys, auth.hash, old(auth.rateLimits), req, now).0, req, catalogue, env, server, now)
  {
    var authResult := auth.Authenticate(req, now);
    if authResult.Denied? {
      return Unauthorized(authResult.message);
    }
    response := ServeRequest(req, catalogue, env, server, now);
  }

  // ---------------------------------------------------------------------
  // The static catalogue

  /** An authorised request whose selection is empty gets 400 with the
      names of every active source. */
  lemma EmptySelectionRejected(authResult: AuthResult, req: Request, catalogue: Catalogue, env: Env,
                               server: HttpRequest -> UpstreamReply, now: int)
    requires authResult.Authenticated? && Requested(catalogue, req) == []
    ensures Respond(authResult, req, catalogue, env, server, now) == NoValidSources(Names(ActiveSources(catalogue)))
  {
  }

  /** An authorised request whose selected sources all fail gets 200 with no
      items, one statistic per source, and no successful source. */
  lemma AllFailedResponse(authResult: AuthResult, req: Request, catalogue: Catalogue, env: Env,
                          server: HttpRequest -> UpstreamReply, now: int)
    requires authResult.Authenticated? && Requested(catalogue, req) != []
    requires var rs := Results(catalogue, Requested(catalogue, req), Param(req, "query", ""), env, server, now);
      forall i :: 0 <= i < |rs| ==> rs[i].Failed?
    ensures var r := Respond(authResult, req, catalogue, env, server, now);
      var rs := Results(catalogue, Requested(catalogue, req), Param(req, "query", ""), env, server, now);
      r.Aggregated? && r.body.items == [] && r.body.summary.totalSources == |rs|
      && r.body.summary.successfulSources == 0 && r.body.sources == Stats(rs)
  {
    var rs := Results(catalogue, Requested(catalogue, req), Param(req, "query", ""), env, server, now);
    SummaryCounts(rs, RequestedLimit(req), now);
  }

  lemma StaticActiveNames()
    ensures Names(ActiveSources(SourcesConfig)) == ["Twitter/X", "NewsAPI"]
  {
    StaticActiveSources();
  }

  lemma StaticRequestedNone(req: Request)
    requires Lookup(req.query, "sources") == Some("twitter")
    ensures Requested(SourcesConfig, req) == []
  {
    StaticActiveSources();
    SplitNoSeparator("twitter", ',');
    var active := ActiveSources(SourcesConfig);
    assert NamedIn(active, ["twitter"]) == [];
    assert Param(req, "sources", "all") == "twitter";
  }

  /** With the static catalogue, asking for `sources=twitter` matches no
      active source, since they are named 'Twitter/X' and 'NewsAPI'. */
  lemma StaticTwitterRequestRejected(authResult: AuthResult, req: Request, env: Env,
                                     server: HttpRequest -> UpstreamReply, now: int)
    requires authResult.Authenticated?
    requires Lookup(req.query, "sources") == Some("twitter")
    ensures Respond(authResult, req, SourcesConfig, env, server, now) == NoValidSources(["Twitter/X", "NewsAPI"])
  {
    StaticRequestedNone(req);
    StaticActiveNames();
    EmptySelectionRejected(authResult, req, SourcesConfig, env, server, now);
  }

  lemma UnregisteredFails(catalogue: Catalogue, selected: ActiveSource, query: string, env: Env,
                          server: HttpRequest -> UpstreamReply, now: int)
    requires selected.name != SourceKey
    ensures Dispatch(catalogue, selected, query, env, server, now) == Failed(selected.name, "Source class not found: " + selected.name)
  {
  }

  /** Two selected sources that are not registered both fail, in order. */
  lemma TwoUnregistered(catalogue: Catalogue, active: seq<ActiveSource>, query: string, env: Env,
                        server: HttpRequest -> UpstreamReply, now: int)
    requires |active| == 2 && active[0].name != SourceKey && active[1].name != SourceKey
    ensures Results(catalogue, active, query, env, server, now) ==
      [Failed(active[0].name, "Source class not found: " + active[0].name),
       Failed(active[1].name, "Source class not found: " + active[1].name)]
  {
    UnregisteredFails(catalogue, active[0], query, env, server, now);
    UnregisteredFails(catalogue, active[1], query, env, server, now);
  }

  /** With the static catalogue, every active source fails to dispatch:
      neither display name is a registered adapter class. */
  lemma StaticSourcesNeverDispatch(query: string, env: Env, server: HttpRequest -> UpstreamReply, now: int)
    ensures Results(SourcesConfig, ActiveSources(SourcesConfig), query, env, server, now) ==
      [Failed("Twitter/X", "Source class not found: Twitter/X"), Failed("NewsAPI", "Source class not found: NewsAPI")]
  {
    StaticActiveNames();
    DisplayNamesFail(SourcesConfig, ActiveSources(SourcesConfig), query, env, server, now);
  }

  lemma DisplayNamesFail(catalogue: Catalogue, active: seq<ActiveSource>, query: string, env: Env,
                         server: HttpRequest -> UpstreamReply, now: int)
    requires Names(active) == ["Twitter/X", "NewsAPI"]
    ensures Results(catalogue, active, query, env, server, now) ==
      [Failed("Twitter/X", "Source class not found: Twitter/X"), Failed("NewsAPI", "Source class not found: NewsAPI")]
  {
    assert Names(active)[0] == "Twitter/X" && Names(active)[1] == "NewsAPI";
    assert |active| == 2 && active[0].name == "Twitter/X" && active[1].name == "NewsAPI";
    assert "Twitter/X"[0] != SourceKey[0] && "NewsAPI"[0] != SourceKey[0];
    TwoUnregistered(catalogue, active, query, env, server, now);
    assert "Source class not found: " + active[0].name == "Source class not found: Twitter/X";
    assert "Source class not found: " + active[1].name == "Source class not found: NewsAPI";
  }

  /** So a request for all sources gets two failures and no items. */
  lemma StaticAllSourcesResponse(authResult: AuthResult, req: Request, env: Env,
                                 server: HttpRequest -> UpstreamReply, now: int)
    requires authResult.Authenticated?
    requires Lookup(req.query, "sources").None?
    ensures var r := Respond(authResult, req, SourcesConfig, env, server, now);
      r.Aggregated? && r.body.items == [] && r.body.summary.totalSources == 2 && r.body.summary.successfulSources == 0
      && Get(r.body.sources, "Twitter/X") == Some(SourceStat(0, false, Some("Source class not found: Twitter/X")))
  {
    assert Requested(SourcesConfig, req) == ActiveSources(SourcesConfig);
    StaticSourcesNeverDispatch(Param(req, "query", ""), env, server, now);
    assert "Twitter/X"[0] != "NewsAPI"[0];
    TwoFailuresResponse(authResult, req, SourcesConfig, env, server, now,
      "Twitter/X", "Source class not found: Twitter/X", "NewsAPI", "Source class not found: NewsAPI");
  }

  /** An authorised request whose two selected sources both fail. */
  lemma TwoFailuresResponse(authResult: AuthResult, req: Request, catalogue: Catalogue, env: Env,
                            server: HttpRequest -> UpstreamReply, now: int, a: string, ea: string, b: string, eb: string)
    requires authResult.Authenticated? && a != b
    requires Results(catalogue, Requested(catalogue, req), Param(req, "query", ""), env, server, now) == [Failed(a, ea), Failed(b, eb)]
    ensures var r := Respond(authResult, req, catalogue, env, server, now);
      r.Aggregated? && r.body.items == [] && r.body.summary.totalSources == 2 && r.body.summary.successfulSources == 0
      && Get(r.body.sources, a) == Some(SourceStat(0, false, Some(ea)))
  {
    var rs := Results(catalogue, Requested(catalogue, req), Param(req, "query", ""), env, server, now);
    assert Requested(catalogue, req) != [] && rs[0].Failed? && rs[1].Failed?;
    AllFailedResponse(authResult, req, catalogue, env, server, now);
    var r := Respond(authResult, req, catalogue, env, server, now);
    FirstOfTwoFailures(a, ea, b, eb);
    assert r.body.sources == Stats([Failed(a, ea), Failed(b, eb)]);
  }

  lemma FirstOfTwoFailures(a: string, ea: string, b: string, eb: string)
    requires a != b
    ensures Get(Stats([Failed(a, ea), Failed(b, eb)]), a) == Some(SourceStat(0, false, Some(ea)))
  {
    StatsOfLast([Failed(a, ea), Failed(b, eb)], a, 0);
  }

  // ---------------------------------------------------------------------
  // A registered source

  /** A source whose name is registered (`twitter`) is built from its
      catalogue entry and asked for data by a fresh adapter, with the query
      and no options: a missing entry, a refused rate check (a zero hourly
      limit, the adapter's counters being new) or a failed fetch becomes a
      failure carrying that error; a delivered payload becomes a success
      carrying the validated transform of the payload. */
  lemma DispatchRegistered(catalogue: Catalogue, selected: ActiveSource, query: string, env: Env,
                           server: HttpRequest -> UpstreamReply, now: int)
    requires selected.name == SourceKey
    ensures var r := Dispatch(catalogue, selected, query, env, server, now);
      var lookup := GetSourceConfig(catalogue, SourceKey);
      (lookup.Err? ==> r == Failed(SourceKey, "Source configuration not found: " + SourceKey))
      && (lookup.Ok? && lookup.value.rateLimit.requestsPerHour == 0 ==>
            r == Failed(SourceKey, "Rate limit exceeded for " + SourceKey))
      && (lookup.Ok? && lookup.value.rateLimit.requestsPerHour > 0 ==>
            var fetched := FetchRawData(lookup.value, query, [], env, server);
            (fetched.Err? ==> r == Failed(SourceKey, fetched.error))
            && (fetched.Ok? ==> r == Succeeded(SourceKey, ValidateData(SourceKey, now, TransformData(fetched.value)).value)))
  {
    var lookup := GetSourceConfig(catalogue, SourceKey);
    if lookup.Ok? {
      var config := lookup.value;
      var fetched := FetchRawData(config, query, [], env, server);
      assert BucketCount(map[], HourKey(now)) == 0;
      DataStepOrder(map[], config.rateLimit.requestsPerHour, SourceKey, fetched, TransformData, now);
    }
  }

  /** One registered source that delivers, then one unregistered source:
      the registered one succeeds with the validated transform of its
      payload, the other fails as not found, the summary counts one success
      out of two, the merged items are the registered source's, and each
      source has its own statistics. */
  lemma MixedResponse(catalogue: Catalogue, active: seq<ActiveSource>, query: string, env: Env,
                      server: HttpRequest -> UpstreamReply, now: int, limit: Option<int>)
    requires |active| == 2 && active[0].name == SourceKey && active[1].name != SourceKey
    requires GetSourceConfig(catalogue, SourceKey).Ok?
    requires GetSourceConfig(catalogue, SourceKey).value.rateLimit.requestsPerHour > 0
    requires FetchRawData(GetSourceConfig(catalogue, SourceKey).value, query, [], env, server).Ok?
    ensures var payload := FetchRawData(GetSourceConfig(catalogue, SourceKey).value, query, [], env, server).value;
      var data := ValidateData(SourceKey, now, TransformData(payload)).value;
      var rs := Results(catalogue, active, query, env, server, now);
      var e := Format(rs, limit, now);
      var missing := "Source class not found: " + active[1].name;
      rs == [Succeeded(SourceKey, data), Failed(active[1].name, missing)]
      && e.summary.totalSources == 2 && e.summary.successfulSources == 1
      && MergedItems(rs) == data.items
      && Get(e.sources, SourceKey) == Some(SourceStat(|data.items|, true, None))
      && Get(e.sources, active[1].name) == Some(SourceStat(0, false, Some(missing)))
  {
    var payload := FetchRawData(GetSourceConfig(catalogue, SourceKey).value, query, [], env, server).value;
    var data := ValidateData(SourceKey, now, TransformData(payload)).value;
    var missing := "Source class not found: " + active[1].name;
    DispatchRegistered(catalogue, active[0], query, env, server, now);
    UnregisteredFails(catalogue, active[1], query, env, server, now);
    var rs := Results(catalogue, active, query, env, server, now);
    assert rs == [Succeeded(SourceKey, data), Failed(active[1].name, missing)];
    MixedStats(SourceKey, data, active[1].name, missing);
  }

  /** The merge, count and statistics of a success followed by a failure of
      another source. */
  lemma MixedStats(a: string, data: SourceData, b: string, eb: string)
    requires a != b
    ensures var rs := [Succeeded(a, data), Failed(b, eb)];
      CountSucceeded(rs) == 1 && MergedItems(rs) == data.items
      && Get(Stats(rs), a) == Some(SourceStat(|data.items|, true, None))
      && Get(Stats(rs), b) == Some(SourceStat(0, false, Some(eb)))
  {
    var rs := [Succeeded(a, data), Failed(b, eb)];
    var first := rs[..1];
    assert first == [Succeeded(a, data)] && first[..0] == [] && rs[..|rs| - 1] == first;
    assert rs[1..] == [Failed(b, eb)] && rs[1..][1..] == [];
    assert MergedItems(first) == data.items;
    assert Stats(first) == Put([], a, StatOf(rs[0]));
    assert Stats(rs) == Put(Stats(first), b, StatOf(rs[1]));
  }
}
