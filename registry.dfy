/** The static catalogue of data sources (api/config/sources.js): its two
    entries, the lookup by catalogue key, and the list of active sources that
    the aggregator dispatches to. */
module Registry {
  import opened Common
  import opened Dicts
  import opened Sorting

  datatype RateLimit = RateLimit(requestsPerHour: nat, requestsPerDay: nat)

  /** The `auth.type` tag of a source; `OtherAuth` is any other tag. */
  datatype AuthKind = NoAuth | BearerAuth | HeaderAuth | OtherAuth(tag: string)

  datatype AuthScheme = AuthScheme(kind: AuthKind, header: string, envKey: string)

  /** A query-parameter value; `Absent` is `null` or `undefined`. */
  datatype ParamValue = Num(n: nat) | Text(s: string) | Absent

  /** One catalogue entry. `name` is the entry's own display name, which may
      be missing in a general catalogue (both entries of the static one have it). */
  datatype SourceConfig = SourceConfig(
    name: Option<string>,
    enabled: bool,
    priority: int,
    cacheTtl: nat,
    rateLimit: RateLimit,
    endpoints: Dict<string>,
    auth: Option<AuthScheme>,
    defaultParams: Dict<ParamValue>,
    searchQueries: seq<string>)

  /** An element of `getActiveSources()`: `{ name, ...config }`. */
  datatype ActiveSource = ActiveSource(name: string, config: SourceConfig)

  type Catalogue = Dict<SourceConfig>

  const TwitterConfig: SourceConfig := SourceConfig(
    Some("Twitter/X"), true, 1, 300, RateLimit(100, 1000),
    [("search", "https://api.twitter.com/2/tweets/search/recent")],
    Some(AuthScheme(BearerAuth, "Authorization", "TWITTER_BEARER_TOKEN")),
    [("max_results", Num(10)), ("tweet.fields", Text("created_at,author_id,public_metrics"))],
    ["UNSA Police", "Loïc Walder", "@UNSAPOLICE"])

  const NewsApiConfig: SourceConfig := SourceConfig(
    Some("NewsAPI"), true, 2, 600, RateLimit(50, 500),
    [("everything", "https://newsapi.org/v2/everything")],
    Some(AuthScheme(HeaderAuth, "X-API-Key", "NEWS_API_KEY")),
    [("language", Text("fr")), ("sortBy", Text("publishedAt")), ("pageSize", Num(20))],
    ["police syndicat UNSA", "sécurité publique France"])

  /** SOURCES_CONFIG, keyed by 'twitter' and 'newsapi' in that order. */
  const SourcesConfig: Catalogue := [("twitter", TwitterConfig), ("newsapi", NewsApiConfig)]

  /** `getSourceConfig(key)`: the entry under `key`, disabled or not; an
      unknown key throws. */
  function GetSourceConfig(catalogue: Catalogue, key: string): (r: Result<SourceConfig>)
    ensures r.Ok? <==> key in Keys(catalogue)
    ensures r.Ok? ==> (key, r.value) in catalogue && Get(catalogue, key) == Some(r.value)
    ensures r.Err? ==> r.error == "Source configuration not found: " + key
  {
    match Get(catalogue, key)
    case Some(config) => Ok(config)
    case None => Err("Source configuration not found: " + key)
  }

  /** `{ name, ...config }`: the config's own `name` overrides the key. */
  function Flatten(entry: (string, SourceConfig)): ActiveSource
  {
    ActiveSource(entry.1.name.GetOr(entry.0), entry.1)
  }

  function Enabled(catalogue: Catalogue): (r: Catalogue)
    ensures |r| <= |catalogue|
    ensures forall e :: e in r <==> e in catalogue && e.1.enabled
    decreases |catalogue|
  {
    if catalogue == [] then []
    else (if catalogue[0].1.enabled then [catalogue[0]] else []) + Enabled(catalogue[1..])
  }

  /** The filter keeps catalogue order and multiplicity: filtering a
      concatenation is concatenating the filtered parts. With `EnabledOne`
      this determines `Enabled` completely. */
  lemma {:induction false} EnabledAppend(a: Catalogue, b: Catalogue)
    ensures Enabled(a + b) == Enabled(a) + Enabled(b)
    decreases |a|
  {
    if a == [] {
      assert a + b == b;
    } else {
      assert (a + b)[0] == a[0] && (a + b)[1..] == a[1..] + b;
      EnabledAppend(a[1..], b);
    }
  }

  /** A single entry is kept exactly when it is enabled. */
  lemma EnabledOne(entry: (string, SourceConfig))
    ensures Enabled([entry]) == if entry.1.enabled then [entry] else []
  {
  }

  function Priority(entry: (string, SourceConfig)): int { entry.1.priority }

  /** The enabled entries, stably sorted by ascending priority. */
  function ActiveEntries(catalogue: Catalogue): Catalogue
  {
    SortBy(Enabled(catalogue), Priority)
  }

  lemma ActiveEntriesFacts(catalogue: Catalogue)
    ensures |ActiveEntries(catalogue)| == |Enabled(catalogue)|
    ensures forall i :: 0 <= i < |ActiveEntries(catalogue)| ==> ActiveEntries(catalogue)[i].1.enabled
    ensures forall i, j :: 0 <= i < j < |ActiveEntries(catalogue)| ==>
      ActiveEntries(catalogue)[i].1.priority <= ActiveEntries(catalogue)[j].1.priority
  {
    var entries := ActiveEntries(catalogue);
    forall i | 0 <= i < |entries| ensures entries[i].1.enabled {
      assert entries[i] in multiset(Enabled(catalogue));
    }
    forall i, j | 0 <= i < j < |entries| ensures entries[i].1.priority <= entries[j].1.priority {
      assert Priority(entries[i]) <= Priority(entries[j]);
    }
  }

  /** `getActiveSources()` over a catalogue. */
  function ActiveSources(catalogue: Catalogue): (r: seq<ActiveSource>)
    ensures |r| == |Enabled(catalogue)| <= |catalogue|
    ensures forall i :: 0 <= i < |r| ==> r[i].config.enabled
    ensures forall i, j :: 0 <= i < j < |r| ==> r[i].config.priority <= r[j].config.priority
  {
    var entries := ActiveEntries(catalogue);
    ActiveEntriesFacts(catalogue);
    seq(|entries|, i requires 0 <= i < |entries| => Flatten(entries[i]))
  }

  /** Enabled entries of equal priority stay in catalogue order: the sort is stable. */
  lemma EqualPrioritiesKeepCatalogueOrder(catalogue: Catalogue, p: int)
    ensures WithKey(ActiveEntries(catalogue), Priority, p) == WithKey(Enabled(catalogue), Priority, p)
  {
    SortByStable(Enabled(catalogue), Priority, p);
  }

  /** The active entries are a reordering of the enabled entries (each
      enabled catalogue entry once per occurrence, by `EnabledAppend` and
      `EnabledOne`), and nothing else; each active source flattens the entry
      at its position. */
  lemma ActiveSourcesAreTheEnabledEntries(catalogue: Catalogue)
    ensures multiset(ActiveEntries(catalogue)) == multiset(Enabled(catalogue))
    ensures forall e :: e in ActiveEntries(catalogue) <==> e in catalogue && e.1.enabled
    ensures forall i :: 0 <= i < |ActiveSources(catalogue)| ==> ActiveSources(catalogue)[i] == Flatten(ActiveEntries(catalogue)[i])
  {
    var entries := ActiveEntries(catalogue);
    forall e ensures e in entries <==> e in Enabled(catalogue) {
      assert e in entries <==> e in multiset(entries);
      assert e in Enabled(catalogue) <==> e in multiset(Enabled(catalogue));
    }
  }

  /** An active source is named by its config's own `name` when it has one,
      and by its catalogue key otherwise. */
  lemma DisplayNameWins(catalogue: Catalogue, i: nat)
    requires i < |ActiveSources(catalogue)|
    ensures ActiveSources(catalogue)[i].name ==
      match ActiveEntries(catalogue)[i].1.name
      case Some(n) => n
      case None => ActiveEntries(catalogue)[i].0
  {
  }

  /** The active sources of the static catalogue carry the display names
      'Twitter/X' and 'NewsAPI', not the keys 'twitter' and 'newsapi'. */
  lemma StaticActiveSources()
    ensures ActiveSources(SourcesConfig) == [ActiveSource("Twitter/X", TwitterConfig), ActiveSource("NewsAPI", NewsApiConfig)]
  {
    StaticEntries();
    TwoEnabledInOrder(SourcesConfig);
  }

  lemma StaticEntries()
    ensures |SourcesConfig| == 2
    ensures SourcesConfig[0].1.enabled && SourcesConfig[1].1.enabled
    ensures SourcesConfig[0].1.priority <= SourcesConfig[1].1.priority
    ensures Flatten(SourcesConfig[0]) == ActiveSource("Twitter/X", TwitterConfig)
    ensures Flatten(SourcesConfig[1]) == ActiveSource("NewsAPI", NewsApiConfig)
  {
  }

  /** Two enabled entries already in priority order are both active, in order. */
  lemma TwoEnabledInOrder(catalogue: Catalogue)
    requires |catalogue| == 2 && catalogue[0].1.enabled && catalogue[1].1.enabled
    requires catalogue[0].1.priority <= catalogue[1].1.priority
    ensures ActiveSources(catalogue) == [Flatten(catalogue[0]), Flatten(catalogue[1])]
  {
    assert catalogue[1..][1..] == [];
    assert Enabled(catalogue) == [catalogue[0], catalogue[1]];
    SortTwo(catalogue[0], catalogue[1], Priority);
  }
}
