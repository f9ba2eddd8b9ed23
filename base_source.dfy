/** The common part of every source adapter (api/lib/base-source.js): the
    canonical item, the normalisation of a transform's output, the
    authentication headers built from a source's scheme, and a `Source`
    object holding a per-hour request counter, whose `GetData` runs the
    rate check, the fetch, the transform and the validation in that order.
    The fetch and the transform of a concrete source are given to
    `GetData`; the clock is an integer number of milliseconds. */
module BaseSource {
  import opened Common
  import opened Dicts
  import opened Registry

  datatype ItemMetadata = ItemMetadata(publicMetrics: Option<Dict<nat>>, hashtags: seq<string>, mentions: seq<string>)

  /** A canonical item; `publishedAt` is the publication time in milliseconds. */
  datatype Item = Item(
    id: string,
    title: string,
    description: string,
    url: string,
    publishedAt: int,
    author: string,
    metadata: ItemMetadata)

  datatype SourceMetadata = SourceMetadata(totalResults: nat, source: string)

  /** What a transform returns: `null`/`undefined`, a value that is not an
      object, or an object whose `items` and `metadata` may be missing. */
  datatype Output =
    | NullOutput
    | ScalarOutput
    | ObjectOutput(items: Option<seq<Item>>, metadata: Option<SourceMetadata>)

  /** The validated result of `getData`; a `None` metadata is `{}`. */
  datatype SourceData = SourceData(source: string, timestamp: int, count: nat, items: seq<Item>, metadata: Option<SourceMetadata>)

  /** `validateData(data)` at time `now`. */
  function ValidateData(sourceName: string, now: int, data: Output): (r: Result<SourceData>)
    ensures r.Err? <==> !data.ObjectOutput?
    ensures r.Err? ==> r.error == "Invalid data format"
    ensures r.Ok? ==> r.value.source == sourceName && r.value.timestamp == now
    ensures r.Ok? ==> r.value.items == data.items.GetOr([]) && r.value.count == |r.value.items|
    ensures r.Ok? ==> r.value.metadata == data.metadata
  {
    match data
    case ObjectOutput(items, metadata) =>
      var list := items.GetOr([]);
      Ok(SourceData(sourceName, now, |list|, list, metadata))
    case _ => Err("Invalid data format")
  }

  /** The output that validates to `d`. */
  function AsOutput(d: SourceData): Output
  {
    ObjectOutput(Some(d.items), d.metadata)
  }

  /** Validation is a normal form: validating what it produced changes nothing. */
  lemma ValidateDataIdempotent(sourceName: string, now: int, data: Output)
    requires ValidateData(sourceName, now, data).Ok?
    ensures ValidateData(sourceName, now, AsOutput(ValidateData(sourceName, now, data).value)) == ValidateData(sourceName, now, data)
  {
  }

  // ---------------------------------------------------------------------
  // Authentication headers

  /** The environment: variable name to value. */
  type Env = map<string, string>

  function EnvToken(env: Env, key: string): Option<string>
  {
    if key in env && env[key] != "" then Some(env[key]) else None
  }

  /** `getAuthHeaders()` for the source `sourceName` with scheme `auth`. */
  function AuthHeaders(sourceName: string, auth: Option<AuthScheme>, env: Env): (r: Result<Dict<string>>)
    ensures auth.None? || auth.value.kind == NoAuth ==> r == Ok([])
    ensures auth.Some? && auth.value.kind != NoAuth ==>
      (r.Err? <==> EnvToken(env, auth.value.envKey).None?)
    ensures r.Err? ==> r.error == "Missing authentication token for " + sourceName
    ensures r.Ok? ==> |r.value| <= 1
    ensures r.Ok? && |r.value| == 1 ==>
      auth.Some? && r.value[0].0 == auth.value.header
      && EnvToken(env, auth.value.envKey).Some?
      && r.value[0].1 == (if auth.value.kind == BearerAuth then "Bearer " else "") + EnvToken(env, auth.value.envKey).value
    ensures r.Ok? && |r.value| == 1 <==>
      auth.Some? && (auth.value.kind == BearerAuth || auth.value.kind == HeaderAuth)
      && EnvToken(env, auth.value.envKey).Some?
  {
    if auth.None? || auth.value.kind == NoAuth then Ok([])
    else
      match EnvToken(env, auth.value.envKey)
      case None => Err("Missing authentication token for " + sourceName)
      case Some(token) =>
        match auth.value.kind
        case BearerAuth => Ok([(auth.value.header, "Bearer " + token)])
        case HeaderAuth => Ok([(auth.value.header, token)])
        case _ => Ok([])
  }

  // ---------------------------------------------------------------------
  // The hour-bucket limiter

  /** One hour, in milliseconds. */
  const HourMs: int := 1000 * 60 * 60

  /** `Math.floor(now / 3600000)`; the map key `hour_<k>` is written `k`. */
  function HourKey(now: int): int
  {
    now / HourMs
  }

  /** `rateLimiter.get(key) || 0`. */
  function BucketCount(buckets: map<int, nat>, h: int): nat
  {
    if h in buckets then buckets[h] else 0
  }

  /** `checkRateLimit()` as a function of the counters before the call: the
      outcome and the counters after it. A refused call changes nothing;
      an accepted one adds one to the current bucket only. */
  function LimiterStep(buckets: map<int, nat>, limit: nat, sourceName: string, now: int): (r: (Outcome, map<int, nat>))
    ensures r.0.Pass? <==> BucketCount(buckets, HourKey(now)) < limit
    ensures r.0.Fail? ==> r.0.error == "Rate limit exceeded for " + sourceName && r.1 == buckets
    ensures r.0.Pass? ==> r.1 == buckets[HourKey(now) := BucketCount(buckets, HourKey(now)) + 1]
  {
    var h := HourKey(now);
    var count := BucketCount(buckets, h);
    if count >= limit then (Fail("Rate limit exceeded for " + sourceName), buckets)
    else (Pass, buckets[h := count + 1])
  }

  /** A sequence of rate checks: how many were accepted, and the counters after them. */
  function RunLimiter(buckets: map<int, nat>, limit: nat, sourceName: string, times: seq<int>): (nat, map<int, nat>)
    decreases |times|
  {
    if times == [] then (0, buckets)
    else
      var (o, next) := LimiterStep(buckets, limit, sourceName, times[0]);
      var (n, last) := RunLimiter(next, limit, sourceName, times[1..]);
      ((if o.Pass? then 1 else 0) + n, last)
  }

  /** Within one hour bucket, the checks accepted are the first ones up to
      the room left in the bucket, and the bucket ends at the limit or below. */
  lemma {:induction false} AcceptedInOneHour(buckets: map<int, nat>, limit: nat, sourceName: string, times: seq<int>, h: int)
    requires forall i :: 0 <= i < |times| ==> HourKey(times[i]) == h
    ensures RunLimiter(buckets, limit, sourceName, times).0 == Min(|times|, Max(0, limit - BucketCount(buckets, h)))
    ensures BucketCount(RunLimiter(buckets, limit, sourceName, times).1, h) ==
      if BucketCount(buckets, h) >= limit then BucketCount(buckets, h)
      else BucketCount(buckets, h) + Min(|times|, limit - BucketCount(buckets, h))
    decreases |times|
  {
    if times != [] {
      var (o, next) := LimiterStep(buckets, limit, sourceName, times[0]);
      AcceptedInOneHour(next, limit, sourceName, times[1..], h);
    }
  }

  /** A fresh source accepts at most `requests_per_hour` checks in one hour. */
  lemma FreshSourceHourlyBound(limit: nat, sourceName: string, times: seq<int>, h: int)
    requires forall i :: 0 <= i < |times| ==> HourKey(times[i]) == h
    ensures RunLimiter(map[], limit, sourceName, times).0 == Min(|times|, limit) <= limit
  {
    AcceptedInOneHour(map[], limit, sourceName, times, h);
  }

  // ---------------------------------------------------------------------
  // getData

  /** The steps of `getData`, in the order they are taken. */
  datatype Step = RateCheck | Fetch | Transform | Validate

  const AllSteps: seq<Step> := [RateCheck, Fetch, Transform, Validate]

  /** `getData` as a function of the counters before the call, the reply of
      the fetch and the transform: the result and the counters after it. */
  function DataStep<Raw>(buckets: map<int, nat>, limit: nat, sourceName: string, fetched: Result<Raw>,
                         transform: Raw -> Output, now: int): (Result<SourceData>, map<int, nat>)
  {
    var (o, next) := LimiterStep(buckets, limit, sourceName, now);
    if o.Fail? then (Err(o.error), next)
    else match fetched
      case Err(e) => (Err(e), next)
      case Ok(raw) => (ValidateData(sourceName, now, transform(raw)), next)
  }

  /** A refused rate check decides the result whatever the fetch would
      give, and leaves the counters as they were; a fetch that fails after
      an accepted check has still used up its slot. */
  lemma DataStepOrder<Raw>(buckets: map<int, nat>, limit: nat, sourceName: string, fetched: Result<Raw>,
                           transform: Raw -> Output, now: int)
    ensures BucketCount(buckets, HourKey(now)) >= limit ==>
      DataStep(buckets, limit, sourceName, fetched, transform, now) == (Err("Rate limit exceeded for " + sourceName), buckets)
    ensures BucketCount(buckets, HourKey(now)) < limit && fetched.Err? ==>
      DataStep(buckets, limit, sourceName, fetched, transform, now)
        == (Err(fetched.error), buckets[HourKey(now) := BucketCount(buckets, HourKey(now)) + 1])
  {
  }

  /** An adapter instance: BaseSource's fields. */
  class Source {
    const sourceName: string
    const config: SourceConfig
    /** rateLimiter: hour bucket to the number of requests accepted in it. */
    var rateLimiter: map<int, nat>

    /** No bucket holds more than the hourly limit. */
    ghost predicate Valid()
      reads this
    {
      forall h :: h in rateLimiter ==> rateLimiter[h] <= config.rateLimit.requestsPerHour
    }

    constructor (sourceName: string, config: SourceConfig)
      ensures this.sourceName == sourceName && this.config == config
      ensures rateLimiter == map[] && Valid()
    {
      this.sourceName := sourceName;
      this.config := config;
      rateLimiter := map[];
    }

    /** `new BaseSource(sourceName)`: throws when the catalogue has no entry. */
    static method Create(catalogue: Catalogue, sourceName: string) returns (r: Result<Source>)
      ensures r.Err? <==> GetSourceConfig(catalogue, sourceName).Err?
      ensures r.Err? ==> r.error == GetSourceConfig(catalogue, sourceName).error
      ensures r.Ok? ==> fresh(r.value) && r.value.sourceName == sourceName
      ensures r.Ok? ==> r.value.config == GetSourceConfig(catalogue, sourceName).value
      ensures r.Ok? ==> r.value.rateLimiter == map[] && r.value.Valid()
    {
      match GetSourceConfig(catalogue, sourceName)
      case Err(e) =>
        r := Err(e);
      case Ok(config) =>
        var source := new Source(sourceName, config);
        r := Ok(source);
    }

    /** `checkRateLimit()` at time `now`. */
    method CheckRateLimit(now: int) returns (o: Outcome)
      requires Valid()
      modifies this
      ensures (o, rateLimiter) == LimiterStep(old(rateLimiter), config.rateLimit.requestsPerHour, sourceName, now)
      ensures Valid()
    {
      var hourKey := HourKey(now);
      var hourlyCount := if hourKey in rateLimiter then rateLimiter[hourKey] else 0;
      if hourlyCount >= config.rateLimit.requestsPerHour {
        return Fail("Rate limit exceeded for " + sourceName);
      }
      rateLimiter := rateLimiter[hourKey := hourlyCount + 1];
      return Pass;
    }

    /** `getData(query)` at time `now`, where `fetched` is what
        `fetchRawData` would give. `trace` lists the steps taken: a refused
        rate check stops before the fetch, and a failed fetch has already
        been counted. */
    method GetData<Raw>(fetched: Result<Raw>, transform: Raw -> Output, now: int)
      returns (r: Result<SourceData>, ghost trace: seq<Step>)
      requires Valid()
      modifies this
      ensures (r, rateLimiter) == DataStep(old(rateLimiter), config.rateLimit.requestsPerHour, sourceName, fetched, transform, now)
      ensures Valid()
      ensures 1 <= |trace| <= |AllSteps| && trace == AllSteps[..|trace|]
      ensures Fetch in trace <==> LimiterStep(old(rateLimiter), config.rateLimit.requestsPerHour, sourceName, now).0.Pass?
      ensures Transform in trace <==> Fetch in trace && fetched.Ok?
      ensures r.Ok? ==> trace == AllSteps
    {
      trace := [RateCheck];
      var checked := CheckRateLimit(now);
      if checked.Fail? {
        return Err(checked.error), trace;
      }
      trace := trace + [Fetch];
      if fetched.Err? {
        return Err(fetched.error), trace;
      }
      trace := trace + [Transform];
      var transformedData := transform(fetched.value);
      trace := trace + [Validate];
      r := ValidateData(sourceName, now, transformedData);
    }
  }
}
