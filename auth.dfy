/** The API-key authenticator (api/middleware/auth.js): key extraction,
    role lookup by secret, the per-key hourly counter table and the
    permission gate. The table is a field of an `Authenticator` object; the
    role secrets, the key hash and the clock are given to it. */
module Auth {
  import opened Common
  import opened Strings

  datatype Role = Admin | Internal | Readonly

  /** API_KEYS: the secret of each role, `None` when its variable is unset. */
  datatype ApiKeys = ApiKeys(admin: Option<string>, internal: Option<string>, readonly: Option<string>)

  /** `Object.entries(API_KEYS)`, in declaration order. */
  function KeyTable(keys: ApiKeys): seq<(Role, Option<string>)>
  {
    [(Admin, keys.admin), (Internal, keys.internal), (Readonly, keys.readonly)]
  }

  function Secret(keys: ApiKeys, role: Role): Option<string>
  {
    match role
    case Admin => keys.admin
    case Internal => keys.internal
    case Readonly => keys.readonly
  }

  /** Position of a role in API_KEYS. */
  function Rank(role: Role): nat
  {
    match role
    case Admin => 0
    case Internal => 1
    case Readonly => 2
  }

  /** PERMISSIONS. */
  function Permissions(role: Role): seq<string>
  {
    match role
    case Admin => ["read", "write", "delete", "metrics", "config"]
    case Internal => ["read", "write", "metrics"]
    case Readonly => ["read"]
  }

  /** One hour, in milliseconds. */
  const WindowSize: int := 60 * 60 * 1000

  /** The hourly limit of a role. The fallback of 50 requests applies to a
      role without a limit, and every role has one. */
  function MaxRequests(role: Role): nat
  {
    match role
    case Admin => 1000
    case Internal => 500
    case Readonly => 100
  }

  /** The parts of a request the authenticator reads; header names are lower-case. */
  datatype Request = Request(headers: map<string, string>, query: map<string, string>)

  datatype ErrorCode = MissingApiKey | InvalidApiKey | RateLimitExceeded | InsufficientPermissions

  datatype AuthResult =
    | Authenticated(keyType: Role, permissions: seq<string>)
    | Denied(code: ErrorCode, message: string)

  datatype Counter = Counter(count: nat, windowStart: int)

  datatype RateDecision = RateDecision(allowed: bool, current: nat, limit: nat, message: string)

  function Lookup(m: map<string, string>, k: string): Option<string>
  {
    if k in m then Some(m[k]) else None
  }

  /** A JavaScript value that `||` keeps: a string that is present and non-empty. */
  predicate Truthy(v: Option<string>) { v.Some? && v.value != "" }

  // ---------------------------------------------------------------------
  // Key extraction

  /** `a || b || c` over optional strings. */
  function FirstTruthy(c: seq<Option<string>>): (r: Option<string>)
    ensures r.Some? ==> r.value != "" && exists i :: 0 <= i < |c| && c[i] == r && forall j :: 0 <= j < i ==> !Truthy(c[j])
    ensures r.None? ==> forall i :: 0 <= i < |c| ==> !Truthy(c[i])
    decreases |c|
  {
    if c == [] then None
    else if Truthy(c[0]) then c[0]
    else
      var r := FirstTruthy(c[1..]);
      assert r.Some? ==> exists i :: 0 <= i < |c| && c[i] == r && forall j :: 0 <= j < i ==> !Truthy(c[j]) by {
        if r.Some? {
          var i :| 0 <= i < |c[1..]| && c[1..][i] == r && forall j :: 0 <= j < i ==> !Truthy(c[1..][j]);
          assert c[i + 1] == r;
          assert forall j :: 0 <= j < i + 1 ==> !Truthy(c[j]) by {
            forall j | 0 <= j < i + 1 ensures !Truthy(c[j]) {
              if j > 0 { assert c[j] == c[1..][j - 1]; }
            }
          }
        }
      }
      assert r.None? ==> forall i :: 0 <= i < |c| ==> !Truthy(c[i]) by {
        if r.None? {
          forall i | 0 <= i < |c| ensures !Truthy(c[i]) {
            if i > 0 { assert c[i] == c[1..][i - 1]; }
          }
        }
      }
      r
  }

  /** `req.headers['authorization']?.replace('Bearer ', '')`. */
  function BearerValue(req: Request): Option<string>
  {
    match Lookup(req.headers, "authorization")
    case Some(v) => Some(ReplaceFirst(v, "Bearer ", ""))
    case None => None
  }

  /** The places a key may come from, in order of precedence. */
  function Candidates(req: Request): seq<Option<string>>
  {
    [Lookup(req.headers, "x-api-key"), BearerValue(req), Lookup(req.query, "api_key")]
  }

  function ExtractKey(req: Request): Option<string>
  {
    FirstTruthy(Candidates(req))
  }

  /** A non-empty x-api-key header wins over everything else. */
  lemma DirectKeyWins(req: Request, key: string)
    requires Lookup(req.headers, "x-api-key") == Some(key) && key != ""
    ensures ExtractKey(req) == Some(key)
  {
  }

  /** Without an x-api-key header, "Authorization: Bearer t" yields t. */
  lemma BearerKeyExtracted(req: Request, token: string)
    requires !Truthy(Lookup(req.headers, "x-api-key"))
    requires Lookup(req.headers, "authorization") == Some("Bearer " + token) && token != ""
    ensures ExtractKey(req) == Some(token)
  {
    ReplaceFirstAtStart("Bearer ", token);
    var c := Candidates(req);
    assert c[1..][0] == BearerValue(req) == Some(token);
  }

  /** The query parameter is used only when neither header gives a key. */
  lemma QueryKeyLast(req: Request)
    requires !Truthy(Lookup(req.headers, "x-api-key")) && !Truthy(BearerValue(req))
    ensures ExtractKey(req) == if Truthy(Lookup(req.query, "api_key")) then Lookup(req.query, "api_key") else None
  {
    var c := Candidates(req);
    assert c[1..][1..] == [Lookup(req.query, "api_key")];
    assert FirstTruthy(c) == FirstTruthy(c[1..]) == FirstTruthy(c[1..][1..]);
    assert c[1..][1..][1..] == [];
  }

  // ---------------------------------------------------------------------
  // Secret comparison and role lookup

  /** `crypto.timingSafeEqual` on two equal-length buffers: every position is
      compared, with no early exit. */
  function TimingSafeEqual(a: string, b: string): (r: bool)
    requires |a| == |b|
    ensures r <==> a == b
    decreases |a|
  {
    if a == [] then true
    else
      var rest := TimingSafeEqual(a[1..], b[1..]);
      assert a == [a[0]] + a[1..] && b == [b[0]] + b[1..];
      (a[0] == b[0]) && rest
  }

  /** `secureCompare(a, b)`: false for an empty operand or different
      lengths, otherwise equality. */
  function SecureCompare(a: string, b: string): (r: bool)
    ensures r <==> a != "" && a == b
  {
    if a == "" || b == "" || |a| != |b| then false else TimingSafeEqual(a, b)
  }

  /** The first role of `table` whose secret is set and equals `provided`. */
  function FirstMatch(table: seq<(Role, Option<string>)>, provided: string): Option<Role>
    decreases |table|
  {
    if table == [] then None
    else if Truthy(table[0].1) && SecureCompare(provided, table[0].1.value) then Some(table[0].0)
    else FirstMatch(table[1..], provided)
  }

  /** `validateApiKey(providedKey)`. */
  method ValidateApiKey(keys: ApiKeys, provided: string) returns (r: Option<Role>)
    ensures r == FirstMatch(KeyTable(keys), provided)
  {
    var table := KeyTable(keys);
    for i := 0 to |table|
      invariant FirstMatch(table[i..], provided) == FirstMatch(table, provided)
    {
      assert table[i..][1..] == table[i + 1..];
      var (role, expected) := table[i];
      if Truthy(expected) && SecureCompare(provided, expected.value) {
        return Some(role);
      }
    }
    assert table[|table|..] == [];
    return None;
  }

  /** The role found is one whose secret is `provided`, no role before it in
      API_KEYS has that secret, and no role is found exactly when none has it. */
  lemma FirstMatchMeaning(keys: ApiKeys, provided: string)
    ensures FirstMatch(KeyTable(keys), provided).Some? ==>
      var role := FirstMatch(KeyTable(keys), provided).value;
      provided != "" && Secret(keys, role) == Some(provided)
      && forall q :: Rank(q) < Rank(role) ==> Secret(keys, q) != Some(provided)
    ensures FirstMatch(KeyTable(keys), provided).None? <==>
      (provided == "" || forall q :: Secret(keys, q) != Some(provided))
  {
    var t := KeyTable(keys);
    assert t[1..] == [(Internal, keys.internal), (Readonly, keys.readonly)];
    assert t[1..][1..] == [(Readonly, keys.readonly)];
    assert t[1..][1..][1..] == [];
    assert FirstMatch(t[1..][1..], provided) ==
      if Truthy(keys.readonly) && SecureCompare(provided, keys.readonly.value) then Some(Readonly) else None;
    assert FirstMatch(t[1..], provided) ==
      if Truthy(keys.internal) && SecureCompare(provided, keys.internal.value) then Some(Internal)
      else FirstMatch(t[1..][1..], provided);
    assert FirstMatch(t, provided) ==
      if Truthy(keys.admin) && SecureCompare(provided, keys.admin.value) then Some(Admin)
      else FirstMatch(t[1..], provided);
  }

  // ---------------------------------------------------------------------
  // The counter table

  /** The counter of one key after a call at `now`: created as {0, now} the
      first time, reset to {0, now} once more than an hour has passed since
      the window started, and then incremented, whether or not the call
      will be allowed. */
  function Tick(c: Option<Counter>, now: int): Counter
  {
    var base := if c.None? then Counter(0, now) else c.value;
    var current := if now - base.windowStart > WindowSize then Counter(0, now) else base;
    Counter(current.count + 1, current.windowStart)
  }

  function Decide(c: Counter, role: Role): RateDecision
  {
    var maxRequests := MaxRequests(role);
    var allowed := c.count <= maxRequests;
    RateDecision(allowed, c.count, maxRequests,
      if allowed then "OK" else "Limit of " + NatToString(maxRequests) + " requests per hour exceeded")
  }

  function Entry(table: map<string, Counter>, h: string): Option<Counter>
  {
    if h in table then Some(table[h]) else None
  }

  /** `authenticate(req)` as a function of the counter table before the
      call: the result and the table after it. */
  function AuthStep(keys: ApiKeys, hash: string -> string, table: map<string, Counter>, req: Request, now: int)
    : (AuthResult, map<string, Counter>)
  {
    match ExtractKey(req)
    case None => (Denied(MissingApiKey, "API key required"), table)
    case Some(key) =>
      match FirstMatch(KeyTable(keys), key)
      case None => (Denied(InvalidApiKey, "Invalid API key"), table)
      case Some(role) =>
        var h := hash(key);
        var c := Tick(Entry(table, h), now);
        var d := Decide(c, role);
        var result := if d.allowed then Authenticated(role, Permissions(role))
                      else Denied(RateLimitExceeded, "Rate limit exceeded: " + d.message);
        (result, table[h := c])
  }

  class Authenticator {
    const keys: ApiKeys
    const hash: string -> string
    /** rateLimits: key hash to counter. */
    var rateLimits: map<string, Counter>

    constructor (keys: ApiKeys, hash: string -> string)
      ensures this.keys == keys && this.hash == hash && rateLimits == map[]
    {
      this.keys := keys;
      this.hash := hash;
      rateLimits := map[];
    }

    /** `checkRateLimit(apiKey, keyType)` at time `now`. */
    method CheckRateLimit(apiKey: string, role: Role, now: int) returns (d: RateDecision)
      modifies this
      ensures rateLimits == old(rateLimits)[hash(apiKey) := Tick(Entry(old(rateLimits), hash(apiKey)), now)]
      ensures d == Decide(Tick(Entry(old(rateLimits), hash(apiKey)), now), role)
    {
      var keyHash := hash(apiKey);
      if keyHash !in rateLimits {
        rateLimits := rateLimits[keyHash := Counter(0, now)];
      }
      var limit := rateLimits[keyHash];
      if now - limit.windowStart > WindowSize {
        limit := Counter(0, now);
      }
      limit := limit.(count := limit.count + 1);
      rateLimits := rateLimits[keyHash := limit];
      var maxRequests := MaxRequests(role);
      var allowed := limit.count <= maxRequests;
      d := RateDecision(allowed, limit.count, maxRequests,
        if allowed then "OK" else "Limit of " + NatToString(maxRequests) + " requests per hour exceeded");
    }

    /** `authenticate(req)` at time `now`. */
    method Authenticate(req: Request, now: int) returns (r: AuthResult)
      modifies this
      ensures (r, rateLimits) == AuthStep(keys, hash, old(rateLimits), req, now)
    {
      var apiKey := ExtractKey(req);
      if apiKey.None? {
        return Denied(MissingApiKey, "API key required");
      }
      var keyType := ValidateApiKey(keys, apiKey.value);
      if keyType.None? {
        return Denied(InvalidApiKey, "Invalid API key");
      }
      var rateLimitResult := CheckRateLimit(apiKey.value, keyType.value, now);
      if !rateLimitResult.allowed {
        return Denied(RateLimitExceeded, "Rate limit exceeded: " + rateLimitResult.message);
      }
      return Authenticated(keyType.value, Permissions(keyType.value));
    }
  }

  // ---------------------------------------------------------------------
  // Properties of authenticate

  /** Without a key the call is rejected and no counter is touched. */
  lemma MissingKeyRejected(keys: ApiKeys, hash: string -> string, table: map<string, Counter>, req: Request, now: int)
    requires ExtractKey(req).None?
    ensures AuthStep(keys, hash, table, req, now) == (Denied(MissingApiKey, "API key required"), table)
  {
  }

  /** A key that is no role's secret is rejected and no counter is touched. */
  lemma UnknownKeyRejected(keys: ApiKeys, hash: string -> string, table: map<string, Counter>, req: Request, now: int)
    requires ExtractKey(req).Some?
    requires forall q :: Secret(keys, q) != ExtractKey(req)
    ensures AuthStep(keys, hash, table, req, now) == (Denied(InvalidApiKey, "Invalid API key"), table)
  {
    FirstMatchMeaning(keys, ExtractKey(req).value);
  }

  /** A successful call names a role whose secret is the presented key and
      carries exactly that role's permissions; a call with a valid key
      succeeds exactly when the incremented count is within the role's limit. */
  lemma AuthenticatedMeaning(keys: ApiKeys, hash: string -> string, table: map<string, Counter>, req: Request, now: int)
    ensures var (r, _) := AuthStep(keys, hash, table, req, now);
      r.Authenticated? ==> ExtractKey(req).Some? && Secret(keys, r.keyType) == ExtractKey(req)
                           && r.permissions == Permissions(r.keyType)
    ensures ExtractKey(req).Some? && FirstMatch(KeyTable(keys), ExtractKey(req).value).Some? ==>
      var key := ExtractKey(req).value;
      var role := FirstMatch(KeyTable(keys), key).value;
      (AuthStep(keys, hash, table, req, now).0.Authenticated?
       <==> Tick(Entry(table, hash(key)), now).count <= MaxRequests(role))
  {
    if ExtractKey(req).Some? {
      FirstMatchMeaning(keys, ExtractKey(req).value);
    }
  }

  /** Only the counter of the presented key's hash may change. */
  lemma OtherCountersUnchanged(keys: ApiKeys, hash: string -> string, table: map<string, Counter>, req: Request, now: int, h: string)
    requires ExtractKey(req).None? || h != hash(ExtractKey(req).value)
    ensures var table' := AuthStep(keys, hash, table, req, now).1;
      (h in table' <==> h in table) && (h in table ==> table'[h] == table[h])
  {
  }

  /** The counter after a sequence of calls with one key. */
  function Replay(c: Option<Counter>, times: seq<int>): Option<Counter>
    decreases |times|
  {
    if times == [] then c else Replay(Some(Tick(c, times[0])), times[1..])
  }

  lemma {:induction false} ReplayWithinWindow(c: Counter, times: seq<int>)
    requires forall i :: 0 <= i < |times| ==> times[i] - c.windowStart <= WindowSize
    ensures Replay(Some(c), times) == Some(Counter(c.count + |times|, c.windowStart))
    decreases |times|
  {
    if times != [] {
      ReplayWithinWindow(Counter(c.count + 1, c.windowStart), times[1..]);
    }
  }

  /** Calls with one key inside the hour that starts with the first of them:
      every call, denied or not, takes a slot, so call k+1 (counting from 1)
      is allowed exactly when k+1 is within the role's limit. */
  lemma {:induction false} CallsWithinOneWindow(times: seq<int>, k: nat, role: Role)
    requires k < |times|
    requires forall i :: 0 <= i < |times| ==> times[0] <= times[i] <= times[0] + WindowSize
    ensures Replay(None, times[..k + 1]) == Some(Counter(k + 1, times[0]))
    ensures Decide(Replay(None, times[..k + 1]).value, role).allowed <==> k + 1 <= MaxRequests(role)
  {
    var first := Tick(None, times[0]);
    assert first == Counter(1, times[0]);
    assert times[..k + 1][1..] == times[1..k + 1];
    ReplayWithinWindow(first, times[1..k + 1]);
  }

  /** Once more than an hour has passed since the window started, the next
      call opens a new window and is allowed for every role. */
  lemma WindowResetAllowsAgain(c: Counter, now: int, role: Role)
    requires now - c.windowStart > WindowSize
    ensures Tick(Some(c), now) == Counter(1, now)
    ensures Decide(Tick(Some(c), now), role).allowed
  {
  }

  // ---------------------------------------------------------------------
  // requirePermission

  /** `requirePermission(permission)(result)`. */
  function RequirePermission(permission: string, result: AuthResult): (r: AuthResult)
    ensures result.Denied? ==> r == result
    ensures result.Authenticated? && permission in result.permissions ==> r == result
    ensures result.Authenticated? && permission !in result.permissions ==>
      r == Denied(InsufficientPermissions, "Permission '" + permission + "' required")
  {
    if !result.Authenticated? then result
    else if permission !in result.permissions then
      Denied(InsufficientPermissions, "Permission '" + permission + "' required")
    else result
  }

  /** The gate passes only authenticated results holding the permission,
      and applying it twice is the same as applying it once. */
  lemma RequirePermissionGate(permission: string, result: AuthResult)
    ensures RequirePermission(permission, result).Authenticated? <==>
      result.Authenticated? && permission in result.permissions
    ensures RequirePermission(permission, RequirePermission(permission, result)) == RequirePermission(permission, result)
  {
  }

  /** The permission sets are nested: readonly within internal within admin. */
  lemma PermissionsNested()
    ensures forall p :: p in Permissions(Readonly) ==> p in Permissions(Internal)
    ensures forall p :: p in Permissions(Internal) ==> p in Permissions(Admin)
  {
  }
}
