/**
 * `CloudServersServiceImpl`: how the service applies its settings map, and the
 * `CachingInterceptor` that answers repeated API calls from the state manager's map while
 * the stored response is younger than the cache timeout.
 */
module ServiceImpl {
  import opened Wrappers
  import opened JavaLang
  import opened AccountBases
  import opened DefaultStateManagement
  import opened CloudClient

  /* ------------------------------ responses ------------------------------ */

  /**
   * `CachableResponse`: a serialized response and the time it was created. Equality and
   * hash code look at the time stamp only.
   */
  datatype CachableResponse = CachableResponse(timeStamp: Int64, data: seq<bv8>)
  {
    /** `equals`: false for null, otherwise a comparison of the time stamps. */
    function Equals(other: Option<CachableResponse>): bool
    {
      other.Some? && timeStamp == other.value.timeStamp
    }

    /** `hashCode`: `23 * 5 + (int)(timeStamp ^ (timeStamp >>> 32))`. */
    function HashCode(): Int32
    {
      AddInt(23 * 5, LongHashCode(timeStamp))
    }
  }

  /**
   * `equals` is an equivalence on non-null responses that ignores the data, never holds
   * for null, and equal responses have equal hash codes.
   */
  lemma CachableResponseEqualsContract(a: CachableResponse, b: CachableResponse, c: CachableResponse)
    ensures !a.Equals(None)
    ensures a.Equals(Some(b)) <==> a.timeStamp == b.timeStamp
    ensures a.Equals(Some(a))
    ensures a.Equals(Some(b)) ==> b.Equals(Some(a))
    ensures a.Equals(Some(b)) && b.Equals(Some(c)) ==> a.Equals(Some(c))
    ensures a.Equals(Some(b)) ==> a.HashCode() == b.HashCode()
  {
  }

  /** The state map the interceptor stores responses in, keyed by request fingerprint. */
  type ResponseCache = ConcurrentHashMap<Int32, CachableResponse>

  /* ---------------------------- settings loop ---------------------------- */

  /** `ServiceSetting`: the recognised setting names. */
  datatype ServiceSetting = ClientGaeCompatible | ClientResponseCaching | ClientCacheTtl | StateManagerSetting

  /** `ServiceSetting.valueOf`: the constant with that name, or `None` where it throws. */
  function SettingNamed(name: string): (r: Option<ServiceSetting>)
    ensures r.Some? ==> SettingName(r.value) == name
  {
    if name == "CLIENT_GAE_COMPATIBLE" then Some(ClientGaeCompatible)
    else if name == "CLIENT_RESPONSE_CACHING" then Some(ClientResponseCaching)
    else if name == "CLIENT_CACHE_TTL" then Some(ClientCacheTtl)
    else if name == "STATE_MANAGER" then Some(StateManagerSetting)
    else None
  }

  function SettingName(s: ServiceSetting): string
  {
    match s
    case ClientGaeCompatible => "CLIENT_GAE_COMPATIBLE"
    case ClientResponseCaching => "CLIENT_RESPONSE_CACHING"
    case ClientCacheTtl => "CLIENT_CACHE_TTL"
    case StateManagerSetting => "STATE_MANAGER"
  }

  /**
   * `valueOf` and `name` are inverse: every constant's own name resolves to it, and a name
   * resolves to a constant exactly when it is that constant's name.
   */
  lemma SettingNamesRoundTrip(name: string, s: ServiceSetting)
    ensures SettingNamed(SettingName(s)) == Some(s)
    ensures SettingNamed(name) == Some(s) <==> name == SettingName(s)
  {
  }

  /** A setting's value, by its run-time class; opaque objects carry their hash code. */
  datatype SettingValue =
    | BoolValue(b: bool)
    | LongValue(v: Int64)
    | StateManagerValue(state: ResponseCache, hash: Int32) // a `StateManager`, by its map
    | OtherValue(hash: Int32)
    | NullValue

  datatype Setting = Setting(name: string, value: SettingValue)

  /** The entries of a `Map<String, Object>`: no name occurs twice. */
  predicate DistinctNames(settings: seq<Setting>)
  {
    forall i, j :: 0 <= i < j < |settings| ==> settings[i].name != settings[j].name
  }

  /** `settings.get(name)`: the value of the entry with that name, if there is one. */
  function ValueOf(settings: seq<Setting>, name: string): Option<SettingValue>
  {
    if settings == [] then None
    else if settings[|settings| - 1].name == name then Some(settings[|settings| - 1].value)
    else ValueOf(settings[..|settings| - 1], name)
  }

  /** What the loop over the settings decides. */
  datatype Applied = Applied(gaeCompatible: bool, caching: bool, cacheTtl: Int64, stateManager: Option<ResponseCache>)

  /** The error that ends construction: `valueOf` of an unknown setting name. */
  datatype SettingError = UnknownSetting(name: string)

  /** A flag is on only when its value is `Boolean.TRUE`. */
  predicate FlagOn(settings: seq<Setting>, s: ServiceSetting)
  {
    ValueOf(settings, SettingName(s)) == Some(BoolValue(true))
  }

  /** The time-to-live is taken only from a `Long`; anything else leaves it 0. */
  function TtlOf(settings: seq<Setting>): Int64
  {
    match ValueOf(settings, SettingName(ClientCacheTtl))
    case Some(LongValue(v)) => v
    case _ => 0
  }

  /** The state manager is taken only from a `StateManager`; anything else leaves it unset. */
  function ManagerOf(settings: seq<Setting>): Option<ResponseCache>
  {
    match ValueOf(settings, SettingName(StateManagerSetting))
    case Some(StateManagerValue(m, _)) => Some(m)
    case _ => None
  }

  lemma {:induction false} ValueOfAbsent(settings: seq<Setting>, name: string)
    requires forall i :: 0 <= i < |settings| ==> settings[i].name != name
    ensures ValueOf(settings, name) == None
  {
    if settings != [] {
      ValueOfAbsent(settings[..|settings| - 1], name);
    }
  }

  /** Extending a prefix of distinct settings by one entry changes only that entry's name. */
  lemma ValueOfExtend(settings: seq<Setting>, i: nat, name: string)
    requires DistinctNames(settings) && i < |settings|
    ensures ValueOf(settings[..i + 1], name) ==
      if settings[i].name == name then Some(settings[i].value) else ValueOf(settings[..i], name)
    ensures settings[i].name == name ==> ValueOf(settings[..i], name) == None
  {
    assert settings[..i + 1][..i] == settings[..i];
    if settings[i].name == name {
      forall j | 0 <= j < i
        ensures settings[..i][j].name != name
      {
        assert settings[..i][j] == settings[j];
      }
      ValueOfAbsent(settings[..i], name);
    }
  }

  /**
   * The `for` loop of the constructor: fails iff some name is not a setting; otherwise
   * each effect is decided by the value stored under its name alone.
   */
  method ApplySettings(settings: seq<Setting>) returns (r: Result<Applied, SettingError>)
    requires DistinctNames(settings)
    ensures r.Err? <==> exists i :: 0 <= i < |settings| && SettingNamed(settings[i].name).None?
    ensures r.Err? ==> SettingNamed(r.error.name).None?
    ensures r.Ok? ==> r.value == Applied(FlagOn(settings, ClientGaeCompatible), FlagOn(settings, ClientResponseCaching),
                                         TtlOf(settings), ManagerOf(settings))
  {
    var gae, caching, ttl, manager := false, false, 0, None;
    for i := 0 to |settings|
      invariant forall j :: 0 <= j < i ==> SettingNamed(settings[j].name).Some?
      invariant gae == FlagOn(settings[..i], ClientGaeCompatible)
      invariant caching == FlagOn(settings[..i], ClientResponseCaching)
      invariant ttl == TtlOf(settings[..i])
      invariant manager == ManagerOf(settings[..i])
    {
      var s := settings[i];
      ValueOfExtend(settings, i, SettingName(ClientGaeCompatible));
      ValueOfExtend(settings, i, SettingName(ClientResponseCaching));
      ValueOfExtend(settings, i, SettingName(ClientCacheTtl));
      ValueOfExtend(settings, i, SettingName(StateManagerSetting));
      match SettingNamed(s.name)
      case None =>
        return Err(UnknownSetting(s.name));
      case Some(ClientGaeCompatible) =>
        if s.value == BoolValue(true) {
          gae := true;
        }
      case Some(ClientCacheTtl) =>
        if s.value.LongValue? {
          ttl := s.value.v;
        }
      case Some(ClientResponseCaching) =>
        if s.value == BoolValue(true) {
          caching := true;
        }
      case Some(StateManagerSetting) =>
        if s.value.StateManagerValue? {
          manager := Some(s.value.state);
        }
    }
    assert settings[..|settings|] == settings;
    r := Ok(Applied(gae, caching, ttl, manager));
  }

  /* ----------------------------- response cache ---------------------------- */

  /** `DEFAULT_CACHE_TTL`, in milliseconds. */
  const DEFAULT_CACHE_TTL: Int64 := 30000

  /** The interceptor's timeout: the supplied one if positive, otherwise the default. */
  function EffectiveTimeout(cacheTimeout: Int64): (t: Int64)
    ensures t > 0
    ensures cacheTimeout > 0 ==> t == cacheTimeout
    ensures cacheTimeout <= 0 ==> t == DEFAULT_CACHE_TTL
  {
    if cacheTimeout > 0 then cacheTimeout else DEFAULT_CACHE_TTL
  }

  /**
   * `putCachedResponse` on the map's contents: insert when absent, otherwise replace only
   * with a strictly newer response.
   */
  function PutCached(m: map<Int32, CachableResponse>, k: Int32, r: CachableResponse): map<Int32, CachableResponse>
  {
    if k !in m then m[k := r]
    else if r.timeStamp > m[k].timeStamp then m[k := r]
    else m
  }

  /**
   * Newest wins: afterwards the key holds whichever of the old and the new response is
   * newer (the old one on a tie), so its time stamp never decreases; no other key changes.
   */
  lemma PutCachedKeepsNewest(m: map<Int32, CachableResponse>, k: Int32, r: CachableResponse)
    ensures var m' := PutCached(m, k, r);
      m'.Keys == m.Keys + {k} &&
      (forall k' :: k' in m && k' != k ==> m'[k'] == m[k'])
    ensures var m' := PutCached(m, k, r);
      k !in m ==> m'[k] == r
    ensures var m' := PutCached(m, k, r);
      k in m ==> m'[k] == (if r.timeStamp > m[k].timeStamp then r else m[k]) &&
                 m'[k].timeStamp >= m[k].timeStamp && m'[k].timeStamp >= r.timeStamp
  {
  }

  /** The sum of the arguments' hash codes, nulls counting 0, without wrap-around. */
  function ArgSum(args: seq<Option<Int32>>): int
  {
    if args == [] then 0
    else ArgSum(args[..|args| - 1]) + (if args[|args| - 1].Some? then args[|args| - 1].value as int else 0)
  }

  lemma {:induction false} ArgSumAppend(a: seq<Option<Int32>>, b: seq<Option<Int32>>)
    ensures ArgSum(a + b) == ArgSum(a) + ArgSum(b)
    decreases |b|
  {
    if b != [] {
      assert (a + b)[..|a + b| - 1] == a + b[..|b| - 1];
      assert (a + b)[|a + b| - 1] == b[|b| - 1];
      ArgSumAppend(a, b[..|b| - 1]);
    } else {
      assert a + b == a;
    }
  }

  /** The request fingerprint: the signature's hash plus the arguments' hashes, modulo 2^32. */
  function Fingerprint(signature: string, args: seq<Option<Int32>>): Int32
  {
    Wrap32(StringHashCode(signature) + ArgSum(args))
  }

  /**
   * The fingerprint ignores the order of the arguments and any null argument, so calls
   * differing only in those share a cache entry.
   */
  lemma FingerprintIgnoresOrderAndNulls(signature: string, a: seq<Option<Int32>>, b: seq<Option<Int32>>)
    ensures Fingerprint(signature, a + b) == Fingerprint(signature, b + a)
    ensures Fingerprint(signature, a + [None]) == Fingerprint(signature, a)
  {
    ArgSumAppend(a, b);
    ArgSumAppend(b, a);
    assert (a + [None])[..|a|] == a;
  }

  /** The freshness test `now - timestamp < cacheTimeout`, in `long` arithmetic. */
  predicate IsFresh(now: Int64, timeStamp: Int64, cacheTimeout: Int64)
  {
    SubLong(now, timeStamp) < cacheTimeout
  }

  /** Whenever the elapsed time fits a `long`, freshness is the plain comparison. */
  lemma FreshWithoutOverflow(now: Int64, timeStamp: Int64, cacheTimeout: Int64)
    requires LONG_MIN <= now - timeStamp <= LONG_MAX
    ensures IsFresh(now, timeStamp, cacheTimeout) <==> now - timeStamp < cacheTimeout
  {
    var d := now - timeStamp;
    var w := SubLong(now, timeStamp);
    var q := (d - w) / TWO_64;
    assert d - w == TWO_64 * q;
  }

  /** What `intercept` returns: the response (as its serialized data) and whether it proceeded. */
  datatype Interception = Interception(response: seq<bv8>, proceeded: bool, cache: map<Int32, CachableResponse>)

  /**
   * `intercept` on the cache contents: a fresh entry answers the call; otherwise the call
   * proceeds, its `result` is stamped `stamp` and put back with `PutCached`.
   */
  function Intercepted(m: map<Int32, CachableResponse>, key: Int32, cacheTimeout: Int64, now: Int64, stamp: Int64,
                       result: seq<bv8>): Interception
  {
    if key in m && IsFresh(now, m[key].timeStamp, cacheTimeout) then Interception(m[key].data, false, m)
    else Interception(result, true, PutCached(m, key, CachableResponse(stamp, result)))
  }

  /**
   * The underlying call is skipped exactly when a fresh entry exists; then the cached data
   * is returned and the cache is untouched. Otherwise the call's result is returned and
   * the key afterwards holds a response at least as new as the one stamped for it.
   */
  lemma InterceptUsesOnlyFreshEntries(m: map<Int32, CachableResponse>, key: Int32, cacheTimeout: Int64, now: Int64,
                                      stamp: Int64, result: seq<bv8>)
    ensures var i := Intercepted(m, key, cacheTimeout, now, stamp, result);
      !i.proceeded <==> key in m && IsFresh(now, m[key].timeStamp, cacheTimeout)
    ensures var i := Intercepted(m, key, cacheTimeout, now, stamp, result);
      !i.proceeded ==> i.response == m[key].data && i.cache == m
    ensures var i := Intercepted(m, key, cacheTimeout, now, stamp, result);
      i.proceeded ==> i.response == result && key in i.cache && i.cache[key].timeStamp >= stamp &&
                      (forall k :: k in m && k != key ==> k in i.cache && i.cache[k] == m[k])
  {
    PutCachedKeepsNewest(m, key, CachableResponse(stamp, result));
  }

  /** `CachingInterceptor`, working on the map of the service's state manager. */
  class CachingInterceptor {
    const cache: ResponseCache
    const cacheTimeout: Int64

    constructor (cache: ResponseCache, cacheTimeout: Int64)
      ensures this.cache == cache && this.cacheTimeout == EffectiveTimeout(cacheTimeout)
    {
      this.cache := cache;
      this.cacheTimeout := if cacheTimeout > 0 then cacheTimeout else DEFAULT_CACHE_TTL;
    }

    /** `putCachedResponse`: `putIfAbsent`, then a conditional `replace` with a newer response. */
    method PutCachedResponse(requestHash: Int32, response: CachableResponse)
      modifies cache
      ensures cache.contents == PutCached(old(cache.contents), requestHash, response)
    {
      var existing := cache.PutIfAbsent(requestHash, response);
      if existing.None? {
        return;
      }
      if response.timeStamp > existing.value.timeStamp {
        var replaced := cache.Replace(requestHash, existing.value, response);
      }
    }

    /**
     * `intercept`: `now` is the clock read by the freshness test, `stamp` the clock read
     * when a new response is wrapped, and `result` the serialized result the underlying
     * call would return.
     */
    method Intercept(signature: string, args: seq<Option<Int32>>, now: Int64, stamp: Int64, result: seq<bv8>)
      returns (response: seq<bv8>, proceeded: bool)
      modifies cache
      ensures var i := Intercepted(old(cache.contents), Fingerprint(signature, args), cacheTimeout, now, stamp, result);
        response == i.response && proceeded == i.proceeded && cache.contents == i.cache
    {
      var requestHash := RequestHash(signature, args);
      var cached := cache.Get(requestHash);
      if cached.Some? && SubLong(now, cached.value.timeStamp) < cacheTimeout {
        response, proceeded := cached.value.data, false;
      } else {
        response, proceeded := result, true;
        PutCachedResponse(requestHash, CachableResponse(stamp, result));
      }
    }
  }

  /** The fingerprint loop of `intercept`, adding one argument hash at a time with wrap-around. */
  method RequestHash(signature: string, args: seq<Option<Int32>>) returns (h: Int32)
    ensures h == Fingerprint(signature, args)
  {
    h := StringHashCode(signature);
    Wrap32Unique(h, h);
    for i := 0 to |args|
      invariant h == Wrap32(StringHashCode(signature) + ArgSum(args[..i]))
    {
      var a := if args[i].Some? then args[i].value else 0;
      assert args[..i + 1][..i] == args[..i];
      Wrap32AddLeft(StringHashCode(signature) + ArgSum(args[..i]), a);
      h := AddInt(h, a);
    }
    assert args[..|args|] == args;
  }

  /* -------------------------------- service -------------------------------- */

  /** The service's state manager: the one supplied in the settings, or the registry's. */
  datatype ManagerRef =
    | Supplied(state: ResponseCache)
    | Registered(manager: DefaultStateManager<Int32, CachableResponse>)
  {
    function State(): ResponseCache
    {
      match this
      case Supplied(s) => s
      case Registered(m) => m.state
    }
  }

  class CloudServersServiceImpl {
    const client: RackspaceCloudClient<CachingInterceptor>
    const settings: seq<Setting>
    const stateManager: ManagerRef

    constructor (client: RackspaceCloudClient<CachingInterceptor>, settings: seq<Setting>, stateManager: ManagerRef)
      ensures this.client == client && this.settings == settings && this.stateManager == stateManager
    {
      this.client := client;
      this.settings := settings;
      this.stateManager := stateManager;
    }
  }

  /**
   * The constructor `CloudServersServiceImpl(accountBase, username, apiKey, settings)`.
   * An unknown setting name aborts it before the registry is consulted. Otherwise the
   * client is App Engine compatible iff that flag is on, an interceptor with the effective
   * timeout over the state manager's map is installed iff caching is on, and the registry
   * supplies the state manager iff the settings do not.
   */
  method NewService(ab: AccountBase, username: string, apiKey: string, settings: seq<Setting>,
                    registry: StateManagerRegistry<Int32, CachableResponse>)
    returns (r: Result<CloudServersServiceImpl, SettingError>)
    requires DistinctNames(settings)
    modifies registry
    ensures r.Err? <==> exists i :: 0 <= i < |settings| && SettingNamed(settings[i].name).None?
    ensures r.Err? || ManagerOf(settings).Some? ==> registry.singletons == old(registry.singletons)
    ensures r.Ok? ==>
      var s := r.value;
      fresh(s) && fresh(s.client) && s.settings == settings &&
      s.client.accountBase == ab && s.client.user == username && s.client.authKey == apiKey &&
      s.client.Creds() == Credentials(None, None, None) && s.client.compressionEnabled &&
      s.client.appEngineCompatible == FlagOn(settings, ClientGaeCompatible)
    ensures r.Ok? ==>
      var s := r.value;
      (ManagerOf(settings).Some? ==> s.stateManager == Supplied(ManagerOf(settings).value)) &&
      (ManagerOf(settings).None? ==>
        var key := RegistryKey(registry.accountHash, ab, username, apiKey);
        key in registry.singletons && s.stateManager == Registered(registry.singletons[key]))
    ensures r.Ok? && ManagerOf(settings).None? ==>
      var key := RegistryKey(registry.accountHash, ab, username, apiKey);
      (key in old(registry.singletons) ==>
        registry.singletons == old(registry.singletons) && r.value.stateManager == Registered(old(registry.singletons)[key])) &&
      (key !in old(registry.singletons) ==>
        fresh(registry.singletons[key]) && registry.singletons == old(registry.singletons)[key := registry.singletons[key]])
    ensures r.Ok? ==>
      var s := r.value;
      (s.client.interceptor.Some? <==> FlagOn(settings, ClientResponseCaching)) &&
      (s.client.interceptor.Some? ==>
        fresh(s.client.interceptor.value) &&
        s.client.interceptor.value.cache == s.stateManager.State() &&
        s.client.interceptor.value.cacheTimeout == EffectiveTimeout(TtlOf(settings)))
  {
    var applied := ApplySettings(settings);
    if applied.Err? {
      return Err(applied.error);
    }
    var a := applied.value;
    var client := new RackspaceCloudClient(ab, username, apiKey);
    if a.gaeCompatible {
      client.SetAppEngineCompatible(true);
    }
    var manager;
    if a.stateManager.Some? {
      manager := Supplied(a.stateManager.value);
    } else {
      var m := registry.GetInstance(ab, username, apiKey);
      manager := Registered(m);
    }
    if a.caching {
      var interceptor := new CachingInterceptor(manager.State(), a.cacheTtl);
      client.SetInterceptor(Some(interceptor));
    }
    var service := new CloudServersServiceImpl(client, settings, manager);
    r := Ok(service);
  }

  /**
   * The registry's promise: two services built for the same account base and credentials,
   * with no state manager supplied, are distinct objects sharing one state manager.
   */
  method SameCredentialsShareManager(ab: AccountBase, username: string, apiKey: string,
                                     registry: StateManagerRegistry<Int32, CachableResponse>)
    returns (first: CloudServersServiceImpl, second: CloudServersServiceImpl)
    modifies registry
    ensures first != second && first.stateManager == second.stateManager
  {
    var r1 := NewService(ab, username, apiKey, [], registry);
    var r2 := NewService(ab, username, apiKey, [], registry);
    first, second := r1.value, r2.value;
  }
}
