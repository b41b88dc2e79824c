/**
 * `CloudServersServiceFactory`: a memoising registry of services keyed by an `int` built
 * from the credentials' and the settings map's hash codes.
 */
module ServiceFactory {
  import opened Wrappers
  import opened JavaLang
  import opened AccountBases
  import opened DefaultStateManagement
  import opened ServiceImpl

  /** `hashCode` of a setting's value; null counts 0. */
  function ValueHash(v: SettingValue): Int32
  {
    match v
    case BoolValue(b) => BooleanHashCode(b)
    case LongValue(x) => LongHashCode(x)
    case StateManagerValue(_, h) => h
    case OtherValue(h) => h
    case NullValue => 0
  }

  /** `Map.Entry.hashCode`: the name's hash XOR the value's hash. */
  function EntryHash(s: Setting): Int32
  {
    XorInt(StringHashCode(s.name), ValueHash(s.value))
  }

  /** The sum of the entry hashes, without wrap-around. */
  function EntrySum(settings: seq<Setting>): int
  {
    if settings == [] then 0 else EntrySum(settings[..|settings| - 1]) + EntryHash(settings[|settings| - 1]) as int
  }

  /** `AbstractMap.hashCode`: the sum of the entry hashes in `int` arithmetic. */
  function SettingsHashCode(settings: seq<Setting>): Int32
  {
    Wrap32(EntrySum(settings))
  }

  lemma {:induction false} EntrySumAppend(a: seq<Setting>, b: seq<Setting>)
    ensures EntrySum(a + b) == EntrySum(a) + EntrySum(b)
    decreases |b|
  {
    if b != [] {
      assert (a + b)[..|a + b| - 1] == a + b[..|b| - 1];
      assert (a + b)[|a + b| - 1] == b[|b| - 1];
      EntrySumAppend(a, b[..|b| - 1]);
    } else {
      assert a + b == a;
    }
  }

  /**
   * The map's hash does not depend on the order its entries are visited in, and the
   * empty map (the three-argument overload's `Collections.EMPTY_MAP`) hashes to 0.
   */
  lemma SettingsHashCodeIgnoresOrder(a: seq<Setting>, b: seq<Setting>)
    ensures SettingsHashCode(a + b) == SettingsHashCode(b + a)
    ensures SettingsHashCode([]) == 0
  {
    EntrySumAppend(a, b);
    EntrySumAppend(b, a);
    assert EntrySum(a + b) == EntrySum(b + a);
    Wrap32Unique(0, 0);
  }

  /**
   * The key as written: `username.hashCode() + apiKey.hashCode() + settings.hashCode()`.
   * The account base is a parameter of `getService` but does not enter the key.
   */
  function ServiceKeyAsWritten(ab: AccountBase, username: string, apiKey: string, settings: seq<Setting>): Int32
  {
    AddInt(AddInt(StringHashCode(username), StringHashCode(apiKey)), SettingsHashCode(settings))
  }

  /**
   * The intended key: the account base's hash added to the key as written, the same
   * way `DefaultStateManager` includes it.
   */
  function ServiceKey(accountHash: AccountHash, ab: AccountBase, username: string, apiKey: string,
                      settings: seq<Setting>): Int32
  {
    AddInt(RegistryKey(accountHash, ab, username, apiKey), SettingsHashCode(settings))
  }

  /**
   * As written, the same credentials and settings on the US and the UK account base give
   * the same key, so the second request gets the service (and client) created for the
   * first account base. With the account base in the key, two account bases with
   * different hashes never share a service.
   */
  lemma ServiceKeySeparatesAccountBases(accountHash: AccountHash, username: string, apiKey: string,
                                        settings: seq<Setting>)
    requires accountHash(US) != accountHash(UK)
    ensures ServiceKeyAsWritten(US, username, apiKey, settings) == ServiceKeyAsWritten(UK, username, apiKey, settings)
    ensures ServiceKey(accountHash, US, username, apiKey, settings) != ServiceKey(accountHash, UK, username, apiKey, settings)
  {
    RegistryKeySeparatesAccountBases(accountHash, username, apiKey);
    AddIntInjective(RegistryKey(accountHash, US, username, apiKey), RegistryKey(accountHash, UK, username, apiKey),
                    SettingsHashCode(settings));
  }

  /** The factory's static `SERVICE_STORE`, with the registry new services draw on. */
  class CloudServersServiceFactory {
    var store: map<Int32, CloudServersServiceImpl>
    const registry: StateManagerRegistry<Int32, CachableResponse>

    constructor (registry: StateManagerRegistry<Int32, CachableResponse>)
      ensures store == map[] && this.registry == registry
    {
      store := map[];
      this.registry := registry;
    }

    /**
     * `getService(accountBase, username, apiKey, settings)`: the stored service on a hit,
     * with nothing constructed; on a miss a new service, stored under the key as written
     * (so a hit may return a service built for another account base). A miss whose
     * construction fails stores nothing.
     */
    method GetService(ab: AccountBase, username: string, apiKey: string, settings: seq<Setting>)
      returns (r: Result<CloudServersServiceImpl, SettingError>)
      requires DistinctNames(settings)
      modifies this, registry
      ensures var key := ServiceKeyAsWritten(ab, username, apiKey, settings);
        key in old(store) ==>
          r == Ok(old(store)[key]) && store == old(store) && registry.singletons == old(registry.singletons)
      ensures var key := ServiceKeyAsWritten(ab, username, apiKey, settings);
        key !in old(store) ==>
          (r.Err? <==> exists i :: 0 <= i < |settings| && SettingNamed(settings[i].name).None?) &&
          (r.Err? ==> store == old(store) && registry.singletons == old(registry.singletons)) &&
          (r.Ok? ==> fresh(r.value) && r.value.settings == settings && r.value.client.accountBase == ab &&
                     store == old(store)[key := r.value])
      ensures var key := ServiceKeyAsWritten(ab, username, apiKey, settings);
        key !in old(store) && r.Ok? ==>
          var rk := RegistryKey(registry.accountHash, ab, username, apiKey);
          (ManagerOf(settings).Some? ==>
            registry.singletons == old(registry.singletons) && r.value.stateManager == Supplied(ManagerOf(settings).value)) &&
          (ManagerOf(settings).None? && rk in old(registry.singletons) ==>
            registry.singletons == old(registry.singletons) && r.value.stateManager == Registered(old(registry.singletons)[rk])) &&
          (ManagerOf(settings).None? && rk !in old(registry.singletons) ==>
            rk in registry.singletons && fresh(registry.singletons[rk]) &&
            registry.singletons == old(registry.singletons)[rk := registry.singletons[rk]] &&
            r.value.stateManager == Registered(registry.singletons[rk]))
      ensures old(store).Keys <= store.Keys
    {
      var key := ServiceKeyAsWritten(ab, username, apiKey, settings);
      if key in store {
        return Ok(store[key]);
      }
      r := NewService(ab, username, apiKey, settings, registry);
      if r.Ok? {
        store := store[key := r.value];
      }
    }

    /** `getService(accountBase, username, apiKey)`: the four-argument form with no settings. */
    method GetDefaultService(ab: AccountBase, username: string, apiKey: string)
      returns (r: Result<CloudServersServiceImpl, SettingError>)
      modifies this, registry
      ensures r.Ok?
      ensures var key := ServiceKeyAsWritten(ab, username, apiKey, []);
        key in old(store) ==>
          r.value == old(store)[key] && store == old(store) && registry.singletons == old(registry.singletons)
      ensures var key := ServiceKeyAsWritten(ab, username, apiKey, []);
        key !in old(store) ==>
          fresh(r.value) && r.value.settings == [] && r.value.client.accountBase == ab &&
          store == old(store)[key := r.value]
      ensures var key := ServiceKeyAsWritten(ab, username, apiKey, []);
        key !in old(store) ==>
          var rk := RegistryKey(registry.accountHash, ab, username, apiKey);
          (rk in old(registry.singletons) ==>
            registry.singletons == old(registry.singletons) && r.value.stateManager == Registered(old(registry.singletons)[rk])) &&
          (rk !in old(registry.singletons) ==>
            rk in registry.singletons && fresh(registry.singletons[rk]) &&
            registry.singletons == old(registry.singletons)[rk := registry.singletons[rk]] &&
            r.value.stateManager == Registered(registry.singletons[rk]))
    {
      r := GetService(ab, username, apiKey, []);
    }
  }

  /**
   * The consequence of the key as written: asking for the UK account base after the US one,
   * with the same credentials and no settings, returns the service built for the US
   * (from a store that holds nothing under that key yet).
   */
  method UkRequestGetsUsService(f: CloudServersServiceFactory, username: string, apiKey: string)
    returns (us: CloudServersServiceImpl, uk: CloudServersServiceImpl)
    requires ServiceKeyAsWritten(US, username, apiKey, []) !in f.store
    modifies f, f.registry
    ensures us == uk && uk.client.accountBase == US
  {
    var r1 := f.GetDefaultService(US, username, apiKey);
    var r2 := f.GetDefaultService(UK, username, apiKey);
    us, uk := r1.value, r2.value;
  }

}
