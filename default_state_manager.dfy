/**
 * `DefaultStateManager`: a process-wide registry that hands out one in-memory state map
 * per (account base, user name, API key), identified by the `int` sum of their hash codes.
 */
module DefaultStateManagement {
  import opened Wrappers
  import opened JavaLang
  import opened AccountBases

  /** A `ConcurrentHashMap` used by one thread at a time: a map its methods reassign. */
  class ConcurrentHashMap<K(==), V(==)> {
    var contents: map<K, V>

    constructor ()
      ensures contents == map[]
    {
      contents := map[];
    }

    /** `get`: the value stored under k, or null. */
    method Get(k: K) returns (r: Option<V>)
      ensures r.Some? <==> k in contents
      ensures r.Some? ==> r.value == contents[k]
    {
      r := if k in contents then Some(contents[k]) else None;
    }

    /** `putIfAbsent`: stores v only when k is unmapped; returns the previous value or null. */
    method PutIfAbsent(k: K, v: V) returns (r: Option<V>)
      modifies this
      ensures r.Some? <==> k in old(contents)
      ensures r.Some? ==> r.value == old(contents)[k]
      ensures contents == if k in old(contents) then old(contents) else old(contents)[k := v]
    {
      if k in contents {
        r := Some(contents[k]);
      } else {
        r := None;
        contents := contents[k := v];
      }
    }

    /** `replace(k, expected, v)`: stores v only when k currently maps to expected. */
    method Replace(k: K, expected: V, v: V) returns (replaced: bool)
      modifies this
      ensures replaced <==> k in old(contents) && old(contents)[k] == expected
      ensures contents == if replaced then old(contents)[k := v] else old(contents)
    {
      replaced := k in contents && contents[k] == expected;
      if replaced {
        contents := contents[k := v];
      }
    }
  }

  /** A `DefaultStateManager`: nothing but the state map it was created with. */
  class DefaultStateManager<K(==), V(==)> {
    const state: ConcurrentHashMap<K, V>

    /** Private constructor: every manager starts with a fresh, empty map. */
    constructor ()
      ensures fresh(state) && state.contents == map[]
    {
      state := new ConcurrentHashMap();
    }

    /** `getState`: the manager's own map object, the same one on every call. */
    method GetState() returns (r: ConcurrentHashMap<K, V>)
      ensures r == state
    {
      r := state;
    }
  }

  /** The registry key: `accountBase.hashCode() + userName.hashCode() + apiKey.hashCode()`. */
  function RegistryKey(accountHash: AccountHash, ab: AccountBase, user: string, apiKey: string): Int32
  {
    AddInt(AddInt(accountHash(ab), StringHashCode(user)), StringHashCode(apiKey))
  }

  /** Swapping the user name and the API key gives the same key, so the same manager. */
  lemma RegistryKeyIgnoresArgumentOrder(accountHash: AccountHash, ab: AccountBase, user: string, apiKey: string)
    ensures RegistryKey(accountHash, ab, user, apiKey) == RegistryKey(accountHash, ab, apiKey, user)
  {
    var a, u, k := accountHash(ab), StringHashCode(user), StringHashCode(apiKey);
    AddIntAssociative(a, u, k);
    AddIntAssociative(a, k, u);
    assert AddInt(u, k) == AddInt(k, u);
  }

  /** Different user names with colliding hashes share a manager: "Aa" and "BB". */
  lemma RegistryKeyCollision(accountHash: AccountHash, ab: AccountBase, apiKey: string)
    ensures RegistryKey(accountHash, ab, "Aa", apiKey) == RegistryKey(accountHash, ab, "BB", apiKey)
  {
    StringHashCollision();
  }

  /** Account bases with different hashes never share a manager for the same credentials. */
  lemma RegistryKeySeparatesAccountBases(accountHash: AccountHash, user: string, apiKey: string)
    requires accountHash(US) != accountHash(UK)
    ensures RegistryKey(accountHash, US, user, apiKey) != RegistryKey(accountHash, UK, user, apiKey)
  {
    var u, k := StringHashCode(user), StringHashCode(apiKey);
    AddIntInjective(accountHash(US), accountHash(UK), u);
    AddIntInjective(AddInt(accountHash(US), u), AddInt(accountHash(UK), u), k);
  }

  /** The static `singletons` map, made an explicit object. */
  class StateManagerRegistry<K(==), V(==)> {
    const accountHash: AccountHash
    var singletons: map<Int32, DefaultStateManager<K, V>>

    constructor (accountHash: AccountHash)
      ensures this.accountHash == accountHash && singletons == map[]
    {
      this.accountHash := accountHash;
      singletons := map[];
    }

    /**
     * `getInstance`: the manager registered under the key, or a new one registered
     * there. Afterwards the key maps to the returned manager, so a later call with the
     * same key returns the same instance; the registry only grows.
     */
    method GetInstance(ab: AccountBase, user: string, apiKey: string) returns (m: DefaultStateManager<K, V>)
      modifies this
      ensures var key := RegistryKey(accountHash, ab, user, apiKey);
        key in singletons && singletons[key] == m
      ensures var key := RegistryKey(accountHash, ab, user, apiKey);
        key in old(singletons) ==> m == old(singletons)[key] && singletons == old(singletons)
      ensures var key := RegistryKey(accountHash, ab, user, apiKey);
        key !in old(singletons) ==>
          fresh(m) && fresh(m.state) && m.state.contents == map[] && singletons == old(singletons)[key := m]
    {
      var key := RegistryKey(accountHash, ab, user, apiKey);
      if key in singletons {
        m := singletons[key];
      } else {
        m := new DefaultStateManager();
        singletons := singletons[key := m];
      }
    }
  }
}
