/**
 * The cache tier (`MemcacheConcurrentMap`): a concurrent map over a memcache namespace.
 * Every cached item carries a version token that changes on each write; a write after the
 * first add is a compare-and-swap (`putIfUntouched`) with the token read just before.
 * Removal does not delete the key: it stores a null tombstone, and `get` reads that as absent.
 */
module MemcacheMap {
  import opened Wrappers
  import opened JavaLang

  /** A cached item: its value (`None` is the null tombstone) and its version token. */
  datatype Item<V> = Item(value: Option<V>, version: nat)

  /** `IdentifiableValue`: a value read together with the token that identifies that write. */
  datatype Identifiable<V> = Identifiable(value: Option<V>, version: nat)

  /** One memcache namespace: its items and the next version token to hand out. */
  datatype Cache<K, V> = Cache(items: map<K, Item<V>>, clock: nat)

  /** Every token in the cache was handed out before, so a fresh write gets a new one. */
  ghost predicate VersionsFresh<K, V>(c: Cache<K, V>)
  {
    forall k :: k in c.items ==> c.items[k].version < c.clock
  }

  /* ------------------------- the memcache service primitives ------------------------- */

  /** Store o under k with a new version token. */
  function Write<K, V>(c: Cache<K, V>, k: K, o: Option<V>): (r: Cache<K, V>)
    ensures k in r.items && r.items[k].value == o
  {
    Cache(c.items[k := Item(o, c.clock)], c.clock + 1)
  }

  /** `get`: the value, or null for a missing key or a tombstone. */
  function CachedValue<K, V>(c: Cache<K, V>, k: K): Option<V>
  {
    if k in c.items then c.items[k].value else None
  }

  /** `getIdentifiable`: the value with its token, or null for a missing key. */
  function Read<K, V>(c: Cache<K, V>, k: K): Option<Identifiable<V>>
  {
    if k in c.items then Some(Identifiable(c.items[k].value, c.items[k].version)) else None
  }

  /** `put(k, o, null, ADD_ONLY_IF_NOT_PRESENT)`: a tombstoned key counts as present. */
  function AddTxn<K, V>(c: Cache<K, V>, k: K, o: Option<V>): Step<bool, Cache<K, V>>
  {
    if k in c.items then Step(false, c) else Step(true, Write(c, k, o))
  }

  /** `putIfUntouched`: write only if the key still carries the token that was read. */
  function CasTxn<K, V>(c: Cache<K, V>, k: K, token: Option<Identifiable<V>>, o: Option<V>): Step<bool, Cache<K, V>>
  {
    if token.Some? && k in c.items && c.items[k].version == token.value.version
    then Step(true, Write(c, k, o))
    else Step(false, c)
  }

  /** A compare-and-swap with the token just read succeeds exactly when the key exists. */
  lemma CasAfterRead<K, V>(c: Cache<K, V>, k: K, o: Option<V>)
    ensures CasTxn(c, k, Read(c, k), o) == if k in c.items then Step(true, Write(c, k, o)) else Step(false, c)
  {
  }

  /**
   * Any write to a key between reading its token and the compare-and-swap defeats the swap;
   * a write to another key does not.
   */
  lemma InterveningWriteDefeatsCas<K, V>(c: Cache<K, V>, k: K, other: K, o: Option<V>, x: Option<V>)
    requires VersionsFresh(c) && k in c.items
    ensures CasTxn(Write(c, other, o), k, Read(c, k), x).result <==> other != k
  {
  }

  /* -------------------- the map operations as composed service calls -------------------- */

  /**
   * `putIfAbsent`: add when the key was never set; otherwise return a live value, or
   * swap the value in over a tombstone.
   */
  function PutIfAbsentCas<K, V>(c: Cache<K, V>, key: K, value: V): Step<Option<V>, Cache<K, V>>
  {
    var added := if key in c.items then Step(false, c) else AddTxn(c, key, Some(value));
    if added.result then Step(None, added.state)
    else
      var oldValue := Read(added.state, key);
      if oldValue.Some? && oldValue.value.value.Some? then Step(oldValue.value.value, added.state)
      else Step(None, CasTxn(added.state, key, oldValue, Some(value)).state)
  }

  /** `replace(key, oldValue, newValue)`: swap only a live value equal to oldValue. */
  function ReplaceIfEqualCas<K, V(==)>(c: Cache<K, V>, key: K, oldValue: V, newValue: V): Step<bool, Cache<K, V>>
  {
    if key !in c.items then Step(false, c)
    else
      var existing := Read(c, key).value;
      if existing.value.None? || existing.value.value != oldValue then Step(false, c)
      else Step(true, CasTxn(c, key, Some(existing), Some(newValue)).state)
  }

  /** `replace(key, value)`: swap a live value and return it. */
  function ReplaceCas<K, V>(c: Cache<K, V>, key: K, value: V): Step<Option<V>, Cache<K, V>>
  {
    if key !in c.items then Step(None, c)
    else
      var oldValue := Read(c, key).value;
      if oldValue.value.None? then Step(None, c)
      else Step(oldValue.value, CasTxn(c, key, Some(oldValue), Some(value)).state)
  }

  /** `remove(key, value)`: swap in the tombstone unless a different live value is held. */
  function RemoveCas<K, V(==)>(c: Cache<K, V>, key: K, value: V): Step<bool, Cache<K, V>>
  {
    if key !in c.items then Step(false, c)
    else
      var existing := Read(c, key).value;
      if existing.value.Some? && existing.value.value != value then Step(false, c)
      else Step(true, CasTxn(c, key, Some(existing), None).state)
  }

  /* ----------------------- what the map operations mean to `get` ----------------------- */

  /**
   * `putIfAbsent(key, value)` returns what `get(key)` returned before; when that was null
   * (missing key or tombstone) `get(key)` now returns value. No other key changes.
   */
  lemma PutIfAbsentObserved<K, V>(c: Cache<K, V>, key: K, value: V, k: K)
    ensures var step := PutIfAbsentCas(c, key, value);
      && step.result == CachedValue(c, key)
      && CachedValue(step.state, k) == (if k == key && step.result.None? then Some(value) else CachedValue(c, k))
      && (step.result.Some? ==> step.state == c)
  {
    if key in c.items {
      CasAfterRead(c, key, Some(value));
    }
  }

  /**
   * `replace(key, oldValue, newValue)` succeeds exactly when `get(key)` read oldValue; then
   * `get(key)` reads newValue. It never creates a key.
   */
  lemma ReplaceIfEqualObserved<K, V>(c: Cache<K, V>, key: K, oldValue: V, newValue: V, k: K)
    ensures var step := ReplaceIfEqualCas(c, key, oldValue, newValue);
      && step.result == (CachedValue(c, key) == Some(oldValue))
      && CachedValue(step.state, k) == (if k == key && step.result then Some(newValue) else CachedValue(c, k))
      && (!step.result ==> step.state == c)
      && step.state.items.Keys == c.items.Keys
  {
    if key in c.items {
      CasAfterRead(c, key, Some(newValue));
    }
  }

  /**
   * `replace(key, value)` returns what `get(key)` read; when that was a value `get(key)` now
   * reads the new one. A null result means nothing was written.
   */
  lemma ReplaceObserved<K, V>(c: Cache<K, V>, key: K, value: V, k: K)
    ensures var step := ReplaceCas(c, key, value);
      && step.result == CachedValue(c, key)
      && CachedValue(step.state, k) == (if k == key && step.result.Some? then Some(value) else CachedValue(c, k))
      && (step.result.None? ==> step.state == c)
      && step.state.items.Keys == c.items.Keys
  {
    if key in c.items {
      CasAfterRead(c, key, Some(value));
    }
  }

  /**
   * `remove(key, value)` succeeds exactly when the key was set and `get(key)` read value or
   * null (a tombstone); then the key stays present, holding a tombstone, and `get(key)`
   * returns null.
   */
  lemma RemoveObserved<K, V>(c: Cache<K, V>, key: K, value: V, k: K)
    ensures var step := RemoveCas(c, key, value);
      && step.result == (key in c.items && CachedValue(c, key) in {None, Some(value)})
      && CachedValue(step.state, k) == (if k == key && step.result then None else CachedValue(c, k))
      && (step.result ==> key in step.state.items && step.state.items[key].value.None?)
      && (!step.result ==> step.state == c)
      && step.state.items.Keys == c.items.Keys
  {
    if key in c.items {
      CasAfterRead(c, key, None);
    }
  }

  /** Every map operation keeps the version tokens fresh. */
  lemma OperationsKeepVersionsFresh<K, V>(c: Cache<K, V>, key: K, v1: V, v2: V)
    requires VersionsFresh(c)
    ensures VersionsFresh(PutIfAbsentCas(c, key, v1).state)
    ensures VersionsFresh(ReplaceIfEqualCas(c, key, v1, v2).state)
    ensures VersionsFresh(ReplaceCas(c, key, v1).state)
    ensures VersionsFresh(RemoveCas(c, key, v1).state)
  {
    WriteKeepsVersionsFresh(c, key, Some(v1));
    WriteKeepsVersionsFresh(c, key, Some(v2));
    WriteKeepsVersionsFresh(c, key, None);
  }

  /** A write hands out the clock as the new token and advances the clock. */
  lemma WriteKeepsVersionsFresh<K, V>(c: Cache<K, V>, k: K, o: Option<V>)
    requires VersionsFresh(c)
    ensures VersionsFresh(Write(c, k, o))
  {
  }

  /** The hash a Java `hashCode` adds for a nullable string field: 0 for null. */
  function NullableHashCode(o: Option<string>): Int32
  {
    if o.None? then 0 else StringHashCode(o.value)
  }

  /* ------------------------------- the imperative model ------------------------------- */

  /** The memcache service of one namespace. */
  class MemcacheService<K(==), V> {
    const namespace: Option<string>
    var items: map<K, Item<V>>
    var clock: nat

    constructor (namespace: Option<string>)
      ensures this.namespace == namespace && items == map[] && VersionsFresh(State())
    {
      this.namespace := namespace;
      items := map[];
      clock := 0;
    }

    function State(): Cache<K, V>
      reads this
    {
      Cache(items, clock)
    }

    method Contains(k: K) returns (b: bool)
      ensures b == (k in items)
    {
      b := k in items;
    }

    method Get(k: K) returns (o: Option<V>)
      ensures o == CachedValue(State(), k)
    {
      o := if k in items then items[k].value else None;
    }

    method GetIdentifiable(k: K) returns (o: Option<Identifiable<V>>)
      ensures o == Read(State(), k)
    {
      o := if k in items then Some(Identifiable(items[k].value, items[k].version)) else None;
    }

    method AddIfNotPresent(k: K, o: Option<V>) returns (added: bool)
      modifies this
      ensures Step(added, State()) == AddTxn(old(State()), k, o)
    {
      added := k !in items;
      if added {
        items := items[k := Item(o, clock)];
        clock := clock + 1;
      }
    }

    method PutIfUntouched(k: K, token: Option<Identifiable<V>>, o: Option<V>) returns (stored: bool)
      modifies this
      ensures Step(stored, State()) == CasTxn(old(State()), k, token, o)
    {
      stored := token.Some? && k in items && items[k].version == token.value.version;
      if stored {
        items := items[k := Item(o, clock)];
        clock := clock + 1;
      }
    }
  }

  /** `MemcacheConcurrentMap`: the map over one memcache namespace. */
  class MemcacheConcurrentMap<K(==), V(==)> {
    /** The map's own `namespace` field, which the constructor never assigns. */
    const namespace: Option<string> := None
    const memcache: MemcacheService<K, V>

    /** Binds the map to the memcache service of the given namespace. */
    constructor (namespace: Option<string>, memcache: MemcacheService<K, V>)
      requires memcache.namespace == namespace
      ensures this.memcache == memcache
    {
      this.memcache := memcache;
    }

    method PutIfAbsent(key: Option<K>, value: Option<V>) returns (r: Result<Option<V>, MapError>)
      modifies memcache
      ensures key.None? || value.None? ==> r == Err(NullNotSupported) && memcache.State() == old(memcache.State())
      ensures key.Some? && value.Some? ==>
        var step := PutIfAbsentCas(old(memcache.State()), key.value, value.value);
        r == Ok(step.result) && memcache.State() == step.state
    {
      if key.None? || value.None? {
        return Err(NullNotSupported);
      }
      var present := memcache.Contains(key.value);
      if !present {
        var added := memcache.AddIfNotPresent(key.value, value);
        if added {
          return Ok(None);
        }
      }
      var oldValue := memcache.GetIdentifiable(key.value);
      if oldValue.Some? && oldValue.value.value.Some? {
        return Ok(oldValue.value.value);
      }
      var stored := memcache.PutIfUntouched(key.value, oldValue, value);
      r := Ok(None);
    }

    method Get(key: Option<K>) returns (r: Result<Option<V>, MapError>)
      ensures key.None? ==> r == Err(NullNotSupported)
      ensures key.Some? ==> r == Ok(CachedValue(memcache.State(), key.value))
    {
      if key.None? {
        return Err(NullNotSupported);
      }
      var o := memcache.Get(key.value);
      r := Ok(o);
    }

    method ReplaceIfEqual(key: Option<K>, oldValue: Option<V>, newValue: Option<V>) returns (r: Result<bool, MapError>)
      modifies memcache
      ensures key.None? || oldValue.None? || newValue.None? ==>
        r == Err(NullNotSupported) && memcache.State() == old(memcache.State())
      ensures key.Some? && oldValue.Some? && newValue.Some? ==>
        var step := ReplaceIfEqualCas(old(memcache.State()), key.value, oldValue.value, newValue.value);
        r == Ok(step.result) && memcache.State() == step.state
    {
      if key.None? || oldValue.None? || newValue.None? {
        return Err(NullNotSupported);
      }
      var present := memcache.Contains(key.value);
      if !present {
        return Ok(false);
      }
      var existingValue := memcache.GetIdentifiable(key.value);
      var existing := existingValue.value;
      if existing.value.None? || existing.value.value != oldValue.value {
        return Ok(false);
      }
      var stored := memcache.PutIfUntouched(key.value, existingValue, newValue);
      r := Ok(true);
    }

    method Replace(key: Option<K>, value: Option<V>) returns (r: Result<Option<V>, MapError>)
      modifies memcache
      ensures key.None? || value.None? ==> r == Err(NullNotSupported) && memcache.State() == old(memcache.State())
      ensures key.Some? && value.Some? ==>
        var step := ReplaceCas(old(memcache.State()), key.value, value.value);
        r == Ok(step.result) && memcache.State() == step.state
    {
      if key.None? || value.None? {
        return Err(NullNotSupported);
      }
      var present := memcache.Contains(key.value);
      if !present {
        return Ok(None);
      }
      var oldValue := memcache.GetIdentifiable(key.value);
      if oldValue.value.value.None? {
        return Ok(None);
      }
      var stored := memcache.PutIfUntouched(key.value, oldValue, value);
      r := Ok(oldValue.value.value);
    }

    method Remove(key: Option<K>, value: Option<V>) returns (r: Result<bool, MapError>)
      modifies memcache
      ensures key.None? || value.None? ==> r == Err(NullNotSupported) && memcache.State() == old(memcache.State())
      ensures key.Some? && value.Some? ==>
        var step := RemoveCas(old(memcache.State()), key.value, value.value);
        r == Ok(step.result) && memcache.State() == step.state
    {
      if key.None? || value.None? {
        return Err(NullNotSupported);
      }
      var present := memcache.Contains(key.value);
      if !present {
        return Ok(false);
      }
      var existingValue := memcache.GetIdentifiable(key.value);
      var existing := existingValue.value;
      if existing.value.Some? && existing.value.value != value.value {
        return Ok(false);
      }
      var stored := memcache.PutIfUntouched(key.value, existingValue, None);
      r := Ok(true);
    }

    /** `equals`: another map, compared by the (never assigned) namespace field. */
    function Equals(other: MemcacheConcurrentMap?<K, V>): (r: bool)
      ensures r <==> other != null
    {
      other != null && (if namespace.None? then other.namespace.None? else other.namespace == namespace)
    }

    /** `hashCode`: `97 * 7` plus the namespace's hash, or 0 for a null namespace. */
    function HashCode(): (h: Int32)
      ensures h == 679
    {
      AddInt(97 * 7, NullableHashCode(namespace))
    }
  }
}
