/**
 * The durable tier (`DatastoreConcurrentMap`): a concurrent map kept in the datastore,
 * one entity per key hash within the map's namespace. The entity holds the (key, value)
 * pair last written to it. Every operation is one transaction that reads the entity,
 * checks the operation's condition and writes (or deletes) it; in a sequential model a
 * transaction always commits, so it is one atomic step of the store.
 */
module DatastoreMap {
  import opened Wrappers
  import opened JavaLang

  /** The entity kind of every map entry. */
  const ENTITY_KIND: string := "ConcurrentMapEntry"

  /** A datastore key: its namespace, its kind and its name. */
  datatype EntityKey = EntityKey(namespace: string, kind: string, name: string)

  /** The serialized (key, value) pair an entity holds. */
  datatype Entry<K, V> = Entry(key: K, value: V)

  /** The whole datastore: every entity of every namespace. */
  type Store<K, V> = map<EntityKey, Entry<K, V>>

  /** `getEntityKey`: the key named after the map key's hash, in the map's namespace. */
  function EntityKeyOf(namespace: string, keyHash: Int32): EntityKey
  {
    EntityKey(namespace, ENTITY_KIND, IntegerToString(keyHash))
  }

  /** Two map keys share an entity exactly when their namespaces and hashes are the same. */
  lemma EntityKeyInjective(ns1: string, h1: Int32, ns2: string, h2: Int32)
    ensures EntityKeyOf(ns1, h1) == EntityKeyOf(ns2, h2) <==> ns1 == ns2 && h1 == h2
  {
    if EntityKeyOf(ns1, h1) == EntityKeyOf(ns2, h2) {
      IntegerToStringInjective(h1, h2);
    }
  }

  /* ------------------- the transactions, as steps of the store ------------------- */

  /** The entity's value, or `None` when the entity does not exist. */
  function GetTxn<K, V>(s: Store<K, V>, ek: EntityKey): Option<V>
  {
    if ek in s then Some(s[ek].value) else None
  }

  /** `putIfAbsent`: create the entity when it is absent, otherwise return its value. */
  function PutIfAbsentTxn<K, V>(s: Store<K, V>, ek: EntityKey, key: K, value: V): Step<Option<V>, Store<K, V>>
  {
    if ek in s then Step(Some(s[ek].value), s) else Step(None, s[ek := Entry(key, value)])
  }

  /** `replace(key, oldValue, newValue)`: overwrite only an entity whose value equals oldValue. */
  function ReplaceIfEqualTxn<K, V(==)>(s: Store<K, V>, ek: EntityKey, key: K, oldValue: V, newValue: V): Step<bool, Store<K, V>>
  {
    if ek in s && oldValue == s[ek].value then Step(true, s[ek := Entry(key, newValue)]) else Step(false, s)
  }

  /** `replace(key, value)`: overwrite an existing entity and return its previous value. */
  function ReplaceTxn<K, V>(s: Store<K, V>, ek: EntityKey, key: K, value: V): Step<Option<V>, Store<K, V>>
  {
    if ek in s then Step(Some(s[ek].value), s[ek := Entry(key, value)]) else Step(None, s)
  }

  /** `remove(key, value)`: delete only an entity whose value equals value. */
  function RemoveTxn<K, V(==)>(s: Store<K, V>, ek: EntityKey, value: V): Step<bool, Store<K, V>>
  {
    if ek in s && value == s[ek].value then Step(true, s - {ek}) else Step(false, s)
  }

  /* --------------------- what `get` observes after each step --------------------- */

  /** What `get(k)` returns on a map of namespace ns over store s. */
  function Lookup<K, V>(s: Store<K, V>, ns: string, hashCode: K -> Int32, k: K): Option<V>
  {
    GetTxn(s, EntityKeyOf(ns, hashCode(k)))
  }

  /** The entities of every namespace other than ns. */
  function OtherNamespaces<K, V>(s: Store<K, V>, ns: string): Store<K, V>
  {
    map ek | ek in s && ek.namespace != ns :: s[ek]
  }

  /**
   * `putIfAbsent(key, value)` returns what `get(key)` returned before. When that was null
   * every key with key's hash now reads value; every other key reads what it read before.
   */
  lemma PutIfAbsentObserved<K, V>(s: Store<K, V>, ns: string, hashCode: K -> Int32, key: K, value: V, k: K)
    ensures var step := PutIfAbsentTxn(s, EntityKeyOf(ns, hashCode(key)), key, value);
      && step.result == Lookup(s, ns, hashCode, key)
      && Lookup(step.state, ns, hashCode, k)
         == (if hashCode(k) == hashCode(key) && step.result.None? then Some(value) else Lookup(s, ns, hashCode, k))
  {
    EntityKeyInjective(ns, hashCode(k), ns, hashCode(key));
  }

  /**
   * `replace(key, oldValue, newValue)` succeeds exactly when `get(key)` read oldValue; then
   * every key with key's hash reads newValue, and nothing else changes. It never creates.
   */
  lemma ReplaceIfEqualObserved<K, V>(s: Store<K, V>, ns: string, hashCode: K -> Int32, key: K, oldValue: V, newValue: V, k: K)
    ensures var step := ReplaceIfEqualTxn(s, EntityKeyOf(ns, hashCode(key)), key, oldValue, newValue);
      && step.result == (Lookup(s, ns, hashCode, key) == Some(oldValue))
      && Lookup(step.state, ns, hashCode, k)
         == (if hashCode(k) == hashCode(key) && step.result then Some(newValue) else Lookup(s, ns, hashCode, k))
      && (!step.result ==> step.state == s)
  {
    EntityKeyInjective(ns, hashCode(k), ns, hashCode(key));
  }

  /**
   * `replace(key, value)` returns what `get(key)` read; when that was a value every key with
   * key's hash now reads the new value. A null result means nothing was written.
   */
  lemma ReplaceObserved<K, V>(s: Store<K, V>, ns: string, hashCode: K -> Int32, key: K, value: V, k: K)
    ensures var step := ReplaceTxn(s, EntityKeyOf(ns, hashCode(key)), key, value);
      && step.result == Lookup(s, ns, hashCode, key)
      && Lookup(step.state, ns, hashCode, k)
         == (if hashCode(k) == hashCode(key) && step.result.Some? then Some(value) else Lookup(s, ns, hashCode, k))
      && (step.result.None? ==> step.state == s)
  {
    EntityKeyInjective(ns, hashCode(k), ns, hashCode(key));
  }

  /**
   * `remove(key, value)` succeeds exactly when `get(key)` read value; then every key with
   * key's hash reads null, and nothing else changes.
   */
  lemma RemoveObserved<K, V>(s: Store<K, V>, ns: string, hashCode: K -> Int32, key: K, value: V, k: K)
    ensures var step := RemoveTxn(s, EntityKeyOf(ns, hashCode(key)), value);
      && step.result == (Lookup(s, ns, hashCode, key) == Some(value))
      && Lookup(step.state, ns, hashCode, k)
         == (if hashCode(k) == hashCode(key) && step.result then None else Lookup(s, ns, hashCode, k))
      && (!step.result ==> step.state == s)
  {
    EntityKeyInjective(ns, hashCode(k), ns, hashCode(key));
  }

  /** No transaction of a map touches an entity of another namespace. */
  lemma TransactionsStayInNamespace<K, V>(s: Store<K, V>, ns: string, h: Int32, key: K, v1: V, v2: V)
    ensures var ek := EntityKeyOf(ns, h);
      && OtherNamespaces(PutIfAbsentTxn(s, ek, key, v1).state, ns) == OtherNamespaces(s, ns)
      && OtherNamespaces(ReplaceIfEqualTxn(s, ek, key, v1, v2).state, ns) == OtherNamespaces(s, ns)
      && OtherNamespaces(ReplaceTxn(s, ek, key, v1).state, ns) == OtherNamespaces(s, ns)
      && OtherNamespaces(RemoveTxn(s, ek, v1).state, ns) == OtherNamespaces(s, ns)
  {
  }

  /* ------------------------------ the imperative model ------------------------------ */

  /** The datastore service shared by every map: one entity per key. */
  class DatastoreService<K(==), V(==)> {
    var entities: Store<K, V>

    constructor ()
      ensures entities == map[]
    {
      entities := map[];
    }

    /** `datastore.get`: the entity, or `None` for `EntityNotFoundException`. */
    method Get(ek: EntityKey) returns (e: Option<Entry<K, V>>)
      ensures e == if ek in entities then Some(entities[ek]) else None
    {
      e := if ek in entities then Some(entities[ek]) else None;
    }

    /** `datastore.put`: write (create or overwrite) one entity. */
    method Put(ek: EntityKey, e: Entry<K, V>)
      modifies this
      ensures entities == old(entities)[ek := e]
    {
      entities := entities[ek := e];
    }

    /** `datastore.delete`: remove one entity. */
    method Delete(ek: EntityKey)
      modifies this
      ensures entities == old(entities) - {ek}
    {
      entities := entities - {ek};
    }
  }

  /** `DatastoreConcurrentMap`: a map of one namespace over the shared datastore. */
  class DatastoreConcurrentMap<K(==), V(==)> {
    const datastore: DatastoreService<K, V>
    const namespace: string
    /** The map keys' `hashCode`. */
    const hashCode: K -> Int32

    constructor (namespace: string, datastore: DatastoreService<K, V>, hashCode: K -> Int32)
      ensures this.namespace == namespace && this.datastore == datastore && this.hashCode == hashCode
    {
      this.namespace := namespace;
      this.datastore := datastore;
      this.hashCode := hashCode;
    }

    /** `getEntityKey(key.hashCode())`. */
    function Slot(key: K): EntityKey
    {
      EntityKeyOf(namespace, hashCode(key))
    }

    method PutIfAbsent(key: Option<K>, value: Option<V>) returns (r: Result<Option<V>, MapError>)
      modifies datastore
      ensures key.None? || value.None? ==> r == Err(NullNotSupported) && datastore.entities == old(datastore.entities)
      ensures key.Some? && value.Some? ==>
        var step := PutIfAbsentTxn(old(datastore.entities), Slot(key.value), key.value, value.value);
        r == Ok(step.result) && datastore.entities == step.state
    {
      if key.None? || value.None? {
        return Err(NullNotSupported);
      }
      var entityKey := Slot(key.value);
      var entry := datastore.Get(entityKey);
      if entry.Some? {
        r := Ok(Some(entry.value.value));
      } else {
        datastore.Put(entityKey, Entry(key.value, value.value));
        r := Ok(None);
      }
    }

    method Get(key: Option<K>) returns (r: Result<Option<V>, MapError>)
      ensures key.None? ==> r == Err(NullNotSupported)
      ensures key.Some? ==> r == Ok(GetTxn(datastore.entities, Slot(key.value)))
    {
      if key.None? {
        return Err(NullNotSupported);
      }
      var entry := datastore.Get(Slot(key.value));
      r := Ok(if entry.Some? then Some(entry.value.value) else None);
    }

    method ReplaceIfEqual(key: Option<K>, oldValue: Option<V>, newValue: Option<V>) returns (r: Result<bool, MapError>)
      modifies datastore
      ensures key.None? || oldValue.None? || newValue.None? ==>
        r == Err(NullNotSupported) && datastore.entities == old(datastore.entities)
      ensures key.Some? && oldValue.Some? && newValue.Some? ==>
        var step := ReplaceIfEqualTxn(old(datastore.entities), Slot(key.value), key.value, oldValue.value, newValue.value);
        r == Ok(step.result) && datastore.entities == step.state
    {
      if key.None? || oldValue.None? || newValue.None? {
        return Err(NullNotSupported);
      }
      var entityKey := Slot(key.value);
      var entry := datastore.Get(entityKey);
      var existingValue: Option<V> := None;
      if entry.Some? {
        existingValue := Some(entry.value.value);
        if oldValue.value == existingValue.value {
          datastore.Put(entityKey, Entry(key.value, newValue.value));
        } else {
          existingValue := None;
        }
      }
      r := Ok(existingValue.Some?);
    }

    method Replace(key: Option<K>, value: Option<V>) returns (r: Result<Option<V>, MapError>)
      modifies datastore
      ensures key.None? || value.None? ==> r == Err(NullNotSupported) && datastore.entities == old(datastore.entities)
      ensures key.Some? && value.Some? ==>
        var step := ReplaceTxn(old(datastore.entities), Slot(key.value), key.value, value.value);
        r == Ok(step.result) && datastore.entities == step.state
    {
      if key.None? || value.None? {
        return Err(NullNotSupported);
      }
      var entityKey := Slot(key.value);
      var entry := datastore.Get(entityKey);
      if entry.Some? {
        datastore.Put(entityKey, Entry(key.value, value.value));
        r := Ok(Some(entry.value.value));
      } else {
        r := Ok(None);
      }
    }

    method Remove(key: Option<K>, value: Option<V>) returns (r: Result<bool, MapError>)
      modifies datastore
      ensures key.None? || value.None? ==> r == Err(NullNotSupported) && datastore.entities == old(datastore.entities)
      ensures key.Some? && value.Some? ==>
        var step := RemoveTxn(old(datastore.entities), Slot(key.value), value.value);
        r == Ok(step.result) && datastore.entities == step.state
    {
      if key.None? || value.None? {
        return Err(NullNotSupported);
      }
      var entityKey := Slot(key.value);
      var entry := datastore.Get(entityKey);
      var existingValue: Option<V> := None;
      if entry.Some? {
        existingValue := Some(entry.value.value);
        if value.value == existingValue.value {
          datastore.Delete(entityKey);
        } else {
          existingValue := None;
        }
      }
      r := Ok(existingValue.Some?);
    }
  }
}
