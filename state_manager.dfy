/**
 * `GAEStateManager`: the two-tier state map. The datastore tier is authoritative and its
 * result is always the answer; the memcache tier is reconciled afterwards, at most once per
 * call and on a best-effort basis. A datastore failure becomes `StateManagementException`;
 * a cache failure is swallowed.
 *
 * Failures come from a fault oracle: the datastore call either fails or not, and cache call
 * number i of an operation (counted from 0, in the order the operation makes them) throws
 * exactly when i is in `cacheFailures`. A call that throws changes nothing, and the rest of
 * the cache reconciliation is skipped, as the enclosing `try` block is left.
 */
module GaeStateManagement {
  import opened Wrappers
  import opened JavaLang
  import DS = DatastoreMap
  import MC = MemcacheMap

  /** The namespace both tiers are bound to: the class's own name. */
  const NAMESPACE: string := "com.pynode.rackspace.service.utils.GAEStateManager"

  /** `IllegalArgumentException` for a null argument, `StateManagementException` for a datastore failure. */
  datatype CoordError = IllegalArgument | StateManagement

  /** Both tiers: the whole datastore and the manager's memcache namespace. */
  datatype Tiers<K, V> = Tiers(store: DS.Store<K, V>, cache: MC.Cache<K, V>)

  /** Which calls of one operation throw a `RuntimeException`. */
  datatype Faults = Faults(datastoreFails: bool, cacheFailures: set<nat>)

  /** No call throws. */
  const NoFaults: Faults := Faults(false, {})

  /** What the datastore tier answers for k. */
  function Stored<K, V>(t: Tiers<K, V>, ns: string, hashCode: K -> Int32, k: K): Option<V>
  {
    DS.Lookup(t.store, ns, hashCode, k)
  }

  /** The cache never holds a live value for k that the datastore does not hold. */
  ghost predicate Coherent<K, V>(t: Tiers<K, V>, ns: string, hashCode: K -> Int32, k: K)
  {
    MC.CachedValue(t.cache, k).Some? ==> MC.CachedValue(t.cache, k) == Stored(t, ns, hashCode, k)
  }

  /* ------------------------------- the operations ------------------------------- */

  /**
   * `putIfAbsent` with the intended reconciliation: the datastore decides; then the cache gets
   * the value too, and is corrected when the datastore held a different value. When the cache
   * was empty it now holds the caller's value, so the correction replaces that value by the
   * datastore's.
   */
  function PutIfAbsentSpec<K, V(==)>(t: Tiers<K, V>, ns: string, hashCode: K -> Int32, key: K, value: V, f: Faults)
    : Step<Result<Option<V>, CoordError>, Tiers<K, V>>
  {
    if f.datastoreFails then Step(Err(StateManagement), t)
    else
      var ds := DS.PutIfAbsentTxn(t.store, DS.EntityKeyOf(ns, hashCode(key)), key, value);
      Step(Ok(ds.result), Tiers(ds.state, ReconcilePutIfAbsent(t.cache, key, value, ds.result, f.cacheFailures, true)))
  }

  /**
   * `putIfAbsent` as the source writes it: when the cache was empty the follow-up is a second
   * `putIfAbsent(key, result)`, which finds the caller's value and does nothing.
   */
  function PutIfAbsentAsWritten<K, V(==)>(t: Tiers<K, V>, ns: string, hashCode: K -> Int32, key: K, value: V, f: Faults)
    : Step<Result<Option<V>, CoordError>, Tiers<K, V>>
  {
    if f.datastoreFails then Step(Err(StateManagement), t)
    else
      var ds := DS.PutIfAbsentTxn(t.store, DS.EntityKeyOf(ns, hashCode(key)), key, value);
      Step(Ok(ds.result), Tiers(ds.state, ReconcilePutIfAbsent(t.cache, key, value, ds.result, f.cacheFailures, false)))
  }

  /** The cache side of `putIfAbsent`; `corrected` selects the follow-up for an empty cache. */
  function ReconcilePutIfAbsent<K, V(==)>(c: MC.Cache<K, V>, key: K, value: V, result: Option<V>, fails: set<nat>, corrected: bool)
    : MC.Cache<K, V>
  {
    if 0 in fails then c
    else
      var m := MC.PutIfAbsentCas(c, key, value);
      var memcached := m.result;
      if result.None? && memcached.Some? then
        (if 1 in fails then m.state else MC.RemoveCas(m.state, key, memcached.value).state)
      else if result.Some? && result != memcached then
        if 1 in fails then m.state
        else if memcached.Some? then MC.ReplaceIfEqualCas(m.state, key, memcached.value, result.value).state
        else if corrected then MC.ReplaceIfEqualCas(m.state, key, value, result.value).state
        else MC.PutIfAbsentCas(m.state, key, result.value).state
      else m.state
  }

  /**
   * `get`: a live cache hit is the answer; otherwise the datastore is read and a value found
   * there is offered to the cache with `putIfAbsent`.
   */
  function GetSpec<K, V>(t: Tiers<K, V>, ns: string, hashCode: K -> Int32, key: K, f: Faults)
    : Step<Result<Option<V>, CoordError>, Tiers<K, V>>
  {
    var hit := if 0 in f.cacheFailures then None else MC.CachedValue(t.cache, key);
    if hit.Some? then Step(Ok(hit), t)
    else if f.datastoreFails then Step(Err(StateManagement), t)
    else
      var result := DS.GetTxn(t.store, DS.EntityKeyOf(ns, hashCode(key)));
      if result.None? || 1 in f.cacheFailures then Step(Ok(result), t)
      else Step(Ok(result), Tiers(t.store, MC.PutIfAbsentCas(t.cache, key, result.value).state))
  }

  /**
   * `replace(key, oldValue, newValue)`: the datastore decides; the cache replace runs
   * regardless, and when only the datastore replaced, the cache is brought to newValue.
   */
  function ReplaceIfEqualSpec<K, V(==)>(t: Tiers<K, V>, ns: string, hashCode: K -> Int32, key: K, oldValue: V, newValue: V, f: Faults)
    : Step<Result<bool, CoordError>, Tiers<K, V>>
  {
    if f.datastoreFails then Step(Err(StateManagement), t)
    else
      var ds := DS.ReplaceIfEqualTxn(t.store, DS.EntityKeyOf(ns, hashCode(key)), key, oldValue, newValue);
      var fails := f.cacheFailures;
      var cache :=
        if 0 in fails then t.cache
        else
          var m := MC.ReplaceIfEqualCas(t.cache, key, oldValue, newValue);
          if m.result || !ds.result || 1 in fails then m.state
          else
            var p := MC.PutIfAbsentCas(m.state, key, newValue);
            if p.result.None? || 2 in fails then p.state
            else MC.ReplaceIfEqualCas(p.state, key, p.result.value, newValue).state;
      Step(Ok(ds.result), Tiers(ds.state, cache))
  }

  /**
   * `replace(key, value)`: the datastore decides; the cache replace runs regardless, and when
   * only the datastore replaced, the value is offered to the cache with `putIfAbsent`.
   */
  function ReplaceSpec<K, V>(t: Tiers<K, V>, ns: string, hashCode: K -> Int32, key: K, value: V, f: Faults)
    : Step<Result<Option<V>, CoordError>, Tiers<K, V>>
  {
    if f.datastoreFails then Step(Err(StateManagement), t)
    else
      var ds := DS.ReplaceTxn(t.store, DS.EntityKeyOf(ns, hashCode(key)), key, value);
      var fails := f.cacheFailures;
      var cache :=
        if 0 in fails then t.cache
        else
          var m := MC.ReplaceCas(t.cache, key, value);
          if ds.result.Some? && m.result.None? && 1 !in fails then MC.PutIfAbsentCas(m.state, key, value).state
          else m.state;
      Step(Ok(ds.result), Tiers(ds.state, cache))
  }

  /**
   * `remove(key, value)`: the datastore decides; the cache remove runs regardless, and when
   * only the datastore removed, whatever live value the cache holds is removed too.
   */
  function RemoveSpec<K, V(==)>(t: Tiers<K, V>, ns: string, hashCode: K -> Int32, key: K, value: V, f: Faults)
    : Step<Result<bool, CoordError>, Tiers<K, V>>
  {
    if f.datastoreFails then Step(Err(StateManagement), t)
    else
      var ds := DS.RemoveTxn(t.store, DS.EntityKeyOf(ns, hashCode(key)), value);
      var fails := f.cacheFailures;
      var cache :=
        if 0 in fails then t.cache
        else
          var m := MC.RemoveCas(t.cache, key, value);
          if m.result || !ds.result || 1 in fails then m.state
          else
            var memcached := MC.CachedValue(m.state, key);
            if memcached.None? || 2 in fails then m.state
            else MC.RemoveCas(m.state, key, memcached.value).state;
      Step(Ok(ds.result), Tiers(ds.state, cache))
  }

  /* -------------------- the datastore is the answer, whatever the cache does -------------------- */

  /**
   * Every mutating operation returns the datastore transaction's result and leaves the
   * datastore as that transaction leaves it, whatever the cache holds and whichever cache
   * calls fail.
   */
  lemma MutationsAnswerFromDatastore<K, V>(t: Tiers<K, V>, ns: string, hashCode: K -> Int32, key: K, v1: V, v2: V, f: Faults)
    requires !f.datastoreFails
    ensures var s := PutIfAbsentAsWritten(t, ns, hashCode, key, v1, f);
      var d := DS.PutIfAbsentTxn(t.store, DS.EntityKeyOf(ns, hashCode(key)), key, v1);
      s.result == Ok(d.result) && s.state.store == d.state
    ensures var s := PutIfAbsentSpec(t, ns, hashCode, key, v1, f);
      var d := DS.PutIfAbsentTxn(t.store, DS.EntityKeyOf(ns, hashCode(key)), key, v1);
      s.result == Ok(d.result) && s.state.store == d.state
    ensures var s := ReplaceIfEqualSpec(t, ns, hashCode, key, v1, v2, f);
      var d := DS.ReplaceIfEqualTxn(t.store, DS.EntityKeyOf(ns, hashCode(key)), key, v1, v2);
      s.result == Ok(d.result) && s.state.store == d.state
    ensures var s := ReplaceSpec(t, ns, hashCode, key, v1, f);
      var d := DS.ReplaceTxn(t.store, DS.EntityKeyOf(ns, hashCode(key)), key, v1);
      s.result == Ok(d.result) && s.state.store == d.state
    ensures var s := RemoveSpec(t, ns, hashCode, key, v1, f);
      var d := DS.RemoveTxn(t.store, DS.EntityKeyOf(ns, hashCode(key)), v1);
      s.result == Ok(d.result) && s.state.store == d.state
  {
  }

  /** A datastore failure raises `StateManagementException` and neither tier changes. */
  lemma DatastoreFailureChangesNothing<K, V>(t: Tiers<K, V>, ns: string, hashCode: K -> Int32, key: K, v1: V, v2: V, f: Faults)
    requires f.datastoreFails
    ensures PutIfAbsentAsWritten(t, ns, hashCode, key, v1, f) == Step(Err(StateManagement), t)
    ensures PutIfAbsentSpec(t, ns, hashCode, key, v1, f) == Step(Err(StateManagement), t)
    ensures ReplaceIfEqualSpec(t, ns, hashCode, key, v1, v2, f) == Step(Err(StateManagement), t)
    ensures ReplaceSpec(t, ns, hashCode, key, v1, f) == Step(Err(StateManagement), t)
    ensures RemoveSpec(t, ns, hashCode, key, v1, f) == Step(Err(StateManagement), t)
    ensures GetSpec(t, ns, hashCode, key, f).state == t
    ensures GetSpec(t, ns, hashCode, key, f).result.Err? <==>
      (0 in f.cacheFailures || MC.CachedValue(t.cache, key).None?)
  {
  }

  /**
   * `get` on a coherent key answers what the datastore holds as long as the datastore is up,
   * whichever cache calls fail, and it never changes the datastore.
   */
  lemma GetAnswersFromDatastore<K, V>(t: Tiers<K, V>, ns: string, hashCode: K -> Int32, key: K, f: Faults)
    requires Coherent(t, ns, hashCode, key) && !f.datastoreFails
    ensures GetSpec(t, ns, hashCode, key, f).result == Ok(Stored(t, ns, hashCode, key))
    ensures GetSpec(t, ns, hashCode, key, f).state.store == t.store
  {
  }

  /** A live cache hit is served without the datastore, even while the datastore is down. */
  lemma GetHitSkipsDatastore<K, V>(t: Tiers<K, V>, ns: string, hashCode: K -> Int32, key: K, f: Faults)
    requires 0 !in f.cacheFailures && MC.CachedValue(t.cache, key).Some?
    ensures GetSpec(t, ns, hashCode, key, f) == Step(Ok(MC.CachedValue(t.cache, key)), t)
  {
  }

  /* ------------------------- healthy calls keep the cache coherent ------------------------- */

  /** After a healthy `putIfAbsent` the key's cache entry agrees with the datastore, from any start. */
  lemma PutIfAbsentMakesCoherent<K, V>(t: Tiers<K, V>, ns: string, hashCode: K -> Int32, key: K, value: V)
    ensures Coherent(PutIfAbsentSpec(t, ns, hashCode, key, value, NoFaults).state, ns, hashCode, key)
  {
    var ek := DS.EntityKeyOf(ns, hashCode(key));
    var m := MC.PutIfAbsentCas(t.cache, key, value);
    MC.PutIfAbsentObserved(t.cache, key, value, key);
    var ds := DS.PutIfAbsentTxn(t.store, ek, key, value);
    if ds.result.None? && m.result.Some? {
      MC.RemoveObserved(m.state, key, m.result.value, key);
    } else if ds.result.Some? && ds.result != m.result {
      if m.result.Some? {
        MC.ReplaceIfEqualObserved(m.state, key, m.result.value, ds.result.value, key);
      } else {
        MC.ReplaceIfEqualObserved(m.state, key, value, ds.result.value, key);
      }
    }
  }

  /** A healthy `get` keeps the key coherent. */
  lemma GetKeepsCoherent<K, V>(t: Tiers<K, V>, ns: string, hashCode: K -> Int32, key: K)
    requires Coherent(t, ns, hashCode, key)
    ensures Coherent(GetSpec(t, ns, hashCode, key, NoFaults).state, ns, hashCode, key)
  {
    var result := DS.GetTxn(t.store, DS.EntityKeyOf(ns, hashCode(key)));
    if MC.CachedValue(t.cache, key).None? && result.Some? {
      MC.PutIfAbsentObserved(t.cache, key, result.value, key);
    }
  }

  /** A healthy `replace(key, oldValue, newValue)` keeps the key coherent. */
  lemma ReplaceIfEqualKeepsCoherent<K, V>(t: Tiers<K, V>, ns: string, hashCode: K -> Int32, key: K, oldValue: V, newValue: V)
    requires Coherent(t, ns, hashCode, key)
    ensures Coherent(ReplaceIfEqualSpec(t, ns, hashCode, key, oldValue, newValue, NoFaults).state, ns, hashCode, key)
  {
    var ds := DS.ReplaceIfEqualTxn(t.store, DS.EntityKeyOf(ns, hashCode(key)), key, oldValue, newValue);
    var m := MC.ReplaceIfEqualCas(t.cache, key, oldValue, newValue);
    MC.ReplaceIfEqualObserved(t.cache, key, oldValue, newValue, key);
    if !m.result && ds.result {
      var p := MC.PutIfAbsentCas(m.state, key, newValue);
      MC.PutIfAbsentObserved(m.state, key, newValue, key);
    }
  }

  /** A healthy `replace(key, value)` keeps the key coherent. */
  lemma ReplaceKeepsCoherent<K, V>(t: Tiers<K, V>, ns: string, hashCode: K -> Int32, key: K, value: V)
    requires Coherent(t, ns, hashCode, key)
    ensures Coherent(ReplaceSpec(t, ns, hashCode, key, value, NoFaults).state, ns, hashCode, key)
  {
    var ds := DS.ReplaceTxn(t.store, DS.EntityKeyOf(ns, hashCode(key)), key, value);
    var m := MC.ReplaceCas(t.cache, key, value);
    MC.ReplaceObserved(t.cache, key, value, key);
    if ds.result.Some? && m.result.None? {
      MC.PutIfAbsentObserved(m.state, key, value, key);
    }
  }

  /** A healthy `remove(key, value)` keeps the key coherent. */
  lemma RemoveKeepsCoherent<K, V>(t: Tiers<K, V>, ns: string, hashCode: K -> Int32, key: K, value: V)
    requires Coherent(t, ns, hashCode, key)
    ensures Coherent(RemoveSpec(t, ns, hashCode, key, value, NoFaults).state, ns, hashCode, key)
  {
    MC.RemoveObserved(t.cache, key, value, key);
  }

  /** An operation on key leaves every key of another hash exactly as coherent as it was. */
  lemma OtherSlotsUntouched<K, V>(t: Tiers<K, V>, ns: string, hashCode: K -> Int32, key: K, v1: V, v2: V, f: Faults, k: K)
    requires hashCode(k) != hashCode(key)
    ensures var s := PutIfAbsentAsWritten(t, ns, hashCode, key, v1, f).state;
      Stored(s, ns, hashCode, k) == Stored(t, ns, hashCode, k) && MC.CachedValue(s.cache, k) == MC.CachedValue(t.cache, k)
    ensures var s := PutIfAbsentSpec(t, ns, hashCode, key, v1, f).state;
      Stored(s, ns, hashCode, k) == Stored(t, ns, hashCode, k) && MC.CachedValue(s.cache, k) == MC.CachedValue(t.cache, k)
    ensures var s := ReplaceIfEqualSpec(t, ns, hashCode, key, v1, v2, f).state;
      Stored(s, ns, hashCode, k) == Stored(t, ns, hashCode, k) && MC.CachedValue(s.cache, k) == MC.CachedValue(t.cache, k)
    ensures var s := ReplaceSpec(t, ns, hashCode, key, v1, f).state;
      Stored(s, ns, hashCode, k) == Stored(t, ns, hashCode, k) && MC.CachedValue(s.cache, k) == MC.CachedValue(t.cache, k)
    ensures var s := RemoveSpec(t, ns, hashCode, key, v1, f).state;
      Stored(s, ns, hashCode, k) == Stored(t, ns, hashCode, k) && MC.CachedValue(s.cache, k) == MC.CachedValue(t.cache, k)
  {
    PutIfAbsentLeavesOtherSlots(t, ns, hashCode, key, v1, f, k);
    ReplaceIfEqualLeavesOtherSlots(t, ns, hashCode, key, v1, v2, f, k);
    ReplaceLeavesOtherSlots(t, ns, hashCode, key, v1, f, k);
    RemoveLeavesOtherSlots(t, ns, hashCode, key, v1, f, k);
  }

  lemma PutIfAbsentLeavesOtherSlots<K, V>(t: Tiers<K, V>, ns: string, hashCode: K -> Int32, key: K, v: V, f: Faults, k: K)
    requires hashCode(k) != hashCode(key)
    ensures var s := PutIfAbsentAsWritten(t, ns, hashCode, key, v, f).state;
      Stored(s, ns, hashCode, k) == Stored(t, ns, hashCode, k) && MC.CachedValue(s.cache, k) == MC.CachedValue(t.cache, k)
    ensures var s := PutIfAbsentSpec(t, ns, hashCode, key, v, f).state;
      Stored(s, ns, hashCode, k) == Stored(t, ns, hashCode, k) && MC.CachedValue(s.cache, k) == MC.CachedValue(t.cache, k)
  {
    DS.PutIfAbsentObserved(t.store, ns, hashCode, key, v, k);
    CacheOpsOnKeyLeaveOtherKeys(t.cache, key, v, v, k);
  }

  lemma ReplaceIfEqualLeavesOtherSlots<K, V>(t: Tiers<K, V>, ns: string, hashCode: K -> Int32, key: K, v1: V, v2: V,
                                             f: Faults, k: K)
    requires hashCode(k) != hashCode(key)
    ensures var s := ReplaceIfEqualSpec(t, ns, hashCode, key, v1, v2, f).state;
      Stored(s, ns, hashCode, k) == Stored(t, ns, hashCode, k) && MC.CachedValue(s.cache, k) == MC.CachedValue(t.cache, k)
  {
    DS.ReplaceIfEqualObserved(t.store, ns, hashCode, key, v1, v2, k);
    CacheOpsOnKeyLeaveOtherKeys(t.cache, key, v1, v2, k);
  }

  lemma ReplaceLeavesOtherSlots<K, V>(t: Tiers<K, V>, ns: string, hashCode: K -> Int32, key: K, v: V, f: Faults, k: K)
    requires hashCode(k) != hashCode(key)
    ensures var s := ReplaceSpec(t, ns, hashCode, key, v, f).state;
      Stored(s, ns, hashCode, k) == Stored(t, ns, hashCode, k) && MC.CachedValue(s.cache, k) == MC.CachedValue(t.cache, k)
  {
    DS.ReplaceObserved(t.store, ns, hashCode, key, v, k);
    CacheOpsOnKeyLeaveOtherKeys(t.cache, key, v, v, k);
  }

  lemma RemoveLeavesOtherSlots<K, V>(t: Tiers<K, V>, ns: string, hashCode: K -> Int32, key: K, v: V, f: Faults, k: K)
    requires hashCode(k) != hashCode(key)
    ensures var s := RemoveSpec(t, ns, hashCode, key, v, f).state;
      Stored(s, ns, hashCode, k) == Stored(t, ns, hashCode, k) && MC.CachedValue(s.cache, k) == MC.CachedValue(t.cache, k)
  {
    DS.RemoveObserved(t.store, ns, hashCode, key, v, k);
    CacheOpsOnKeyLeaveOtherKeys(t.cache, key, v, v, k);
  }

  /** No cache operation on key changes what `get` reads for another key. */
  lemma CacheOpsOnKeyLeaveOtherKeys<K, V>(c: MC.Cache<K, V>, key: K, v1: V, v2: V, k: K)
    requires k != key
    ensures forall v :: MC.CachedValue(MC.PutIfAbsentCas(c, key, v).state, k) == MC.CachedValue(c, k)
    ensures forall a, b :: MC.CachedValue(MC.ReplaceIfEqualCas(c, key, a, b).state, k) == MC.CachedValue(c, k)
    ensures forall v :: MC.CachedValue(MC.ReplaceCas(c, key, v).state, k) == MC.CachedValue(c, k)
    ensures forall v :: MC.CachedValue(MC.RemoveCas(c, key, v).state, k) == MC.CachedValue(c, k)
  {
  }

  /* -------------------------------- witnesses -------------------------------- */

  /**
   * The cache-side `replace` runs before the datastore result is looked at: with the key
   * missing from the datastore but cached, `replace(key, 1, 2)` answers false and still
   * rewrites the cache.
   */
  lemma CacheReplaceRunsUnconditionally()
    ensures var h: int -> Int32 := k => 0;
      var t := Tiers(map[], MC.Cache(map[0 := MC.Item(Some(1), 0)], 1));
      var s := ReplaceIfEqualSpec(t, NAMESPACE, h, 0, 1, 2, NoFaults);
      s.result == Ok(false) && s.state.store == t.store && MC.CachedValue(s.state.cache, 0) == Some(2)
  {
    var h: int -> Int32 := k => 0;
    var t := Tiers(map[], MC.Cache(map[0 := MC.Item(Some(1), 0)], 1));
    MC.ReplaceIfEqualObserved(t.cache, 0, 1, 2, 0);
  }

  /**
   * A swallowed cache failure can leave the cache stale: after `replace(key, 1, 2)` whose
   * cache call throws, the datastore holds 2 while the next healthy `get` answers 1.
   */
  lemma CacheFailureLeavesStaleValue()
    ensures var h: int -> Int32 := k => 0;
      var ek := DS.EntityKeyOf(NAMESPACE, 0);
      var t := Tiers(map[ek := DS.Entry(0, 1)], MC.Cache(map[0 := MC.Item(Some(1), 0)], 1));
      var s := ReplaceIfEqualSpec(t, NAMESPACE, h, 0, 1, 2, Faults(false, {0}));
      && Coherent(t, NAMESPACE, h, 0)
      && s.result == Ok(true)
      && Stored(s.state, NAMESPACE, h, 0) == Some(2)
      && GetSpec(s.state, NAMESPACE, h, 0, NoFaults).result == Ok(Some(1))
  {
  }

  /**
   * Finding, an instance: as written, `putIfAbsent(0, 2)` on a datastore already holding 1 under that key
   * and an empty cache answers 1 but leaves 2 in the cache, so the next `get` answers 2.
   */
  lemma PutIfAbsentAsWrittenCachesCallerValue()
    ensures var h: int -> Int32 := k => 0;
      var ek := DS.EntityKeyOf(NAMESPACE, 0);
      var t := Tiers(map[ek := DS.Entry(0, 1)], MC.Cache(map[], 0));
      var s := PutIfAbsentAsWritten(t, NAMESPACE, h, 0, 2, NoFaults);
      && s.result == Ok(Some(1))
      && Stored(s.state, NAMESPACE, h, 0) == Some(1)
      && GetSpec(s.state, NAMESPACE, h, 0, NoFaults).result == Ok(Some(2))
      && !Coherent(s.state, NAMESPACE, h, 0)
  {
  }

  /**
   * Finding, for every input: as written, when the cache holds no live value and the datastore
   * already holds a value other than the caller's, healthy calls answer the stored value, keep
   * it in the datastore, and leave the caller's value in the cache, so the tiers disagree.
   */
  lemma PutIfAbsentAsWrittenLeavesCallerValue<K, V>(t: Tiers<K, V>, ns: string, hashCode: K -> Int32, key: K, value: V)
    requires MC.CachedValue(t.cache, key).None?
    requires Stored(t, ns, hashCode, key).Some? && Stored(t, ns, hashCode, key) != Some(value)
    ensures var s := PutIfAbsentAsWritten(t, ns, hashCode, key, value, NoFaults);
      && s.result == Ok(Stored(t, ns, hashCode, key))
      && Stored(s.state, ns, hashCode, key) == Stored(t, ns, hashCode, key)
      && MC.CachedValue(s.state.cache, key) == Some(value)
      && !Coherent(s.state, ns, hashCode, key)
  {
    DS.PutIfAbsentObserved(t.store, ns, hashCode, key, value, key);
    var m := MC.PutIfAbsentCas(t.cache, key, value);
    MC.PutIfAbsentObserved(t.cache, key, value, key);
    MC.PutIfAbsentObserved(m.state, key, Stored(t, ns, hashCode, key).value, key);
  }

  /**
   * The written and the intended `putIfAbsent` answer alike and leave the same datastore; their
   * caches can differ only when the cache held no live value and the datastore already held one.
   */
  lemma PutIfAbsentVariantsAgree<K, V>(t: Tiers<K, V>, ns: string, hashCode: K -> Int32, key: K, value: V, f: Faults)
    ensures var w := PutIfAbsentAsWritten(t, ns, hashCode, key, value, f);
      var c := PutIfAbsentSpec(t, ns, hashCode, key, value, f);
      w.result == c.result && w.state.store == c.state.store
    ensures var d := DS.PutIfAbsentTxn(t.store, DS.EntityKeyOf(ns, hashCode(key)), key, value);
      MC.CachedValue(t.cache, key).Some? || d.result.None? ==>
        PutIfAbsentAsWritten(t, ns, hashCode, key, value, f) == PutIfAbsentSpec(t, ns, hashCode, key, value, f)
  {
    MC.PutIfAbsentObserved(t.cache, key, value, key);
  }

  /* ------------------------------- the imperative model ------------------------------- */

  /** `GAEStateManager`: the coordinator over one memcache map and one datastore map. */
  class GAEStateManager<K(==), V(==)> {
    const memcache: MC.MemcacheConcurrentMap<K, V>
    const datastore: DS.DatastoreConcurrentMap<K, V>

    /** Binds both tiers to the manager's own namespace. */
    constructor (cache: MC.MemcacheService<K, V>, store: DS.DatastoreService<K, V>, hashCode: K -> Int32)
      requires cache.namespace == Some(NAMESPACE)
      ensures memcache.memcache == cache && datastore.datastore == store
      ensures datastore.namespace == NAMESPACE && datastore.hashCode == hashCode
    {
      memcache := new MC.MemcacheConcurrentMap(Some(NAMESPACE), cache);
      datastore := new DS.DatastoreConcurrentMap(NAMESPACE, store, hashCode);
    }

    /** Both tiers as they are now. */
    function Snapshot(): Tiers<K, V>
      reads memcache.memcache, datastore.datastore
    {
      Tiers(datastore.datastore.entities, memcache.memcache.State())
    }

    /** `getState`: the manager is its own state map. */
    function GetState(): (r: GAEStateManager<K, V>)
      ensures r == this
    {
      this
    }

    method PutIfAbsent(key: Option<K>, value: Option<V>, faults: Faults) returns (r: Result<Option<V>, CoordError>)
      modifies memcache.memcache, datastore.datastore
      ensures key.None? || value.None? ==> r == Err(IllegalArgument) && Snapshot() == old(Snapshot())
      ensures key.Some? && value.Some? ==>
        Step(r, Snapshot()) == PutIfAbsentAsWritten(old(Snapshot()), datastore.namespace, datastore.hashCode, key.value, value.value, faults)
    {
      if key.None? || value.None? {
        return Err(IllegalArgument);
      }
      if faults.datastoreFails {
        return Err(StateManagement);
      }
      var stored := datastore.PutIfAbsent(key, value);
      var result := stored.value;
      if 0 !in faults.cacheFailures {
        var cached := memcache.PutIfAbsent(key, value);
        var memcached := cached.value;
        if result.None? && memcached.Some? {
          if 1 !in faults.cacheFailures {
            var _ := memcache.Remove(key, memcached);
          }
        } else if result.Some? && result != memcached {
          if 1 !in faults.cacheFailures {
            if memcached.Some? {
              var _ := memcache.ReplaceIfEqual(key, memcached, result);
            } else {
              var _ := memcache.PutIfAbsent(key, result);
            }
          }
        }
      }
      r := Ok(result);
    }

    method Get(key: Option<K>, faults: Faults) returns (r: Result<Option<V>, CoordError>)
      modifies memcache.memcache
      ensures key.None? ==> r == Err(IllegalArgument) && Snapshot() == old(Snapshot())
      ensures key.Some? ==>
        Step(r, Snapshot()) == GetSpec(old(Snapshot()), datastore.namespace, datastore.hashCode, key.value, faults)
    {
      if key.None? {
        return Err(IllegalArgument);
      }
      var result: Option<V> := None;
      if 0 !in faults.cacheFailures {
        var cached := memcache.Get(key);
        result := cached.value;
      }
      if result.None? {
        if faults.datastoreFails {
          return Err(StateManagement);
        }
        var stored := datastore.Get(key);
        result := stored.value;
        if result.Some? && 1 !in faults.cacheFailures {
          var _ := memcache.PutIfAbsent(key, result);
        }
      }
      r := Ok(result);
    }

    method ReplaceIfEqual(key: Option<K>, oldValue: Option<V>, newValue: Option<V>, faults: Faults) returns (r: Result<bool, CoordError>)
      modifies memcache.memcache, datastore.datastore
      ensures key.None? || oldValue.None? || newValue.None? ==> r == Err(IllegalArgument) && Snapshot() == old(Snapshot())
      ensures key.Some? && oldValue.Some? && newValue.Some? ==>
        Step(r, Snapshot()) == ReplaceIfEqualSpec(old(Snapshot()), datastore.namespace, datastore.hashCode,
                                                  key.value, oldValue.value, newValue.value, faults)
    {
      if key.None? || oldValue.None? || newValue.None? {
        return Err(IllegalArgument);
      }
      if faults.datastoreFails {
        return Err(StateManagement);
      }
      var stored := datastore.ReplaceIfEqual(key, oldValue, newValue);
      var result := stored.value;
      if 0 !in faults.cacheFailures {
        var replaced := memcache.ReplaceIfEqual(key, oldValue, newValue);
        if !replaced.value && result && 1 !in faults.cacheFailures {
          var cached := memcache.PutIfAbsent(key, newValue);
          var memcached := cached.value;
          if memcached.Some? && 2 !in faults.cacheFailures {
            var _ := memcache.ReplaceIfEqual(key, memcached, newValue);
          }
        }
      }
      r := Ok(result);
    }

    method Replace(key: Option<K>, value: Option<V>, faults: Faults) returns (r: Result<Option<V>, CoordError>)
      modifies memcache.memcache, datastore.datastore
      ensures key.None? || value.None? ==> r == Err(IllegalArgument) && Snapshot() == old(Snapshot())
      ensures key.Some? && value.Some? ==>
        Step(r, Snapshot()) == ReplaceSpec(old(Snapshot()), datastore.namespace, datastore.hashCode, key.value, value.value, faults)
    {
      if key.None? || value.None? {
        return Err(IllegalArgument);
      }
      if faults.datastoreFails {
        return Err(StateManagement);
      }
      var stored := datastore.Replace(key, value);
      var result := stored.value;
      if 0 !in faults.cacheFailures {
        var cached := memcache.Replace(key, value);
        if result.Some? && cached.value.None? && 1 !in faults.cacheFailures {
          var _ := memcache.PutIfAbsent(key, value);
        }
      }
      r := Ok(result);
    }

    method Remove(key: Option<K>, value: Option<V>, faults: Faults) returns (r: Result<bool, CoordError>)
      modifies memcache.memcache, datastore.datastore
      ensures key.None? || value.None? ==> r == Err(IllegalArgument) && Snapshot() == old(Snapshot())
      ensures key.Some? && value.Some? ==>
        Step(r, Snapshot()) == RemoveSpec(old(Snapshot()), datastore.namespace, datastore.hashCode, key.value, value.value, faults)
    {
      if key.None? || value.None? {
        return Err(IllegalArgument);
      }
      if faults.datastoreFails {
        return Err(StateManagement);
      }
      var stored := datastore.Remove(key, value);
      var result := stored.value;
      if 0 !in faults.cacheFailures {
        var removed := memcache.Remove(key, value);
        if !removed.value && result && 1 !in faults.cacheFailures {
          var cached := memcache.Get(key);
          var memcached := cached.value;
          if memcached.Some? && 2 !in faults.cacheFailures {
            var _ := memcache.Remove(key, memcached);
          }
        }
      }
      r := Ok(result);
    }
  }
}
