/**
 * The scripted map exercise of the concurrent-map tests: ten conditional operations on
 * `Integer` keys 0 (the key) and 1 (a key never set), with two distinct work items. The
 * same script must give the same ten answers on the datastore map, on the memcache map
 * and on the two-tier state manager, and it must be repeatable: each run leaves the map
 * ready for the next.
 */
module ConcurrentMapScript {
  import opened Wrappers
  import opened JavaLang
  import DS = DatastoreMap
  import MC = MemcacheMap
  import SM = GaeStateManagement

  /** One conditional map operation. */
  datatype Op<K, V> =
    | PutIfAbsent(key: K, value: V)
    | ReplaceIfEqual(key: K, oldValue: V, newValue: V)
    | Replace(key: K, value: V)
    | Remove(key: K, value: V)

  /** What an operation answered: a value or null, or a flag. */
  datatype Outcome<V> = Value(value: Option<V>) | Flag(flag: bool)

  /** `Integer.hashCode` is the integer itself. */
  function IntegerHash(k: Int32): Int32
  {
    k
  }

  /** The script: put twice, three conditional replaces, two replaces, three removes. */
  function TestScript<V>(item: V, newItem: V): seq<Op<Int32, V>>
  {
    [ PutIfAbsent(0, item), PutIfAbsent(0, item),
      ReplaceIfEqual(1, item, newItem), ReplaceIfEqual(0, newItem, newItem), ReplaceIfEqual(0, item, newItem),
      Replace(1, item), Replace(0, item),
      Remove(1, item), Remove(0, newItem), Remove(0, item) ]
  }

  /** The answers the test asserts, in order. */
  function Expected<V>(item: V, newItem: V): seq<Outcome<V>>
  {
    [ Value(None), Value(Some(item)),
      Flag(false), Flag(false), Flag(true),
      Value(None), Value(Some(newItem)),
      Flag(false), Flag(false), Flag(true) ]
  }

  /** A suffix of the answers is its first answer followed by the next suffix. */
  lemma SliceCons<V>(ex: seq<Outcome<V>>, i: nat)
    requires i < |ex|
    ensures ex[i..] == [ex[i]] + ex[i + 1..]
  {
  }

  /* ------------------------------- the datastore map ------------------------------- */

  function ApplyStore<V(==)>(s: DS.Store<Int32, V>, ns: string, op: Op<Int32, V>): Step<Outcome<V>, DS.Store<Int32, V>>
  {
    var ek := DS.EntityKeyOf(ns, IntegerHash(op.key));
    match op
    case PutIfAbsent(k, v) => var r := DS.PutIfAbsentTxn(s, ek, k, v); Step(Value(r.result), r.state)
    case ReplaceIfEqual(k, o, n) => var r := DS.ReplaceIfEqualTxn(s, ek, k, o, n); Step(Flag(r.result), r.state)
    case Replace(k, v) => var r := DS.ReplaceTxn(s, ek, k, v); Step(Value(r.result), r.state)
    case Remove(_, v) => var r := DS.RemoveTxn(s, ek, v); Step(Flag(r.result), r.state)
  }

  function RunStore<V(==)>(s: DS.Store<Int32, V>, ns: string, ops: seq<Op<Int32, V>>): Step<seq<Outcome<V>>, DS.Store<Int32, V>>
    decreases |ops|
  {
    if |ops| == 0 then Step([], s)
    else
      var first := ApplyStore(s, ns, ops[0]);
      var rest := RunStore(first.state, ns, ops[1..]);
      Step([first.result] + rest.result, rest.state)
  }

  /** Neither key has an entity in the map's namespace. */
  ghost predicate StoreReady<V>(s: DS.Store<Int32, V>, ns: string)
  {
    DS.EntityKeyOf(ns, 0) !in s && DS.EntityKeyOf(ns, 1) !in s
  }

  /** The three removes, from the entity holding item: false, false, then true, deleting it. */
  lemma StoreScriptRemoves<V>(s: DS.Store<Int32, V>, ns: string, item: V, newItem: V)
    requires item != newItem && StoreReady(s, ns)
    ensures RunStore(s[DS.EntityKeyOf(ns, 0) := DS.Entry(0, item)], ns, TestScript(item, newItem)[7..]) == Step(Expected(item, newItem)[7..], s)
  {
    var ops := TestScript(item, newItem);
    var ex := Expected(item, newItem);
    var e0 := DS.EntityKeyOf(ns, 0);
    var holdsItem := s[e0 := DS.Entry(0, item)];
    var holdsNew := s[e0 := DS.Entry(0, newItem)];
    assert holdsItem - {e0} == s;
    assert |ops| == 10 && ops[10..] == [] && ex[10..] == [];
    assert RunStore(holdsItem, ns, ops[9..]) == Step(ex[9..], s) by {
      assert ApplyStore(holdsItem, ns, ops[9]) == Step(ex[9], s);
      StoreStep(holdsItem, ns, ops, 9);
      SliceCons(ex, 9);
    }
    assert RunStore(holdsItem, ns, ops[8..]) == Step(ex[8..], s) by {
      assert ApplyStore(holdsItem, ns, ops[8]) == Step(ex[8], holdsItem);
      StoreStep(holdsItem, ns, ops, 8);
      SliceCons(ex, 8);
    }
    assert RunStore(holdsItem, ns, ops[7..]) == Step(ex[7..], s) by {
      assert ApplyStore(holdsItem, ns, ops[7]) == Step(ex[7], holdsItem);
      StoreStep(holdsItem, ns, ops, 7);
      SliceCons(ex, 7);
    }
  }

  /** The five replaces, from the entity holding item: false, false, true, null, then newItem. */
  lemma StoreScriptReplaces<V>(s: DS.Store<Int32, V>, ns: string, item: V, newItem: V)
    requires item != newItem && StoreReady(s, ns)
    ensures RunStore(s[DS.EntityKeyOf(ns, 0) := DS.Entry(0, item)], ns, TestScript(item, newItem)[2..]) == Step(Expected(item, newItem)[2..], s)
  {
    var ops := TestScript(item, newItem);
    var ex := Expected(item, newItem);
    var e0 := DS.EntityKeyOf(ns, 0);
    var holdsItem := s[e0 := DS.Entry(0, item)];
    var holdsNew := s[e0 := DS.Entry(0, newItem)];
    DS.EntityKeyInjective(ns, 0, ns, 1);
    assert holdsNew[e0 := DS.Entry(0, item)] == holdsItem;
    assert holdsItem[e0 := DS.Entry(0, newItem)] == holdsNew;
    StoreScriptRemoves(s, ns, item, newItem);
    assert RunStore(holdsNew, ns, ops[6..]) == Step(ex[6..], s) by {
      assert ApplyStore(holdsNew, ns, ops[6]) == Step(ex[6], holdsItem);
      StoreStep(holdsNew, ns, ops, 6);
      SliceCons(ex, 6);
    }
    assert RunStore(holdsNew, ns, ops[5..]) == Step(ex[5..], s) by {
      assert ApplyStore(holdsNew, ns, ops[5]) == Step(ex[5], holdsNew);
      StoreStep(holdsNew, ns, ops, 5);
      SliceCons(ex, 5);
    }
    assert RunStore(holdsItem, ns, ops[4..]) == Step(ex[4..], s) by {
      assert ApplyStore(holdsItem, ns, ops[4]) == Step(ex[4], holdsNew);
      StoreStep(holdsItem, ns, ops, 4);
      SliceCons(ex, 4);
    }
    assert RunStore(holdsItem, ns, ops[3..]) == Step(ex[3..], s) by {
      assert ApplyStore(holdsItem, ns, ops[3]) == Step(ex[3], holdsItem);
      StoreStep(holdsItem, ns, ops, 3);
      SliceCons(ex, 3);
    }
    assert RunStore(holdsItem, ns, ops[2..]) == Step(ex[2..], s) by {
      assert ApplyStore(holdsItem, ns, ops[2]) == Step(ex[2], holdsItem);
      StoreStep(holdsItem, ns, ops, 2);
      SliceCons(ex, 2);
    }
  }

  /** On the datastore map the script answers as the test expects and restores the store exactly. */
  lemma StoreScript<V>(s: DS.Store<Int32, V>, ns: string, item: V, newItem: V)
    requires item != newItem && StoreReady(s, ns)
    ensures RunStore(s, ns, TestScript(item, newItem)) == Step(Expected(item, newItem), s)
  {
    var ops := TestScript(item, newItem);
    var ex := Expected(item, newItem);
    var e0 := DS.EntityKeyOf(ns, 0);
    var holdsItem := s[e0 := DS.Entry(0, item)];
    var holdsNew := s[e0 := DS.Entry(0, newItem)];
    StoreScriptReplaces(s, ns, item, newItem);
    assert RunStore(holdsItem, ns, ops[1..]) == Step(ex[1..], s) by {
      assert ApplyStore(holdsItem, ns, ops[1]) == Step(ex[1], holdsItem);
      StoreStep(holdsItem, ns, ops, 1);
      SliceCons(ex, 1);
    }
    assert RunStore(s, ns, ops[0..]) == Step(ex[0..], s) by {
      assert ApplyStore(s, ns, ops[0]) == Step(ex[0], holdsItem);
      StoreStep(s, ns, ops, 0);
      SliceCons(ex, 0);
    }
    assert ops[0..] == ops && ex[0..] == ex;
  }

  /** Running a suffix of a script is running its first operation, then the rest. */
  lemma StoreStep<V>(s: DS.Store<Int32, V>, ns: string, ops: seq<Op<Int32, V>>, i: nat)
    requires i < |ops|
    ensures var first := ApplyStore(s, ns, ops[i]);
      var rest := RunStore(first.state, ns, ops[i + 1..]);
      RunStore(s, ns, ops[i..]) == Step([first.result] + rest.result, rest.state)
  {
    assert ops[i..][0] == ops[i];
    assert ops[i..][1..] == ops[i + 1..];
  }

  /* -------------------------------- the memcache map -------------------------------- */

  function ApplyCache<V(==)>(c: MC.Cache<Int32, V>, op: Op<Int32, V>): Step<Outcome<V>, MC.Cache<Int32, V>>
  {
    match op
    case PutIfAbsent(k, v) => var r := MC.PutIfAbsentCas(c, k, v); Step(Value(r.result), r.state)
    case ReplaceIfEqual(k, o, n) => var r := MC.ReplaceIfEqualCas(c, k, o, n); Step(Flag(r.result), r.state)
    case Replace(k, v) => var r := MC.ReplaceCas(c, k, v); Step(Value(r.result), r.state)
    case Remove(k, v) => var r := MC.RemoveCas(c, k, v); Step(Flag(r.result), r.state)
  }

  function RunCache<V(==)>(c: MC.Cache<Int32, V>, ops: seq<Op<Int32, V>>): Step<seq<Outcome<V>>, MC.Cache<Int32, V>>
    decreases |ops|
  {
    if |ops| == 0 then Step([], c)
    else
      var first := ApplyCache(c, ops[0]);
      var rest := RunCache(first.state, ops[1..]);
      Step([first.result] + rest.result, rest.state)
  }

  /** Key 0 reads null (missing or tombstoned) and key 1 was never set. */
  ghost predicate CacheReady<V>(c: MC.Cache<Int32, V>)
  {
    MC.CachedValue(c, 0) == None && 1 !in c.items
  }

  /** Running a suffix of a script is running its first operation, then the rest. */
  lemma CacheStep<V>(c: MC.Cache<Int32, V>, ops: seq<Op<Int32, V>>, i: nat)
    requires i < |ops|
    ensures var first := ApplyCache(c, ops[i]);
      var rest := RunCache(first.state, ops[i + 1..]);
      RunCache(c, ops[i..]) == Step([first.result] + rest.result, rest.state)
  {
    assert ops[i..][0] == ops[i];
    assert ops[i..][1..] == ops[i + 1..];
  }

  /** The three removes, with key 0 holding item: false, false, then true, tombstoning it. */
  lemma CacheScriptRemoves<V>(c: MC.Cache<Int32, V>, item: V, newItem: V)
    requires item != newItem && MC.CachedValue(c, 0) == Some(item) && 1 !in c.items
    ensures var run := RunCache(c, TestScript(item, newItem)[7..]);
      run.result == Expected(item, newItem)[7..] && CacheReady(run.state)
  {
    var ops := TestScript(item, newItem);
    var ex := Expected(item, newItem);
    var fin := MC.RemoveCas(c, 0, item).state;
    MC.RemoveObserved(c, 0, item, 0);
    assert CacheReady(fin);
    assert |ops| == 10 && ops[10..] == [] && ex[10..] == [];
    assert RunCache(c, ops[9..]) == Step(ex[9..], fin) by {
      CacheStep(c, ops, 9);
      SliceCons(ex, 9);
    }
    assert RunCache(c, ops[8..]) == Step(ex[8..], fin) by {
      MC.RemoveObserved(c, 0, newItem, 0);
      CacheStep(c, ops, 8);
      SliceCons(ex, 8);
    }
    assert RunCache(c, ops[7..]) == Step(ex[7..], fin) by {
      MC.RemoveObserved(c, 1, item, 1);
      CacheStep(c, ops, 7);
      SliceCons(ex, 7);
    }
  }

  /** The two value replaces, with key 0 holding newItem: null, then newItem. */
  lemma CacheScriptValueReplaces<V>(d: MC.Cache<Int32, V>, item: V, newItem: V)
    requires item != newItem && MC.CachedValue(d, 0) == Some(newItem) && 1 !in d.items
    ensures var run := RunCache(d, TestScript(item, newItem)[5..]);
      run.result == Expected(item, newItem)[5..] && CacheReady(run.state)
  {
    var ops := TestScript(item, newItem);
    var ex := Expected(item, newItem);
    var e := MC.ReplaceCas(d, 0, item).state;
    MC.ReplaceObserved(d, 0, item, 0);
    CacheScriptRemoves(e, item, newItem);
    var fin := RunCache(e, ops[7..]).state;
    assert RunCache(d, ops[6..]) == Step(ex[6..], fin) by {
      CacheStep(d, ops, 6);
      SliceCons(ex, 6);
    }
    assert RunCache(d, ops[5..]) == Step(ex[5..], fin) by {
      MC.ReplaceObserved(d, 1, item, 1);
      CacheStep(d, ops, 5);
      SliceCons(ex, 5);
    }
  }

  /** The five replaces, with key 0 holding item: false, false, true, null, then newItem. */
  lemma CacheScriptReplaces<V>(c: MC.Cache<Int32, V>, item: V, newItem: V)
    requires item != newItem && MC.CachedValue(c, 0) == Some(item) && 1 !in c.items
    ensures var run := RunCache(c, TestScript(item, newItem)[2..]);
      run.result == Expected(item, newItem)[2..] && CacheReady(run.state)
  {
    var ops := TestScript(item, newItem);
    var ex := Expected(item, newItem);
    var d := MC.ReplaceIfEqualCas(c, 0, item, newItem).state;
    MC.ReplaceIfEqualObserved(c, 0, item, newItem, 0);
    CacheScriptValueReplaces(d, item, newItem);
    var fin := RunCache(d, ops[5..]).state;
    assert RunCache(c, ops[4..]) == Step(ex[4..], fin) by {
      CacheStep(c, ops, 4);
      SliceCons(ex, 4);
    }
    assert RunCache(c, ops[3..]) == Step(ex[3..], fin) by {
      MC.ReplaceIfEqualObserved(c, 0, newItem, newItem, 0);
      CacheStep(c, ops, 3);
      SliceCons(ex, 3);
    }
    assert RunCache(c, ops[2..]) == Step(ex[2..], fin) by {
      MC.ReplaceIfEqualObserved(c, 1, item, newItem, 1);
      CacheStep(c, ops, 2);
      SliceCons(ex, 2);
    }
  }

  /**
   * On the memcache map the script answers as the test expects and leaves key 0 tombstoned,
   * which is again a ready state. Key 1 must never have been set: `remove` on a tombstone
   * answers true.
   */
  lemma CacheScript<V>(c: MC.Cache<Int32, V>, item: V, newItem: V)
    requires item != newItem && CacheReady(c)
    ensures RunCache(c, TestScript(item, newItem)).result == Expected(item, newItem)
    ensures CacheReady(RunCache(c, TestScript(item, newItem)).state)
  {
    var ops := TestScript(item, newItem);
    var ex := Expected(item, newItem);
    var c1 := MC.PutIfAbsentCas(c, 0, item).state;
    MC.PutIfAbsentObserved(c, 0, item, 0);
    MC.PutIfAbsentObserved(c, 0, item, 1);
    assert 1 !in c1.items by {
      if 0 in c.items {
        MC.CasAfterRead(c, 0, Some(item));
      }
    }
    CacheScriptReplaces(c1, item, newItem);
    var fin := RunCache(c1, ops[2..]).state;
    assert RunCache(c1, ops[1..]) == Step(ex[1..], fin) by {
      MC.PutIfAbsentObserved(c1, 0, item, 0);
      CacheStep(c1, ops, 1);
      SliceCons(ex, 1);
    }
    assert RunCache(c, ops[0..]) == Step(ex[0..], fin) by {
      CacheStep(c, ops, 0);
      SliceCons(ex, 0);
    }
    assert ops[0..] == ops && ex[0..] == ex;
  }

  /* ----------------------------- the two-tier state manager ----------------------------- */

  function ApplyTiers<V(==)>(t: SM.Tiers<Int32, V>, ns: string, op: Op<Int32, V>): Step<Outcome<V>, SM.Tiers<Int32, V>>
  {
    match op
    case PutIfAbsent(k, v) =>
      var r := SM.PutIfAbsentAsWritten(t, ns, IntegerHash, k, v, SM.NoFaults); Step(Value(r.result.value), r.state)
    case ReplaceIfEqual(k, o, n) =>
      var r := SM.ReplaceIfEqualSpec(t, ns, IntegerHash, k, o, n, SM.NoFaults); Step(Flag(r.result.value), r.state)
    case Replace(k, v) =>
      var r := SM.ReplaceSpec(t, ns, IntegerHash, k, v, SM.NoFaults); Step(Value(r.result.value), r.state)
    case Remove(k, v) =>
      var r := SM.RemoveSpec(t, ns, IntegerHash, k, v, SM.NoFaults); Step(Flag(r.result.value), r.state)
  }

  function RunTiers<V(==)>(t: SM.Tiers<Int32, V>, ns: string, ops: seq<Op<Int32, V>>): Step<seq<Outcome<V>>, SM.Tiers<Int32, V>>
    decreases |ops|
  {
    if |ops| == 0 then Step([], t)
    else
      var first := ApplyTiers(t, ns, ops[0]);
      var rest := RunTiers(first.state, ns, ops[1..]);
      Step([first.result] + rest.result, rest.state)
  }

  /** Running a suffix of a script is running its first operation, then the rest. */
  lemma TiersStep<V>(t: SM.Tiers<Int32, V>, ns: string, ops: seq<Op<Int32, V>>, i: nat)
    requires i < |ops|
    ensures var first := ApplyTiers(t, ns, ops[i]);
      var rest := RunTiers(first.state, ns, ops[i + 1..]);
      RunTiers(t, ns, ops[i..]) == Step([first.result] + rest.result, rest.state)
  {
    assert ops[i..][0] == ops[i];
    assert ops[i..][1..] == ops[i + 1..];
  }

  /** Key 0 holds x in both tiers, over a datastore that otherwise is s, and key 1 is in neither. */
  ghost predicate TiersHold<V>(t: SM.Tiers<Int32, V>, s: DS.Store<Int32, V>, ns: string, x: V)
  {
    && StoreReady(s, ns)
    && t.store == s[DS.EntityKeyOf(ns, 0) := DS.Entry(0, x)]
    && MC.CachedValue(t.cache, 0) == Some(x) && 1 !in t.cache.items
  }

  /** The three removes through the manager: false, false, then true, deleting the entity. */
  lemma TiersScriptRemoves<V>(t: SM.Tiers<Int32, V>, s: DS.Store<Int32, V>, ns: string, item: V, newItem: V)
    requires item != newItem && TiersHold(t, s, ns, item)
    ensures var run := RunTiers(t, ns, TestScript(item, newItem)[7..]);
      run.result == Expected(item, newItem)[7..] && run.state.store == s && CacheReady(run.state.cache)
  {
    DS.EntityKeyInjective(ns, 0, ns, 1);
    var ops := TestScript(item, newItem);
    var ex := Expected(item, newItem);
    var e0 := DS.EntityKeyOf(ns, 0);
    var c := t.cache;
    MC.RemoveObserved(c, 0, item, 0);
    var fin := SM.Tiers(s, MC.RemoveCas(c, 0, item).state);
    assert t.store - {e0} == s;
    assert CacheReady(fin.cache);
    assert |ops| == 10 && ops[10..] == [] && ex[10..] == [];
    assert RunTiers(t, ns, ops[9..]) == Step(ex[9..], fin) by {
      assert ApplyTiers(t, ns, ops[9]) == Step(ex[9], fin);
      TiersStep(t, ns, ops, 9);
      SliceCons(ex, 9);
    }
    assert RunTiers(t, ns, ops[8..]) == Step(ex[8..], fin) by {
      MC.RemoveObserved(c, 0, newItem, 0);
      assert ApplyTiers(t, ns, ops[8]) == Step(ex[8], t);
      TiersStep(t, ns, ops, 8);
      SliceCons(ex, 8);
    }
    assert RunTiers(t, ns, ops[7..]) == Step(ex[7..], fin) by {
      MC.RemoveObserved(c, 1, item, 1);
      assert ApplyTiers(t, ns, ops[7]) == Step(ex[7], t);
      TiersStep(t, ns, ops, 7);
      SliceCons(ex, 7);
    }
  }

  /** The two replaces through the manager: null, then newItem, bringing both tiers back to item. */
  lemma TiersScriptReplaces<V>(t: SM.Tiers<Int32, V>, s: DS.Store<Int32, V>, ns: string, item: V, newItem: V)
    requires item != newItem && TiersHold(t, s, ns, newItem)
    ensures var run := RunTiers(t, ns, TestScript(item, newItem)[5..]);
      run.result == Expected(item, newItem)[5..] && run.state.store == s && CacheReady(run.state.cache)
  {
    DS.EntityKeyInjective(ns, 0, ns, 1);
    var ops := TestScript(item, newItem);
    var ex := Expected(item, newItem);
    var e0 := DS.EntityKeyOf(ns, 0);
    var c := t.cache;
    MC.ReplaceObserved(c, 0, item, 0);
    var u := SM.Tiers(s[e0 := DS.Entry(0, item)], MC.ReplaceCas(c, 0, item).state);
    assert t.store[e0 := DS.Entry(0, item)] == u.store;
    assert TiersHold(u, s, ns, item);
    TiersScriptRemoves(u, s, ns, item, newItem);
    var fin := RunTiers(u, ns, ops[7..]).state;
    assert RunTiers(t, ns, ops[6..]) == Step(ex[6..], fin) by {
      assert ApplyTiers(t, ns, ops[6]) == Step(ex[6], u);
      TiersStep(t, ns, ops, 6);
      SliceCons(ex, 6);
    }
    assert RunTiers(t, ns, ops[5..]) == Step(ex[5..], fin) by {
      MC.ReplaceObserved(c, 1, item, 1);
      assert ApplyTiers(t, ns, ops[5]) == Step(ex[5], t);
      TiersStep(t, ns, ops, 5);
      SliceCons(ex, 5);
    }
  }

  /** The three conditional replaces through the manager: false, false, then true. */
  lemma TiersScriptConditional<V>(t: SM.Tiers<Int32, V>, s: DS.Store<Int32, V>, ns: string, item: V, newItem: V)
    requires item != newItem && TiersHold(t, s, ns, item)
    ensures var run := RunTiers(t, ns, TestScript(item, newItem)[2..]);
      run.result == Expected(item, newItem)[2..] && run.state.store == s && CacheReady(run.state.cache)
  {
    DS.EntityKeyInjective(ns, 0, ns, 1);
    var ops := TestScript(item, newItem);
    var ex := Expected(item, newItem);
    var e0 := DS.EntityKeyOf(ns, 0);
    var c := t.cache;
    MC.ReplaceIfEqualObserved(c, 0, item, newItem, 0);
    var u := SM.Tiers(s[e0 := DS.Entry(0, newItem)], MC.ReplaceIfEqualCas(c, 0, item, newItem).state);
    assert t.store[e0 := DS.Entry(0, newItem)] == u.store;
    assert TiersHold(u, s, ns, newItem);
    TiersScriptReplaces(u, s, ns, item, newItem);
    var fin := RunTiers(u, ns, ops[5..]).state;
    assert RunTiers(t, ns, ops[4..]) == Step(ex[4..], fin) by {
      assert ApplyTiers(t, ns, ops[4]) == Step(ex[4], u);
      TiersStep(t, ns, ops, 4);
      SliceCons(ex, 4);
    }
    assert RunTiers(t, ns, ops[3..]) == Step(ex[3..], fin) by {
      MC.ReplaceIfEqualObserved(c, 0, newItem, newItem, 0);
      assert ApplyTiers(t, ns, ops[3]) == Step(ex[3], t);
      TiersStep(t, ns, ops, 3);
      SliceCons(ex, 3);
    }
    assert RunTiers(t, ns, ops[2..]) == Step(ex[2..], fin) by {
      MC.ReplaceIfEqualObserved(c, 1, item, newItem, 1);
      assert ApplyTiers(t, ns, ops[2]) == Step(ex[2], t);
      TiersStep(t, ns, ops, 2);
      SliceCons(ex, 2);
    }
  }

  /**
   * Through the state manager (with every call healthy) the script answers as the test
   * expects, restores the datastore exactly and leaves the cache ready again.
   */
  lemma TiersScript<V>(t: SM.Tiers<Int32, V>, ns: string, item: V, newItem: V)
    requires item != newItem && StoreReady(t.store, ns) && CacheReady(t.cache)
    ensures var run := RunTiers(t, ns, TestScript(item, newItem));
      run.result == Expected(item, newItem) && run.state.store == t.store && CacheReady(run.state.cache)
  {
    DS.EntityKeyInjective(ns, 0, ns, 1);
    var ops := TestScript(item, newItem);
    var ex := Expected(item, newItem);
    var e0 := DS.EntityKeyOf(ns, 0);
    var c := t.cache;
    MC.PutIfAbsentObserved(c, 0, item, 0);
    MC.PutIfAbsentObserved(c, 0, item, 1);
    var c1 := MC.PutIfAbsentCas(c, 0, item).state;
    assert 1 !in c1.items by {
      if 0 in c.items {
        MC.CasAfterRead(c, 0, Some(item));
      }
    }
    var u := SM.Tiers(t.store[e0 := DS.Entry(0, item)], c1);
    assert TiersHold(u, t.store, ns, item);
    TiersScriptConditional(u, t.store, ns, item, newItem);
    var fin := RunTiers(u, ns, ops[2..]).state;
    assert RunTiers(u, ns, ops[1..]) == Step(ex[1..], fin) by {
      MC.PutIfAbsentObserved(c1, 0, item, 0);
      assert ApplyTiers(u, ns, ops[1]) == Step(ex[1], u);
      TiersStep(u, ns, ops, 1);
      SliceCons(ex, 1);
    }
    assert RunTiers(t, ns, ops[0..]) == Step(ex[0..], fin) by {
      assert ApplyTiers(t, ns, ops[0]) == Step(ex[0], u);
      TiersStep(t, ns, ops, 0);
      SliceCons(ex, 0);
    }
    assert ops[0..] == ops && ex[0..] == ex;
  }
}
