/** A sequential model of the memoizing wrappers of `MemoizeExt`.

    Each C# wrapper returns a closure over a private cache; here the closure is
    an object whose fields are that cache, and calling the closure is calling
    its `Invoke` method. The wrapped function is a pure Dafny function `func`,
    and a ghost counter records how often it has been invoked, so that "no
    extra invocation" can be stated.

    Threads are not modelled: every method runs to completion before the next
    one starts, so a `ConcurrentDictionary` behaves as a plain dictionary and a
    `lock` has no observable effect. The garbage collector of the weak cache is
    modelled by two explicit operations on `WeakDictionary`: `Reclaim`, which
    clears the weak reference of a slot, and `Finalize`, which runs the
    finalizer callback that deletes the key. */
module MemoizeExt {

  import opened Options

  /** What a call of the weakly cached function does: return a value, or throw
      the `OutOfMemoryException` of `WeakDictionary.GetOrAdd`. No other
      exception is modelled: `func` never throws and keys are never null. */
  datatype Outcome<V> = Returned(value: V) | OutOfMemory

  /** The keys that occur in a sequence of calls. */
  function Elems<K>(keys: seq<K>): set<K> {
    set k | k in keys
  }

  // ---------------------------------------------------------------------------
  // Memoize: check the dictionary, otherwise compute and store

  class Memoize<K(==), V> {
    const func: K -> V
    var cache: map<K, V>
    ghost var calls: nat

    /** Every cached value is the value of `func` for its key. */
    ghost predicate Valid()
      reads this
    {
      forall k | k in cache :: cache[k] == func(k)
    }

    constructor (func: K -> V)
      ensures Valid()
      ensures this.func == func && cache == map[] && calls == 0
    {
      this.func := func;
      cache := map[];
      calls := 0;
    }

    method Invoke(arg: K) returns (r: V)
      requires Valid()
      modifies this
      ensures Valid()
      ensures r == func(arg)
      ensures arg in old(cache) ==> r == old(cache)[arg] && calls == old(calls)
      ensures arg !in old(cache) ==> calls == old(calls) + 1
      ensures cache == old(cache)[arg := r]
    {
      if arg in cache {
        return cache[arg];
      }
      r := func(arg);
      calls := calls + 1;
      cache := cache[arg := r];
    }
  }

  /** How often `func` runs when a memoizer whose cache holds the keys `cached`
      is called with each of `keys` in turn: once for every key that is
      neither cached nor requested earlier in the sequence. */
  function Misses<K>(cached: set<K>, keys: seq<K>): nat {
    if keys == [] then 0
    else
      var last := |keys| - 1;
      Misses(cached, keys[..last]) + (if keys[last] in cached + Elems(keys[..last]) then 0 else 1)
  }

  /** Serving a sequence of calls invokes `func` exactly once per distinct key
      that was not already cached. */
  lemma {:induction false} MissesCountDistinctKeys<K>(cached: set<K>, keys: seq<K>)
    ensures Misses(cached, keys) == |Elems(keys) - cached|
  {
    if keys != [] {
      var last := |keys| - 1;
      var prefix, k := keys[..last], keys[last];
      MissesCountDistinctKeys(cached, prefix);
      assert keys == prefix + [k];
      assert Elems(keys) == Elems(prefix) + {k};
      if k in cached + Elems(prefix) {
        assert Elems(keys) - cached == Elems(prefix) - cached;
      } else {
        assert Elems(keys) - cached == (Elems(prefix) - cached) + {k};
      }
    }
  }

  /** Extending a prefix of a key sequence by one key. */
  lemma ElemsExtend<K>(keys: seq<K>, i: nat)
    requires i < |keys|
    ensures keys[..i + 1][..i] == keys[..i]
    ensures Elems(keys[..i + 1]) == Elems(keys[..i]) + {keys[i]}
  {
    assert keys[..i + 1] == keys[..i] + [keys[i]];
  }

  /** A caller that applies a `Memoize`d function to each of `keys` in turn. */
  method InvokeEach<K(==), V>(m: Memoize<K, V>, keys: seq<K>) returns (outs: seq<V>)
    requires m.Valid()
    modifies m
    ensures m.Valid()
    ensures |outs| == |keys|
    ensures forall i | 0 <= i < |keys| :: outs[i] == m.func(keys[i])
    ensures m.cache.Keys == old(m.cache.Keys) + Elems(keys)
    ensures m.calls == old(m.calls) + |Elems(keys) - old(m.cache.Keys)|
  {
    ghost var cached, calls0 := m.cache.Keys, m.calls;
    outs := [];
    var i := 0;
    while i < |keys|
      invariant 0 <= i <= |keys|
      invariant m.Valid()
      invariant |outs| == i
      invariant forall j | 0 <= j < i :: outs[j] == m.func(keys[j])
      invariant m.cache.Keys == cached + Elems(keys[..i])
      invariant m.calls == calls0 + Misses(cached, keys[..i])
    {
      ElemsExtend(keys, i);
      ghost var seen := m.cache.Keys;
      var r := m.Invoke(keys[i]);
      assert Misses(cached, keys[..i + 1]) ==
             Misses(cached, keys[..i]) + (if keys[i] in seen then 0 else 1);
      outs := outs + [r];
      i := i + 1;
    }
    assert keys[..i] == keys;
    MissesCountDistinctKeys(cached, keys);
  }

  // ---------------------------------------------------------------------------
  // MemoizeThreadSafe: ConcurrentDictionary.GetOrAdd(arg, func)

  class MemoizeThreadSafe<K(==), V> {
    const func: K -> V
    var cache: map<K, V>
    ghost var calls: nat

    ghost predicate Valid()
      reads this
    {
      forall k | k in cache :: cache[k] == func(k)
    }

    constructor (func: K -> V)
      ensures Valid()
      ensures this.func == func && cache == map[] && calls == 0
    {
      this.func := func;
      cache := map[];
      calls := 0;
    }

    method Invoke(arg: K) returns (r: V)
      requires Valid()
      modifies this
      ensures Valid()
      ensures r == func(arg)
      ensures arg in old(cache) ==> r == old(cache)[arg] && calls == old(calls)
      ensures arg !in old(cache) ==> calls == old(calls) + 1
      ensures cache == old(cache)[arg := r]
    {
      // GetOrAdd runs the value factory only when the key is absent
      if arg !in cache {
        calls := calls + 1;
        cache := cache[arg := func(arg)];
      }
      r := cache[arg];
    }
  }

  // ---------------------------------------------------------------------------
  // Lazy<T>: a deferred computation evaluated on first access of Value

  class Lazy<V> {
    const valueFactory: () -> V
    var created: Option<V>
    ghost var evaluations: nat

    /** The factory has run at most once, and exactly when a value is held. */
    ghost predicate Valid()
      reads this
    {
      && (created.None? ==> evaluations == 0)
      && (created.Some? ==> evaluations == 1 && created.value == valueFactory())
    }

    constructor (valueFactory: () -> V)
      ensures Valid()
      ensures this.valueFactory == valueFactory && created == None && evaluations == 0
    {
      this.valueFactory := valueFactory;
      created := None;
      evaluations := 0;
    }

    method Value() returns (v: V)
      requires Valid()
      modifies this
      ensures Valid()
      ensures v == valueFactory()
      ensures created == Some(v) && evaluations == 1
      ensures old(created).Some? ==> v == old(created).value && evaluations == old(evaluations)
    {
      if created.None? {
        evaluations := 1;
        created := Some(valueFactory());
      }
      v := created.value;
    }
  }

  // ---------------------------------------------------------------------------
  // MemoizeLazyThreadSafe: GetOrAdd of a Lazy cell, then its Value

  class MemoizeLazyThreadSafe<K(==), V> {
    const func: K -> V
    var cache: map<K, Lazy<V>>
    ghost var calls: nat

    /** Every cell computes `func` of its key and, since calls run one after
        another, has already been evaluated. */
    ghost predicate Valid()
      reads this, cache.Values
    {
      forall k | k in cache ::
        && cache[k].Valid()
        && cache[k].valueFactory() == func(k)
        && cache[k].created.Some?
    }

    constructor (func: K -> V)
      ensures Valid()
      ensures this.func == func && cache == map[] && calls == 0
    {
      this.func := func;
      cache := map[];
      calls := 0;
    }

    method Invoke(arg: K) returns (r: V)
      requires Valid()
      modifies this, cache.Values
      ensures Valid()
      ensures r == func(arg)
      ensures cache.Keys == old(cache.Keys) + {arg}
      ensures forall k | k in old(cache) :: cache[k] == old(cache[k])
      ensures arg !in old(cache) ==> fresh(cache[arg])
      ensures calls == old(calls) + (if arg in old(cache) then 0 else 1)
    {
      var cell: Lazy<V>;
      if arg in cache {
        cell := cache[arg];
      } else {
        cell := new Lazy(() => func(arg));
        cache := cache[arg := cell];
      }
      ghost var before := cell.evaluations;
      r := cell.Value();
      calls := calls + (cell.evaluations - before);
    }
  }

  // ---------------------------------------------------------------------------
  // memo<T>: one Lazy cell shared by every call

  class Memo<V> {
    const func: () -> V
    const value: Lazy<V>

    ghost predicate Valid()
      reads this, value
    {
      value.Valid() && value.valueFactory == func
    }

    constructor (func: () -> V)
      ensures Valid()
      ensures this.func == func && fresh(value) && value.evaluations == 0
    {
      this.func := func;
      value := new Lazy(func);
    }

    method Invoke() returns (r: V)
      requires Valid()
      modifies value
      ensures Valid()
      ensures r == func()
      ensures old(value.created).Some? ==> r == old(value.created).value
      ensures value.evaluations == 1
    {
      r := value.Value();
    }
  }

  // ---------------------------------------------------------------------------
  // WeakDictionary: values held through weak references

  /** The weak reference a key maps to: its target is alive, or it has been
      reclaimed and the reference no longer yields it. */
  datatype Slot<V> = Live(value: V) | Dead

  class WeakDictionary<K(==), V> {
    var entries: map<K, Slot<V>>
    /** How many times `addFunc` has been run by `GetOrAdd`. */
    ghost var adds: nat

    constructor ()
      ensures entries == map[] && adds == 0
    {
      entries := map[];
      adds := 0;
    }

    /** `None` both for an absent key and for a reclaimed value. */
    method TryGetValue(key: K) returns (r: Option<V>)
      ensures r.Some? <==> key in entries && entries[key].Live?
      ensures r.Some? ==> r.value == entries[key].value
    {
      if key in entries {
        match entries[key]
        case Live(v) => r := Some(v);
        case Dead => r := None;
      } else {
        r := None;
      }
    }

    /** Adds a live slot holding `addFunc(key)` when the key is absent and
        keeps any existing slot; a reclaimed slot makes it throw. */
    method GetOrAdd(key: K, addFunc: K -> V) returns (r: Outcome<V>)
      modifies this
      ensures key !in old(entries) ==>
                && r == Returned(addFunc(key))
                && entries == old(entries)[key := Live(addFunc(key))]
                && adds == old(adds) + 1
      ensures key in old(entries) ==> entries == old(entries) && adds == old(adds)
      ensures key in old(entries) && old(entries)[key].Live? ==> r == Returned(old(entries)[key].value)
      ensures key in old(entries) && old(entries)[key].Dead? ==> r == OutOfMemory
    {
      if key !in entries {
        // ReferenceValue(key, addFunc): the new weak reference targets addFunc(key)
        adds := adds + 1;
        entries := entries[key := Live(addFunc(key))];
      }
      match entries[key]
      case Live(v) => r := Returned(v);
      case Dead => r := OutOfMemory;
    }

    /** As `GetOrAdd`, but a reclaimed slot is treated like an absent key:
        the value is recomputed and the slot replaced. */
    method GetOrRecompute(key: K, addFunc: K -> V) returns (v: V)
      modifies this
      ensures key in old(entries) && old(entries)[key].Live? ==>
                && v == old(entries)[key].value
                && entries == old(entries)
                && adds == old(adds)
      ensures !(key in old(entries) && old(entries)[key].Live?) ==>
                && v == addFunc(key)
                && entries == old(entries)[key := Live(v)]
                && adds == old(adds) + 1
    {
      if key in entries && entries[key].Live? {
        v := entries[key].value;
      } else {
        v := addFunc(key);
        adds := adds + 1;
        entries := entries[key := Live(v)];
      }
    }

    method TryRemove(key: K) returns (removed: bool)
      modifies this
      ensures removed <==> key in old(entries)
      ensures entries == old(entries) - {key}
      ensures adds == old(adds)
    {
      removed := key in entries;
      entries := entries - {key};
    }

    /** The collector reclaims the value held for `key`; the slot stays. */
    method Reclaim(key: K)
      modifies this
      ensures entries == if key in old(entries) then old(entries)[key := Dead] else old(entries)
      ensures adds == old(adds)
    {
      if key in entries {
        entries := entries[key := Dead];
      }
    }

    /** The finalizer callback that `ReferenceValue` installs: it removes the
        key, whatever slot occupies it now. */
    method Finalize(key: K)
      modifies this
      ensures entries == old(entries) - {key}
      ensures adds == old(adds)
    {
      var _ := TryRemove(key);
    }
  }

  // ---------------------------------------------------------------------------
  // memo<T, R>: weak cache plus per-key lock tokens

  /** The `new object()` used as a per-key lock. */
  class LockToken {
    constructor () {}
  }

  class WeakMemo<K(==), V> {
    const func: K -> V
    const cache: WeakDictionary<K, V>
    var syncMap: map<K, LockToken>

    /** Live slots hold `func` of their key, and a token left in `syncMap`
        (by a call that threw) only ever stands beside a reclaimed or removed
        slot. */
    ghost predicate Valid()
      reads this, cache
    {
      && (forall k | k in cache.entries && cache.entries[k].Live? :: cache.entries[k].value == func(k))
      && (forall k | k in syncMap && k in cache.entries :: cache.entries[k].Dead?)
    }

    constructor (func: K -> V)
      ensures Valid()
      ensures this.func == func && fresh(cache)
      ensures cache.entries == map[] && cache.adds == 0 && syncMap == map[]
    {
      this.func := func;
      cache := new WeakDictionary();
      syncMap := map[];
    }

    method Invoke(inp: K) returns (r: Outcome<V>)
      requires Valid()
      modifies this, cache
      ensures Valid()
      ensures r.Returned? ==> r.value == func(inp)
      ensures r.OutOfMemory? <==> inp in old(cache.entries) && old(cache.entries)[inp].Dead?
      ensures inp in old(cache.entries) && old(cache.entries)[inp].Live? ==>
                r == Returned(old(cache.entries)[inp].value)
      ensures cache.entries ==
                if inp in old(cache.entries) then old(cache.entries)
                else old(cache.entries)[inp := Live(func(inp))]
      ensures cache.adds == old(cache.adds) + (if inp in old(cache.entries) then 0 else 1)
      ensures r.Returned? ==> syncMap == old(syncMap) - {inp}
      ensures r.OutOfMemory? ==>
                && inp in syncMap
                && syncMap - {inp} == old(syncMap) - {inp}
                && (inp in old(syncMap) ==> syncMap == old(syncMap))
    {
      var found := cache.TryGetValue(inp);
      match found
      case Some(x) =>
        r := Returned(x);
      case None =>
        var sync: LockToken;
        if inp in syncMap {
          sync := syncMap[inp];
        } else {
          sync := new LockToken();
          syncMap := syncMap[inp := sync];
        }
        // lock (sync): mutual exclusion has no effect on a sequential run
        r := cache.GetOrAdd(inp, func);
        // the exception leaves the lambda before syncMap.TryRemove is reached
        if r.Returned? {
          syncMap := syncMap - {inp};
        }
    }

    /** `Invoke` with `GetOrRecompute` in place of `GetOrAdd`. */
    method InvokeRecomputing(inp: K) returns (r: V)
      requires Valid()
      modifies this, cache
      ensures Valid()
      ensures r == func(inp)
      ensures cache.entries == old(cache.entries)[inp := Live(r)]
      ensures cache.adds ==
                old(cache.adds) + (if inp in old(cache.entries) && old(cache.entries)[inp].Live? then 0 else 1)
      ensures syncMap == old(syncMap) - {inp}
    {
      var found := cache.TryGetValue(inp);
      match found
      case Some(x) =>
        r := x;
      case None =>
        var sync: LockToken;
        if inp in syncMap {
          sync := syncMap[inp];
        } else {
          sync := new LockToken();
          syncMap := syncMap[inp := sync];
        }
        r := cache.GetOrRecompute(inp, func);
        syncMap := syncMap - {inp};
    }
  }

  // ---------------------------------------------------------------------------
  // Callers of the weak memoizer

  /** `x * x` called on 3, 3 and 4: two invocations, results 9, 9 and 16. */
  method SquaresScenario() returns (outs: seq<Outcome<int>>, ghost invocations: nat)
    ensures outs == [Returned(9), Returned(9), Returned(16)]
    ensures invocations == 2
  {
    var m := new WeakMemo(x => x * x);
    var a := m.Invoke(3);
    var b := m.Invoke(3);
    var c := m.Invoke(4);
    outs := [a, b, c];
    invocations := m.cache.adds;
  }

  /** Once a value has been reclaimed and finalized, the next call recomputes it. */
  method FinalizedKeyIsRecomputed() returns (first: Outcome<int>, second: Outcome<int>, ghost invocations: nat)
    ensures first == Returned(9) && second == Returned(9)
    ensures invocations == 2
  {
    var m := new WeakMemo(x => x * x);
    first := m.Invoke(3);
    m.cache.Reclaim(3);
    m.cache.Finalize(3);
    second := m.Invoke(3);
    invocations := m.cache.adds;
  }

  /** A call between reclamation and finalization throws, and leaves its lock
      token behind in `syncMap`. */
  method ReclaimedSlotThrows() returns (first: Outcome<int>, second: Outcome<int>, tokenLeft: bool)
    ensures first == Returned(9)
    ensures second == OutOfMemory
    ensures tokenLeft
  {
    var m := new WeakMemo(x => x * x);
    first := m.Invoke(3);
    m.cache.Reclaim(3);
    second := m.Invoke(3);
    tokenLeft := 3 in m.syncMap;
  }

  /** With the reclaimed slot treated as absent, the same calls recompute. */
  method ReclaimedSlotRecomputes() returns (first: int, second: int, tokenLeft: bool, ghost invocations: nat)
    ensures first == 9 && second == 9
    ensures !tokenLeft
    ensures invocations == 2
  {
    var m := new WeakMemo(x => x * x);
    first := m.InvokeRecomputing(3);
    m.cache.Reclaim(3);
    second := m.InvokeRecomputing(3);
    tokenLeft := 3 in m.syncMap;
    invocations := m.cache.adds;
  }
}
