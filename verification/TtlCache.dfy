/**
 The coalescing TTL cache: a store with expiry and insertion-order eviction, one
 in-flight slot per key, and a generation counter per key that tells a settling fetch
 whether its value may still be written. Promises are numbered; time is a parameter.
 */
module TtlCache {
  import opened Options

  datatype Entry<V> = Entry(value: V, expiresAt: int)

  /** The first caller's fetch and the generation it was registered under. */
  datatype Slot = Slot(promise: nat, generation: nat)

  /** The three maps of the cache; `order` is the insertion order of `store`. */
  datatype Conf<K, V> = Conf(
    store: map<K, Entry<V>>,
    order: seq<K>,
    inflight: map<K, Slot>,
    generations: map<K, nat>)

  datatype Limits = Limits(ttl: int, maxEntries: Option<nat>)

  datatype Lookup<V> =
    | Hit(value: V)
    | Join(promise: nat)
    | Start(promise: nat, generation: nat)

  /** Generation of a key; 0 for a key never seen. */
  function Gen<K>(generations: map<K, nat>, k: K): nat {
    if k in generations then generations[k] else 0
  }

  function CurrentGeneration<K, V>(c: Conf<K, V>, k: K): nat {
    Gen(c.generations, k)
  }

  function Bump<K, V>(c: Conf<K, V>, k: K): Conf<K, V> {
    c.(generations := c.generations[k := CurrentGeneration(c, k) + 1])
  }

  function Without<K(==)>(order: seq<K>, k: K): (r: seq<K>)
    ensures |r| <= |order|
  {
    if order == [] then []
    else if order[0] == k then Without(order[1..], k)
    else [order[0]] + Without(order[1..], k)
  }

  function Delete<K(==), V>(c: Conf<K, V>, k: K): Conf<K, V> {
    c.(store := c.store - {k}, order := Without(c.order, k))
  }

  function Fresh<K(==), V>(c: Conf<K, V>, k: K, now: int): Option<V> {
    if k in c.store && now < c.store[k].expiresAt then Some(c.store[k].value) else None
  }

  /** A read drops the entry it finds expired. */
  function AfterGet<K(==), V>(c: Conf<K, V>, k: K, now: int): Conf<K, V> {
    if k in c.store && c.store[k].expiresAt <= now then Delete(c, k) else c
  }

  function Put<K(==), V>(c: Conf<K, V>, k: K, e: Entry<V>): Conf<K, V> {
    c.(store := c.store[k := e], order := Without(c.order, k) + [k])
  }

  function EvictOldest<K(==), V>(c: Conf<K, V>, limits: Limits): Conf<K, V> {
    if limits.maxEntries.Some? && |c.store| > limits.maxEntries.value && c.order != []
    then Delete(c, c.order[0]) else c
  }

  function WriteStore<K(==), V>(c: Conf<K, V>, limits: Limits, k: K, v: V, now: int): Conf<K, V> {
    EvictOldest(Put(c, k, Entry(v, now + limits.ttl)), limits)
  }

  function AfterSet<K(==), V>(c: Conf<K, V>, limits: Limits, k: K, v: V, now: int): Conf<K, V> {
    WriteStore(Bump(c, k), limits, k, v, now)
  }

  function AfterInvalidate<K(==), V>(c: Conf<K, V>, k: K): Conf<K, V> {
    Bump(Delete(c, k), k).(inflight := c.inflight - {k})
  }

  /** Every key ever tracked is bumped, in-flight ones included. */
  function AfterClear<K(==), V>(c: Conf<K, V>): Conf<K, V> {
    Conf(map[], [], map[],
      map k | k in c.generations.Keys + c.inflight.Keys :: CurrentGeneration(c, k) + 1)
  }

  /** What getOrFetch finds; `next` numbers the promise it would create. */
  function Find<K(==), V>(c: Conf<K, V>, k: K, now: int, next: nat): Lookup<V> {
    match Fresh(c, k, now)
    case Some(v) => Hit(v)
    case None =>
      if k in c.inflight then Join(c.inflight[k].promise) else Start(next, CurrentGeneration(c, k))
  }

  function AfterFind<K(==), V>(c: Conf<K, V>, k: K, now: int, next: nat): Conf<K, V> {
    var d := AfterGet(c, k, now);
    match Find(c, k, now, next)
    case Start(p, g) => d.(inflight := d.inflight[k := Slot(p, g)])
    case _ => d
  }

  /** A fetch settles: its value is written only under its own generation, its slot cleared only if still its own. */
  function AfterSettle<K(==), V>(c: Conf<K, V>, limits: Limits, k: K, promise: nat, generation: nat, result: Option<V>, now: int): Conf<K, V>
  {
    var d := if result.Some? && CurrentGeneration(c, k) == generation
             then WriteStore(c, limits, k, result.value, now) else c;
    if k in d.inflight && d.inflight[k].promise == promise then d.(inflight := d.inflight - {k}) else d
  }

  // ---------------------------------------------------------------------------
  // What each operation leaves alone
  // ---------------------------------------------------------------------------

  lemma DeleteKeeps<K(!new), V>(c: Conf<K, V>, k: K)
    ensures var d := Delete(c, k);
      && d.inflight == c.inflight && d.generations == c.generations
      && (forall j :: j in d.store ==> j != k && j in c.store && d.store[j] == c.store[j])
  {
  }

  /** A write leaves every other stored value alone or evicts it. */
  lemma WriteKeeps<K(!new), V>(c: Conf<K, V>, limits: Limits, k: K, v: V, now: int)
    ensures var d := WriteStore(c, limits, k, v, now);
      && d.inflight == c.inflight && d.generations == c.generations
      && (forall j :: j in d.store && j != k ==> j in c.store && d.store[j] == c.store[j])
      && (k in d.store ==> d.store[k].value == v)
  {
  }

  /** A lookup may drop an expired entry, and on a miss adds one slot; nothing else changes. */
  lemma FindKeeps<K(!new), V>(c: Conf<K, V>, k: K, now: int, next: nat)
    ensures var (d, found) := (AfterFind(c, k, now, next), Find(c, k, now, next));
      && d.generations == c.generations
      && (forall j :: j in d.store ==> j in c.store && d.store[j] == c.store[j])
      && (found.Start? ==>
        && k !in c.inflight && found == Start(next, CurrentGeneration(c, k))
        && d.inflight == c.inflight[k := Slot(next, CurrentGeneration(c, k))])
      && (!found.Start? ==> d.inflight == c.inflight)
  {
    DeleteKeeps(c, k);
  }

  /** A settling fetch writes at most its own key, under its own generation, and clears at most its own slot. */
  lemma SettleKeeps<K(!new), V>(c: Conf<K, V>, limits: Limits, k: K, p: nat, g: nat, result: Option<V>, now: int)
    ensures var d := AfterSettle(c, limits, k, p, g, result, now);
      && d.generations == c.generations
      && (forall j :: j in d.inflight <==> j in c.inflight && !(j == k && c.inflight[k].promise == p))
      && (forall j :: j in d.inflight ==> d.inflight[j] == c.inflight[j])
      && (forall j :: j in d.store ==>
        (j in c.store && d.store[j] == c.store[j]) ||
        (j == k && result == Some(d.store[j].value) && CurrentGeneration(c, k) == g))
  {
    hide WriteStore;
    if result.Some? { WriteKeeps(c, limits, k, result.value, now); }
  }

  // ---------------------------------------------------------------------------
  // What is served
  // ---------------------------------------------------------------------------

  /** A value that was written is served until its lifetime is over, and not longer. */
  lemma WriteServes<K(!new), V>(c: Conf<K, V>, limits: Limits, k: K, v: V, now: int, later: int)
    requires limits.maxEntries.None? || (forall j :: j in c.order <==> j in c.store)
    requires limits.maxEntries.Some? ==> 0 < limits.maxEntries.value && |c.store| <= limits.maxEntries.value
    ensures Fresh(WriteStore(c, limits, k, v, now), k, later) == if later < now + limits.ttl then Some(v) else None
  {
    var p := Put(c, k, Entry(v, now + limits.ttl));
    if limits.maxEntries.Some? && |p.store| > limits.maxEntries.value {
      assert k !in c.store by { if k in c.store { SameKeys(c.store, k, Entry(v, now + limits.ttl)); } }
      WithoutAbsent(c.order, k);
      assert c.order != [] by { if c.order == [] { NoKeys(c.store); OneKey(c.store, k, Entry(v, now + limits.ttl)); } }
      assert p.order[0] == c.order[0] && c.order[0] in c.order;
    }
  }

  lemma SameKeys<K, X>(m: map<K, X>, k: K, x: X)
    requires k in m
    ensures |m[k := x]| == |m|
  {
    assert m[k := x].Keys == m.Keys;
    assert |m[k := x].Keys| == |m[k := x]| && |m.Keys| == |m|;
  }

  lemma NoKeys<K(!new), X>(m: map<K, X>)
    requires forall j :: j !in m
    ensures m == map[]
  {
  }

  lemma OneKey<K, X>(m: map<K, X>, k: K, x: X)
    requires m == map[]
    ensures |m[k := x]| == 1
  {
    assert m[k := x].Keys == {k};
    assert |m[k := x].Keys| == |m[k := x]|;
  }

  lemma {:induction false} WithoutAbsent<K>(order: seq<K>, k: K)
    requires k !in order
    ensures Without(order, k) == order
  {
    if order != [] { WithoutAbsent(order[1..], k); }
  }

  /** The value of a fetch of the current generation is served from then on. */
  lemma SettleServes<K(!new), V>(c: Conf<K, V>, limits: Limits, k: K, p: nat, g: nat, v: V, now: int, later: int)
    requires limits.maxEntries.None? || (forall j :: j in c.order <==> j in c.store)
    requires limits.maxEntries.Some? ==> 0 < limits.maxEntries.value && |c.store| <= limits.maxEntries.value
    requires g == CurrentGeneration(c, k)
    ensures Fresh(AfterSettle(c, limits, k, p, g, Some(v), now), k, later) == if later < now + limits.ttl then Some(v) else None
  {
    hide WriteStore;
    WriteServes(c, limits, k, v, now, later);
  }

  /** A set value is served from then on. */
  lemma SetServes<K(!new), V>(c: Conf<K, V>, limits: Limits, k: K, v: V, now: int, later: int)
    requires limits.maxEntries.None? || (forall j :: j in c.order <==> j in c.store)
    requires limits.maxEntries.Some? ==> 0 < limits.maxEntries.value && |c.store| <= limits.maxEntries.value
    ensures Fresh(AfterSet(c, limits, k, v, now), k, later) == if later < now + limits.ttl then Some(v) else None
  {
    hide WriteStore;
    WriteServes(Bump(c, k), limits, k, v, now, later);
  }

  /**
   The three outcomes of getOrFetch: a stored value whose expiry has not come, else the
   fetch in flight for the key, else a new one under the generation counted so far.
   */
  lemma FindCases<K(!new), V>(c: Conf<K, V>, k: K, now: int, next: nat)
    ensures var found := Find(c, k, now, next);
      if k in c.store && now < c.store[k].expiresAt then found == Hit(c.store[k].value)
      else if k in c.inflight then found == Join(c.inflight[k].promise)
      else found == Start(next, if k in c.generations then c.generations[k] else 0)
  {
  }

  /** An invalidation touches its own key only. */
  lemma InvalidateOnly<K(!new), V>(c: Conf<K, V>, k: K, j: K)
    requires j != k
    ensures var d := AfterInvalidate(c, k);
      && (j in d.store <==> j in c.store) && (j in d.store ==> d.store[j] == c.store[j])
      && (j in d.inflight <==> j in c.inflight) && (j in d.inflight ==> d.inflight[j] == c.inflight[j])
      && CurrentGeneration(d, j) == CurrentGeneration(c, j)
    ensures var d := AfterInvalidate(c, k);
      k !in d.store && k !in d.inflight && CurrentGeneration(d, k) == CurrentGeneration(c, k) + 1
  {
  }

  /** A set bumps its own key only, and leaves the fetches in flight alone. */
  lemma SetOnly<K(!new), V>(c: Conf<K, V>, limits: Limits, k: K, v: V, now: int, j: K)
    ensures var d := AfterSet(c, limits, k, v, now);
      && d.inflight == c.inflight
      && CurrentGeneration(d, j) == CurrentGeneration(c, j) + (if j == k then 1 else 0)
      && (j in d.store && j != k ==> j in c.store && d.store[j] == c.store[j])
  {
    hide WriteStore;
    WriteKeeps(Bump(c, k), limits, k, v, now);
  }

  /** A clear empties the store and the slots, and bumps every key it has ever tracked. */
  lemma ClearAll<K(!new), V>(c: Conf<K, V>, j: K)
    ensures var d := AfterClear(c);
      && d.store == map[] && d.inflight == map[]
      && CurrentGeneration(d, j) ==
           CurrentGeneration(c, j) + if j in c.generations || j in c.inflight then 1 else 0
  {
  }

  /** A read that finds its entry expired deletes it; any other read changes nothing. */
  lemma GetDrops<K(!new), V>(c: Conf<K, V>, k: K, now: int)
    ensures Fresh(c, k, now).None? ==> k !in AfterGet(c, k, now).store
    ensures Fresh(c, k, now).Some? || k !in c.store ==> AfterGet(c, k, now) == c
  {
  }

  // ---------------------------------------------------------------------------
  // The class
  // ---------------------------------------------------------------------------

  class Cache<K(==), V> {
    const limits: Limits
    var store: map<K, Entry<V>>
    var order: seq<K>
    var inflight: map<K, Slot>
    var generations: map<K, nat>
    var nextPromise: nat

    ghost function State(): Conf<K, V>
      reads this
    {
      Conf(store, order, inflight, generations)
    }

    constructor (limits: Limits)
      ensures State() == Conf(map[], [], map[], map[]) && this.limits == limits
    {
      this.limits := limits;
      store, order, inflight, generations, nextPromise := map[], [], map[], map[], 0;
    }

    method BumpGeneration(key: K)
      modifies this`generations
      ensures State() == Bump(old(State()), key)
      ensures generations == old(generations)[key := Gen(old(generations), key) + 1]
    {
      var next := Gen(generations, key) + 1;
      generations := generations[key := next];
    }

    method Get(key: K, now: int) returns (value: Option<V>)
      modifies this`store, this`order
      ensures State() == AfterGet(old(State()), key, now)
      ensures value == Fresh(old(State()), key, now)
    {
      if key !in store { return None; }
      var entry := store[key];
      if entry.expiresAt <= now {
        store, order := store - {key}, Without(order, key);
        return None;
      }
      return Some(entry.value);
    }

    method Write(key: K, value: V, now: int)
      modifies this`store, this`order
      ensures State() == WriteStore(old(State()), limits, key, value, now)
    {
      order := Without(order, key) + [key];
      store := store[key := Entry(value, now + limits.ttl)];
      if limits.maxEntries.Some? && |store| > limits.maxEntries.value {
        var oldest := order[0];
        store, order := store - {oldest}, Without(order, oldest);
      }
    }

    method Set(key: K, value: V, now: int)
      modifies this`store, this`order, this`generations
      ensures State() == AfterSet(old(State()), limits, key, value, now)
    {
      BumpGeneration(key);
      Write(key, value, now);
    }

    method Invalidate(key: K)
      modifies this`store, this`order, this`generations, this`inflight
      ensures State() == AfterInvalidate(old(State()), key)
    {
      store, order := store - {key}, Without(order, key);
      BumpGeneration(key);
      inflight := inflight - {key};
    }

    /** The bump loop of Clear. */
    method BumpKeys(all: set<K>)
      modifies this`generations
      ensures generations.Keys == old(generations).Keys + all
      ensures forall k :: Gen(generations, k) == Gen(old(generations), k) + if k in all then 1 else 0
    {
      ghost var before := generations;
      var keys := all;
      while keys != {}
        invariant keys <= all
        invariant generations.Keys == before.Keys + (all - keys)
        invariant forall k :: Gen(generations, k) == Gen(before, k) + if k in all - keys then 1 else 0
        modifies this`generations
        decreases keys
      {
        var k :| k in keys;
        BumpGeneration(k);
        keys := keys - {k};
      }
    }

    method Clear()
      modifies this`store, this`order, this`generations, this`inflight
      ensures State() == AfterClear(old(State()))
    {
      store, order := map[], [];
      BumpKeys(generations.Keys + inflight.Keys);
      inflight := map[];
      assert generations == AfterClear(old(State())).generations;
    }

    method GetOrFetch(key: K, now: int) returns (found: Lookup<V>)
      modifies this
      ensures State() == AfterFind(old(State()), key, now, old(nextPromise))
      ensures found == Find(old(State()), key, now, old(nextPromise))
      ensures nextPromise == old(nextPromise) + if found.Start? then 1 else 0
    {
      var cached := Get(key, now);
      if cached.Some? { return Hit(cached.value); }
      if key in inflight { return Join(inflight[key].promise); }
      var gen := Gen(generations, key);
      found := Start(nextPromise, gen);
      inflight := inflight[key := Slot(nextPromise, gen)];
      nextPromise := nextPromise + 1;
    }

    /** The continuation of a started fetch: `result` is None when it rejected. */
    method Settle(key: K, promise: nat, gen: nat, result: Option<V>, now: int)
      modifies this`store, this`order, this`inflight
      ensures State() == AfterSettle(old(State()), limits, key, promise, gen, result, now)
    {
      if result.Some? && Gen(generations, key) == gen {
        Write(key, result.value, now);
      }
      if key in inflight && inflight[key].promise == promise {
        inflight := inflight - {key};
      }
    }
  }
}
