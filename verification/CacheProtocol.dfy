/**
 The cache under concurrency: any interleaving of reads, writes, invalidations and of
 fetches that settle in any order. Cached values are represented by where they came
 from, so that a run shows which fetch or write a reader is served from.
 */
module CacheProtocol {
  import opened Options
  import opened TtlCache

  /** A value written by Set at a step, or produced by a fetch. */
  datatype Origin = FromSet(at: nat) | FromFetch(id: nat)

  /** A registered fetch: its key, the generation it captured, and the step it started at. */
  datatype Fetch<K> = Fetch(key: K, generation: nat, since: nat)

  datatype Event<K> =
    | Tick(now: int)
    | Get(key: K)
    | Set(key: K)
    | Invalidate(key: K)
    | Clear
    | GetOrFetch(key: K)
    | Resolve(id: nat)
    | Reject(id: nat)
    | GetOrThrow(key: K)  // getOrFetch with a fetcher that throws before it returns a promise

  datatype Output = Nothing | Value(origin: Origin) | Awaiting(id: nat)

  /** `fetches` remembers every fetch ever registered; the step counts the events so far. */
  datatype World<K> = World(
    cache: Conf<K, Origin>,
    limits: Limits,
    fetches: map<nat, Fetch<K>>,
    unsettled: set<nat>,
    nextPromise: nat,
    now: int,
    step: nat,
    invalidated: map<K, nat>,
    written: map<K, nat>,
    cleared: int)

  function Init<K>(limits: Limits): World<K> {
    World(Conf(map[], [], map[], map[]), limits, map[], {}, 0, 0, 0, map[], map[], -1)
  }

  /** The step of the last Invalidate of the key or Clear; -1 before the first. */
  function Fence<K(==)>(w: World<K>, k: K): int {
    if k in w.invalidated && w.invalidated[k] > w.cleared then w.invalidated[k] else w.cleared
  }

  /** The step of the last event that bumped the key's generation. */
  function LastBump<K(==)>(w: World<K>, k: K): int {
    if k in w.written && w.written[k] > Fence(w, k) then w.written[k] else Fence(w, k)
  }

  function Since<K(==)>(w: World<K>, o: Origin): int {
    match o
    case FromSet(at) => at
    case FromFetch(id) => if id in w.fetches then w.fetches[id].since else -1
  }

  function Served(found: Lookup<Origin>): Output {
    match found
    case Hit(o) => Value(o)
    case Join(p) => Awaiting(p)
    case Start(p, _) => Awaiting(p)
  }

  function Settled<K(==)>(w: World<K>, id: nat, result: Option<Origin>): World<K> {
    if id in w.unsettled && id in w.fetches then
      var f := w.fetches[id];
      w.(cache := AfterSettle(w.cache, w.limits, f.key, id, f.generation, result, w.now),
         unsettled := w.unsettled - {id})
    else w
  }

  function Looked<K(==)>(w: World<K>, k: K, pending: bool): World<K> {
    var c := AfterFind(w.cache, k, w.now, w.nextPromise);
    match Find(w.cache, k, w.now, w.nextPromise)
    case Start(p, g) =>
      w.(cache := c,
         fetches := w.fetches[p := Fetch(k, g, w.step)],
         unsettled := if pending then w.unsettled + {p} else w.unsettled,
         nextPromise := w.nextPromise + 1)
    case _ => w.(cache := c)
  }

  function Act<K(==)>(w: World<K>, e: Event<K>): World<K> {
    match e
    case Tick(now) => w.(now := now)
    case Get(k) => w.(cache := AfterGet(w.cache, k, w.now))
    case Set(k) =>
      w.(cache := AfterSet(w.cache, w.limits, k, FromSet(w.step), w.now), written := w.written[k := w.step])
    case Invalidate(k) => w.(cache := AfterInvalidate(w.cache, k), invalidated := w.invalidated[k := w.step])
    case Clear => w.(cache := AfterClear(w.cache), cleared := w.step)
    case GetOrFetch(k) => Looked(w, k, true)
    case Resolve(id) => Settled(w, id, Some(FromFetch(id)))
    case Reject(id) => Settled(w, id, None)
    case GetOrThrow(k) => Looked(w, k, false)
  }

  function Step<K(==)>(w: World<K>, e: Event<K>): World<K> {
    Act(w, e).(step := w.step + 1)
  }

  /** What the caller of an event is served. */
  function Out<K(==)>(w: World<K>, e: Event<K>): Output {
    match e
    case Get(k) =>
      (match Fresh(w.cache, k, w.now) case Some(o) => Value(o) case None => Nothing)
    case GetOrFetch(k) => Served(Find(w.cache, k, w.now, w.nextPromise))
    case GetOrThrow(k) => Served(Find(w.cache, k, w.now, w.nextPromise))
    case _ => Nothing
  }

  function Run<K(==)>(w: World<K>, events: seq<Event<K>>): World<K> {
    if events == [] then w else Step(Run(w, events[..|events| - 1]), events[|events| - 1])
  }

  // ---------------------------------------------------------------------------
  // The invariant
  // ---------------------------------------------------------------------------

  /** Each slot names an unsettled fetch of its key. */
  ghost predicate SlotsLive<K(!new)>(w: World<K>) {
    forall k :: k in w.cache.inflight ==>
      var s := w.cache.inflight[k];
      s.promise in w.unsettled && s.promise in w.fetches &&
      w.fetches[s.promise].key == k && w.fetches[s.promise].generation == s.generation
  }

  /** A registered fetch is from the past; generations only grow. */
  ghost predicate FetchPast<K>(w: World<K>, id: nat)
    requires id in w.fetches
  {
    var f := w.fetches[id];
    && id < w.nextPromise && f.since < w.step
    && f.generation <= CurrentGeneration(w.cache, f.key)
    && (f.generation < CurrentGeneration(w.cache, f.key) ==> f.since < LastBump(w, f.key))
  }

  /** An unsettled fetch owns its slot or has been superseded; under a current generation nothing was bumped since. */
  ghost predicate OwnsOrStale<K>(w: World<K>, id: nat)
    requires id in w.fetches
  {
    var f := w.fetches[id];
    || f.generation < CurrentGeneration(w.cache, f.key)
    || (f.key in w.cache.inflight && w.cache.inflight[f.key].promise == id && LastBump(w, f.key) < f.since)
  }

  ghost predicate ServedFresh<K>(w: World<K>, k: K) {
    && (k in w.cache.store ==>
      var o := w.cache.store[k].value;
      && Fence(w, k) < Since(w, o)
      && LastBump(w, k) <= Since(w, o) < w.step
      && (o.FromFetch? ==> o.id in w.fetches && w.fetches[o.id].key == k))
    && (k in w.cache.inflight ==> Fence(w, k) < Since(w, FromFetch(w.cache.inflight[k].promise)))
  }

  ghost predicate Inv<K(!new)>(w: World<K>) {
    && SlotsLive(w)
    && (forall id :: id in w.unsettled ==> id in w.fetches)
    && (forall id :: id in w.fetches ==> FetchPast(w, id))
    && (forall id :: id in w.unsettled ==> OwnsOrStale(w, id))
    && (forall k :: ServedFresh(w, k))
    && (forall k :: LastBump(w, k) < w.step)
  }

  // ---------------------------------------------------------------------------
  // Every event keeps it
  // ---------------------------------------------------------------------------

  /** Nothing but the clocks moves, or an expired entry is dropped. */
  lemma QuietStep<K(!new)>(w: World<K>, e: Event<K>)
    requires Inv(w)
    requires e.Tick? || e.Get? || ((e.Resolve? || e.Reject?) && e.id !in w.unsettled)
    ensures Inv(Step(w, e))
  {
    hide Delete;
    var t := Step(w, e);
    if e.Get? { DeleteKeeps(w.cache, e.key); }
    forall j ensures Fence(t, j) == Fence(w, j) && LastBump(t, j) == LastBump(w, j) < w.step {}
    hide Fence, LastBump;
    forall j ensures ServedFresh(t, j) { assert ServedFresh(w, j); }
    forall id | id in t.fetches ensures FetchPast(t, id) { assert FetchPast(w, id); }
    forall id | id in t.unsettled ensures OwnsOrStale(t, id) { assert OwnsOrStale(w, id); }
  }

  lemma SetStep<K(!new)>(w: World<K>, k: K)
    requires Inv(w)
    ensures Inv(Step(w, Set(k)))
  {
    hide WriteStore;
    var t := Step(w, Set(k));
    WriteKeeps(Bump(w.cache, k), w.limits, k, FromSet(w.step), w.now);
    forall j ensures Fence(t, j) == Fence(w, j) <= LastBump(w, j) < w.step { assert LastBump(w, j) < w.step; }
    forall j ensures LastBump(t, j) == if j == k then w.step else LastBump(w, j) {}
    hide Fence, LastBump;
    forall j ensures ServedFresh(t, j) { assert ServedFresh(w, j); }
    forall id | id in t.fetches ensures FetchPast(t, id) { assert FetchPast(w, id); }
    forall id | id in t.unsettled ensures OwnsOrStale(t, id) { assert OwnsOrStale(w, id) && FetchPast(w, id); }
  }

  /** An Invalidate moves the fence of its key to the current step and no other. */
  lemma InvalidateFence<K(!new)>(w: World<K>, t: World<K>, k: K)
    requires t.invalidated == w.invalidated[k := w.step] && t.written == w.written && t.cleared == w.cleared
    requires forall j :: LastBump(w, j) < w.step
    ensures forall j :: Fence(t, j) == (if j == k then w.step else Fence(w, j))
    ensures forall j :: LastBump(t, j) == (if j == k then w.step else LastBump(w, j))
  {
    forall j ensures Fence(t, j) == (if j == k then w.step else Fence(w, j)) { assert LastBump(w, j) < w.step; }
    forall j ensures LastBump(t, j) == (if j == k then w.step else LastBump(w, j)) { assert LastBump(w, j) < w.step; }
  }

  lemma InvalidateStep<K(!new)>(w: World<K>, k: K)
    requires Inv(w)
    ensures Inv(Step(w, Invalidate(k)))
  {
    hide Delete, Fence, LastBump;
    var t := Step(w, Invalidate(k));
    DeleteKeeps(w.cache, k);
    InvalidateFence(w, t, k);
    forall j ensures ServedFresh(t, j) { assert ServedFresh(w, j); }
    forall id | id in t.fetches ensures FetchPast(t, id) { assert FetchPast(w, id); }
    forall id | id in t.unsettled ensures OwnsOrStale(t, id) { assert OwnsOrStale(w, id) && FetchPast(w, id); }
  }

  lemma ClearStep<K(!new)>(w: World<K>)
    requires Inv(w)
    ensures Inv(Step(w, Clear))
  {
    var t := Step(w, Clear);
    forall j ensures Fence(t, j) == LastBump(t, j) == w.step { assert LastBump(w, j) < w.step; }
    forall id | id in t.fetches ensures FetchPast(t, id) { assert FetchPast(w, id); }
    forall id | id in t.unsettled ensures OwnsOrStale(t, id) { assert OwnsOrStale(w, id); assert FetchPast(w, id); }
  }

  lemma LookStep<K(!new)>(w: World<K>, k: K)
    requires Inv(w)
    ensures Inv(Step(w, GetOrFetch(k)))
  {
    hide AfterFind, Find;
    var t := Step(w, GetOrFetch(k));
    FindKeeps(w.cache, k, w.now, w.nextPromise);
    forall j ensures Fence(t, j) == Fence(w, j) <= LastBump(w, j) == LastBump(t, j) < w.step { assert LastBump(w, j) < w.step; }
    hide Fence, LastBump;
    if Find(w.cache, k, w.now, w.nextPromise).Start? {
      Registers(w, t, k);
    } else {
      forall id | id in t.fetches ensures FetchPast(t, id) { assert FetchPast(w, id); }
      forall j ensures ServedFresh(t, j) { assert ServedFresh(w, j); }
      forall id | id in t.unsettled ensures OwnsOrStale(t, id) { assert OwnsOrStale(w, id); }
    }
  }

  /** A new fetch, registered under the current generation in a slot that was free. */
  lemma Registers<K(!new)>(w: World<K>, t: World<K>, k: K)
    requires Inv(w) && k !in w.cache.inflight
    requires var g := CurrentGeneration(w.cache, k);
      t.fetches == w.fetches[w.nextPromise := Fetch(k, g, w.step)] &&
      t.cache.inflight == w.cache.inflight[k := Slot(w.nextPromise, g)]
    requires t.unsettled == w.unsettled + {w.nextPromise} && t.nextPromise == w.nextPromise + 1 && t.step == w.step + 1
    requires t.cache.generations == w.cache.generations
    requires forall j :: j in t.cache.store ==> j in w.cache.store && t.cache.store[j] == w.cache.store[j]
    requires forall j :: Fence(t, j) == Fence(w, j) <= LastBump(w, j) == LastBump(t, j) < w.step
    ensures Inv(t)
  {
    hide Fence, LastBump;
    forall id | id in w.fetches ensures id < w.nextPromise && FetchPast(t, id) { assert FetchPast(w, id); }
    forall j ensures ServedFresh(t, j) { assert ServedFresh(w, j); }
    forall id | id in w.unsettled ensures OwnsOrStale(t, id) { assert OwnsOrStale(w, id); }
  }

  lemma SettleStep<K(!new)>(w: World<K>, e: Event<K>)
    requires Inv(w) && (e.Resolve? || e.Reject?)
    ensures Inv(Step(w, e))
  {
    if e.id in w.unsettled { SettleLive(w, e); } else { QuietStep(w, e); }
  }

  lemma SettleLive<K(!new)>(w: World<K>, e: Event<K>)
    requires Inv(w) && (e.Resolve? || e.Reject?) && e.id in w.unsettled
    ensures Inv(Step(w, e))
  {
    hide AfterSettle;
    var t := Step(w, e);
    var f := w.fetches[e.id];
    assert FetchPast(w, e.id) && OwnsOrStale(w, e.id);
    SettleKeeps(w.cache, w.limits, f.key, e.id, f.generation,
      if e.Resolve? then Some(FromFetch(e.id)) else None, w.now);
    forall j ensures Fence(t, j) == Fence(w, j) && LastBump(t, j) == LastBump(w, j) < t.step {}
    hide Fence, LastBump;
    forall id | id in t.fetches ensures FetchPast(t, id) { assert FetchPast(w, id); }
    forall j ensures ServedFresh(t, j) { assert ServedFresh(w, j); }
    forall id | id in t.unsettled ensures OwnsOrStale(t, id) { assert OwnsOrStale(w, id); }
  }

  lemma StepInv<K(!new)>(w: World<K>, e: Event<K>)
    requires Inv(w)
    requires e.GetOrThrow? ==> !Find(w.cache, e.key, w.now, w.nextPromise).Start?
    ensures Inv(Step(w, e))
  {
    match e
    case Tick(_) => QuietStep(w, e);
    case Get(_) => QuietStep(w, e);
    case Set(k) => SetStep(w, k);
    case Invalidate(k) => InvalidateStep(w, k);
    case Clear => ClearStep(w);
    case GetOrFetch(k) => LookStep(w, k);
    case Resolve(_) => SettleStep(w, e);
    case Reject(_) => SettleStep(w, e);
    case GetOrThrow(k) =>
      assert Act(w, e) == Act(w, GetOrFetch(k));
      LookStep(w, k);
  }

  // ---------------------------------------------------------------------------
  // Runs
  // ---------------------------------------------------------------------------

  /** The world before event i of a run. */
  function At<K(==)>(limits: Limits, events: seq<Event<K>>, i: nat): World<K>
    requires i <= |events|
  {
    Run(Init(limits), events[..i])
  }

  lemma AtNext<K(!new)>(limits: Limits, events: seq<Event<K>>, i: nat)
    requires i < |events|
    ensures At(limits, events, i + 1) == Step(At(limits, events, i), events[i])
  {
    assert events[..i + 1][..i] == events[..i];
  }

  /** No fetcher threw before returning a promise, where one was called. */
  ghost predicate Asynchronous<K(!new)>(limits: Limits, events: seq<Event<K>>) {
    forall i :: 0 <= i < |events| && events[i].GetOrThrow? ==>
      var w := At(limits, events, i); !Find(w.cache, events[i].key, w.now, w.nextPromise).Start?
  }

  lemma {:induction false} RunInv<K(!new)>(limits: Limits, events: seq<Event<K>>, i: nat)
    requires Asynchronous(limits, events) && i <= |events|
    ensures Inv(At(limits, events, i)) && At(limits, events, i).step == i
  {
    if i != 0 {
      RunInv(limits, events, i - 1);
      AtNext(limits, events, i - 1);
      StepInv(At(limits, events, i - 1), events[i - 1]);
    }
  }

  /** Fences only move forward, and a fencing event moves them to its own step. */
  lemma FenceStep<K(!new)>(w: World<K>, e: Event<K>, k: K)
    requires LastBump(w, k) < w.step
    ensures Fence(w, k) <= Fence(Step(w, e), k) && LastBump(w, k) <= LastBump(Step(w, e), k)
    ensures e == Invalidate(k) || e == Clear ==> Fence(Step(w, e), k) == w.step
    ensures e == Invalidate(k) || e == Clear || e == Set(k) ==> LastBump(Step(w, e), k) == w.step
  {
  }

  lemma {:induction false} RunFence<K(!new)>(limits: Limits, events: seq<Event<K>>, i: nat, j: nat, k: K)
    requires Asynchronous(limits, events) && i < j <= |events|
    ensures events[i] == Invalidate(k) || events[i] == Clear ==> i <= Fence(At(limits, events, j), k)
    ensures events[i] == Invalidate(k) || events[i] == Clear || events[i] == Set(k) ==> i <= LastBump(At(limits, events, j), k)
  {
    hide Fence, LastBump, Step, Run;
    var w := At(limits, events, j - 1);
    AtNext(limits, events, j - 1);
    RunInv(limits, events, j - 1);
    assert LastBump(w, k) < w.step;
    FenceStep(w, events[j - 1], k);
    if i < j - 1 {
      RunFence(limits, events, i, j - 1, k);
    }
  }

  /** What a reader of k is served at event j, and since when that value was being produced. */
  ghost predicate ServedAfter<K(!new)>(w: World<K>, e: Event<K>, i: int) {
    match Out(w, e)
    case Nothing => true
    case Value(o) => i < Since(w, o)
    case Awaiting(id) => i < Since(Step(w, e), FromFetch(id))
  }

  predicate ReadsKey<K(==)>(e: Event<K>, k: K) {
    e == Get(k) || e == GetOrFetch(k) || e == GetOrThrow(k)
  }

  /**
   The fence: in every interleaving, a read of k after an Invalidate of k or a Clear is
   served only from a write or a fetch that began after it.
   */
  lemma FenceHolds<K(!new)>(limits: Limits, events: seq<Event<K>>, i: nat, j: nat, k: K)
    requires Asynchronous(limits, events)
    requires i < j < |events|
    requires events[i] == Invalidate(k) || events[i] == Clear
    requires ReadsKey(events[j], k)
    ensures ServedAfter(At(limits, events, j), events[j], i)
  {
    RunInv(limits, events, j);
    RunFence(limits, events, i, j, k);
    assert ServedFresh(At(limits, events, j), k);
  }

  /** After a Set, a stored value is that write or a later one; older fetches never overwrite it. */
  lemma StoredSinceSet<K(!new)>(limits: Limits, events: seq<Event<K>>, i: nat, j: nat, k: K)
    requires Asynchronous(limits, events)
    requires i < j <= |events| && events[i] == Set(k)
    ensures var w := At(limits, events, j); k in w.cache.store ==> i <= Since(w, w.cache.store[k].value)
  {
    RunInv(limits, events, j);
    RunFence(limits, events, i, j, k);
    assert ServedFresh(At(limits, events, j), k);
  }

  /**
   getOrFetch, unlike get, can still hand a new caller a fetch that a Set has outdated:
   exactly when the written entry is gone and the old fetch has not settled.
   */
  lemma StaleJoinIff<K(!new)>(w: World<K>, k: K)
    requires Inv(w)
    ensures (exists id :: Out(w, GetOrFetch(k)) == Awaiting(id) && id in w.fetches && w.fetches[id].since < LastBump(w, k)) <==>
            (Fresh(w.cache, k, w.now) == None && k in w.cache.inflight
              && w.cache.inflight[k].generation < CurrentGeneration(w.cache, k))
  {
    forall id | id in w.fetches ensures id < w.nextPromise { assert FetchPast(w, id); }
    if k in w.cache.inflight {
      var p := w.cache.inflight[k].promise;
      assert p in w.fetches && OwnsOrStale(w, p) && FetchPast(w, p);
      if Fresh(w.cache, k, w.now) == None {
        assert Out(w, GetOrFetch(k)) == Awaiting(p);
      }
    }
  }

  /** Such a run: fetch, write, let the write expire, fetch again. */
  lemma StaleJoinHappens<K(!new)>(k: K)
    ensures var events := [GetOrFetch(k), Set(k), Tick(10), GetOrFetch(k)];
      var limits := Limits(5, None);
      && Asynchronous(limits, events)
      && Out(At(limits, events, 3), events[3]) == Awaiting(0)
      && 0 in At(limits, events, 3).fetches && At(limits, events, 3).fetches[0].since < 1
  {
    var events := [GetOrFetch(k), Set(k), Tick(10), GetOrFetch(k)];
    var limits := Limits(5, None);
    assert events[..0] == [];
    var w0, w1 := At(limits, events, 0), At(limits, events, 1);
    AtNext(limits, events, 0);
    assert w1.cache.inflight == map[k := Slot(0, 0)] && w1.fetches == map[0 := Fetch(k, 0, 0)];
    AtNext(limits, events, 1);
    AtNext(limits, events, 2);
  }

  // ---------------------------------------------------------------------------
  // Single flight
  // ---------------------------------------------------------------------------

  /** Per key, at most one unsettled fetch may still write. */
  lemma SingleFlight<K(!new)>(w: World<K>, a: nat, b: nat)
    requires Inv(w) && a in w.unsettled && b in w.unsettled
    requires w.fetches[a].key == w.fetches[b].key
    requires w.fetches[a].generation == w.fetches[b].generation == CurrentGeneration(w.cache, w.fetches[a].key)
    ensures a == b
  {
    assert OwnsOrStale(w, a) && OwnsOrStale(w, b);
  }

  /** When every fetch has settled, no slot is left. */
  lemma NoPinnedSlot<K(!new)>(w: World<K>)
    requires Inv(w) && w.unsettled == {}
    ensures w.cache.inflight == map[]
  {
  }

  /** A settling fetch removes no slot but its own, and its own if it still has it. */
  lemma SettlesOwnSlot<K(!new)>(w: World<K>, e: Event<K>, k: K)
    requires Inv(w) && (e.Resolve? || e.Reject?) && e.id in w.unsettled
    ensures var (c, d) := (w.cache.inflight, Step(w, e).cache.inflight);
      (k in d <==> k in c && c[k].promise != e.id) && (k in d ==> d[k] == c[k])
  {
    hide AfterSettle;
    var f := w.fetches[e.id];
    SettleKeeps(w.cache, w.limits, f.key, e.id, f.generation,
      if e.Resolve? then Some(FromFetch(e.id)) else None, w.now);
    if k in w.cache.inflight && w.cache.inflight[k].promise == e.id {
      assert w.fetches[e.id].key == k;
    }
  }

  // ---------------------------------------------------------------------------
  // A fetcher that throws synchronously
  // ---------------------------------------------------------------------------

  /** The slot of k names a fetch that will never settle again. */
  ghost predicate Pinned<K>(w: World<K>, k: K) {
    && k in w.cache.inflight
    && w.cache.inflight[k].promise !in w.unsettled
    && w.cache.inflight[k].promise < w.nextPromise
  }

  lemma PinnedStays<K(!new)>(w: World<K>, e: Event<K>, k: K)
    requires Pinned(w, k) && e != Invalidate(k) && e != Clear
    ensures Pinned(Step(w, e), k) && Step(w, e).cache.inflight[k] == w.cache.inflight[k]
    ensures e == GetOrFetch(k) && Fresh(w.cache, k, w.now) == None ==>
      Out(w, e) == Awaiting(w.cache.inflight[k].promise)
  {
    hide AfterSettle, AfterFind, WriteStore, Delete;
    match e
    case GetOrFetch(j) => FindKeeps(w.cache, j, w.now, w.nextPromise);
    case GetOrThrow(j) => FindKeeps(w.cache, j, w.now, w.nextPromise);
    case Resolve(id) => if id in w.unsettled && id in w.fetches {
      var f := w.fetches[id];
      SettleKeeps(w.cache, w.limits, f.key, id, f.generation, Some(FromFetch(id)), w.now);
    }
    case Reject(id) => if id in w.unsettled && id in w.fetches {
      var f := w.fetches[id];
      SettleKeeps(w.cache, w.limits, f.key, id, f.generation, None, w.now);
    }
    case Get(j) => DeleteKeeps(w.cache, j);
    case Set(j) => WriteKeeps(Bump(w.cache, j), w.limits, j, FromSet(w.step), w.now);
    case _ =>
  }

  /** The whole run: until the key is invalidated or the cache cleared, every miss awaits the dead promise. */
  lemma {:induction false} PinnedForever<K(!new)>(w: World<K>, events: seq<Event<K>>, k: K)
    requires Pinned(w, k)
    requires forall i :: 0 <= i < |events| ==> events[i] != Invalidate(k) && events[i] != Clear
    ensures Pinned(Run(w, events), k)
    ensures Run(w, events).cache.inflight[k] == w.cache.inflight[k]
    ensures var t := Run(w, events);
      Fresh(t.cache, k, t.now) == None ==> Out(t, GetOrFetch(k)) == Awaiting(w.cache.inflight[k].promise)
  {
    if events != [] {
      PinnedForever(w, events[..|events| - 1], k);
      PinnedStays(Run(w, events[..|events| - 1]), events[|events| - 1], k);
    }
  }

  /** Slots always name unsettled fetches exactly when no called fetcher throws synchronously. */
  lemma SlotsLiveIff<K(!new)>(limits: Limits, events: seq<Event<K>>)
    ensures Asynchronous(limits, events) <==>
            forall i :: 0 <= i <= |events| ==> SlotsLive(At(limits, events, i))
  {
    if Asynchronous(limits, events) {
      forall i | 0 <= i <= |events| ensures SlotsLive(At(limits, events, i)) {
        RunInv(limits, events, i);
      }
    } else {
      FirstThrow(limits, events);
    }
  }

  lemma FirstThrow<K(!new)>(limits: Limits, events: seq<Event<K>>)
    requires !Asynchronous(limits, events)
    ensures exists i :: 0 <= i <= |events| && !SlotsLive(At(limits, events, i))
    decreases |events|
  {
    hide Inv, Step, Find, AfterFind;
    var i: nat :| i < |events| && events[i].GetOrThrow? &&
      var w := At(limits, events, i); Find(w.cache, events[i].key, w.now, w.nextPromise).Start?;
    var front := events[..i];
    forall j: nat | j <= i ensures At(limits, front, j) == At(limits, events, j) {
      assert front[..j] == events[..j];
    }
    if Asynchronous(limits, front) {
      RunInv(limits, front, i);
      AtNext(limits, events, i);
      ThrowPins(At(limits, events, i), events[i]);
    } else {
      FirstThrow(limits, front);
      var j :| 0 <= j <= i && !SlotsLive(At(limits, front, j));
      assert !SlotsLive(At(limits, events, j));
    }
  }

  lemma ThrowPins<K(!new)>(w: World<K>, e: Event<K>)
    requires Inv(w) && e.GetOrThrow? && Find(w.cache, e.key, w.now, w.nextPromise).Start?
    ensures !SlotsLive(Step(w, e)) && Pinned(Step(w, e), e.key)
    ensures Step(w, e).cache.inflight[e.key].promise == w.nextPromise
  {
    FindKeeps(w.cache, e.key, w.now, w.nextPromise);
    forall id | id in w.fetches ensures id < w.nextPromise { assert FetchPast(w, id); }
    assert Step(w, e).cache.inflight[e.key].promise == w.nextPromise;
  }

  /**
   A fetcher that throws synchronously on a miss leaves a promise that will never settle:
   until the key is invalidated or the cache cleared, every later miss awaits it.
   */
  lemma ThrowPinsForever<K(!new)>(w: World<K>, e: Event<K>, events: seq<Event<K>>)
    requires Inv(w) && e.GetOrThrow? && Find(w.cache, e.key, w.now, w.nextPromise).Start?
    requires forall i :: 0 <= i < |events| ==> events[i] != Invalidate(e.key) && events[i] != Clear
    ensures var t := Run(Step(w, e), events);
      && w.nextPromise !in t.unsettled
      && (Fresh(t.cache, e.key, t.now) == None ==> Out(t, GetOrFetch(e.key)) == Awaiting(w.nextPromise))
  {
    hide Inv, Find, Step;
    ThrowPins(w, e);
    PinnedForever(Step(w, e), events, e.key);
  }

  // ---------------------------------------------------------------------------
  // Insertion order and the size bound
  // ---------------------------------------------------------------------------

  ghost predicate Distinct<K(!new)>(s: seq<K>) {
    forall i, j :: 0 <= i < j < |s| ==> s[i] != s[j]
  }

  /** The order lists the stored keys once each, and the store is within its bound. */
  ghost predicate Ordered<K(!new)>(c: Conf<K, Origin>, limits: Limits) {
    && (forall k :: k in c.order <==> k in c.store)
    && Distinct(c.order)
    && (limits.maxEntries.Some? ==> |c.store| <= limits.maxEntries.value)
  }

  lemma {:induction false} WithoutMembers<K(!new)>(order: seq<K>, k: K)
    ensures forall j :: j in Without(order, k) <==> j in order && j != k
  {
    if order != [] {
      WithoutMembers(order[1..], k);
      assert order == [order[0]] + order[1..];
    }
  }

  lemma {:induction false} WithoutDistinct<K(!new)>(order: seq<K>, k: K)
    requires Distinct(order)
    ensures Distinct(Without(order, k))
  {
    if order != [] {
      var tail, r := order[1..], Without(order[1..], k);
      forall i, j | 0 <= i < j < |tail| ensures tail[i] != tail[j] { assert order[i + 1] != order[j + 1]; }
      WithoutDistinct(tail, k);
      WithoutMembers(tail, k);
      forall b | 0 <= b < |r| ensures r[b] != order[0] {
        assert r[b] in tail;
        var c :| 0 <= c < |tail| && tail[c] == r[b];
        assert order[0] != order[c + 1];
      }
    }
  }

  lemma DeleteOrdered<K(!new)>(c: Conf<K, Origin>, limits: Limits, k: K)
    requires Ordered(c, limits)
    ensures Ordered(Delete(c, k), limits)
  {
    WithoutMembers(c.order, k);
    WithoutDistinct(c.order, k);
    var d := Delete(c, k);
    DeleteSize(c.store, k);
  }

  lemma DeleteSize<K, X>(m: map<K, X>, k: K)
    ensures |m - {k}| == |m| - if k in m then 1 else 0
  {
    assert (m - {k}).Keys == m.Keys - {k};
    assert |(m - {k}).Keys| == |m - {k}| && |m.Keys| == |m|;
  }

  lemma PutSize<K, X>(m: map<K, X>, k: K, x: X)
    ensures |m[k := x]| == |m| + if k in m then 0 else 1
  {
    assert m[k := x].Keys == m.Keys + {k};
    assert |m[k := x].Keys| == |m[k := x]| && |m.Keys| == |m|;
  }

  ghost predicate Listed<K(!new)>(c: Conf<K, Origin>) {
    Ordered(c, Limits(0, None))
  }

  lemma PutListed<K(!new)>(c: Conf<K, Origin>, k: K, e: Entry<Origin>)
    requires Listed(c)
    ensures Listed(Put(c, k, e)) && |Put(c, k, e).store| <= |c.store| + 1
  {
    WithoutMembers(c.order, k);
    WithoutDistinct(c.order, k);
    PutSize(c.store, k, e);
  }

  lemma OrderedSame<K(!new)>(c: Conf<K, Origin>, d: Conf<K, Origin>, limits: Limits)
    requires Ordered(c, limits) && d.store == c.store && d.order == c.order
    ensures Ordered(d, limits)
  {
  }

  lemma OrderedEmpty<K(!new)>(d: Conf<K, Origin>, limits: Limits)
    requires d.store == map[] && d.order == []
    ensures Ordered(d, limits)
  {
  }

  lemma OrderedBound<K(!new)>(c: Conf<K, Origin>, limits: Limits)
    ensures Ordered(c, limits) <==>
      Listed(c) && (limits.maxEntries.Some? ==> |c.store| <= limits.maxEntries.value)
  {
  }

  lemma WriteOrdered<K(!new)>(c: Conf<K, Origin>, limits: Limits, k: K, v: Origin, now: int)
    requires Ordered(c, limits)
    ensures Ordered(WriteStore(c, limits, k, v, now), limits)
  {
    hide Put, Without, Delete;
    var p := Put(c, k, Entry(v, now + limits.ttl));
    OrderedBound(c, limits);
    PutListed(c, k, Entry(v, now + limits.ttl));
    OrderedBound(p, limits);
    if p.order != [] {
      var oldest := p.order[0];
      assert oldest in p.store by { assert oldest in p.order; }
      DeleteOrdered(p, Limits(0, None), oldest);
      DeletedSize(p, oldest);
      OrderedBound(Delete(p, oldest), limits);
    } else {
      assert p.store == map[];
    }
  }

  lemma DeletedSize<K(!new)>(c: Conf<K, Origin>, k: K)
    requires k in c.store
    ensures |Delete(c, k).store| == |c.store| - 1
  {
    DeleteSize(c.store, k);
  }

  /** What a write evicts is the key that was inserted first, and only over the bound. */
  lemma EvictsOldest<K(!new)>(c: Conf<K, Origin>, limits: Limits, k: K, v: Origin, now: int, j: K)
    requires j in c.store && j !in WriteStore(c, limits, k, v, now).store
    ensures j == (Without(c.order, k) + [k])[0]
    ensures limits.maxEntries.Some?
    ensures limits.maxEntries.value < |c.store[k := Entry(v, now + limits.ttl)]|
  {
  }

  /** Every event keeps the insertion order and the size bound. */
  lemma StepOrdered<K(!new)>(w: World<K>, e: Event<K>)
    requires Ordered(w.cache, w.limits)
    ensures Ordered(Step(w, e).cache, Step(w, e).limits)
  {
    hide WriteStore, Delete, Ordered;
    var t := Step(w, e);
    match e
    case Tick(_) =>
    case Get(k) => DeleteOrdered(w.cache, w.limits, k);
    case Set(k) =>
      OrderedSame(w.cache, Bump(w.cache, k), w.limits);
      WriteOrdered(Bump(w.cache, k), w.limits, k, FromSet(w.step), w.now);
    case Invalidate(k) =>
      DeleteOrdered(w.cache, w.limits, k);
      OrderedSame(Delete(w.cache, k), t.cache, w.limits);
    case Clear => OrderedEmpty(t.cache, w.limits);
    case GetOrFetch(k) => LookOrdered(w.cache, w.limits, k, w.now, w.nextPromise);
    case GetOrThrow(k) => LookOrdered(w.cache, w.limits, k, w.now, w.nextPromise);
    case Resolve(id) => if id in w.unsettled && id in w.fetches { SettleOrdered(w, w.fetches[id], id, Some(FromFetch(id))); }
    case Reject(id) => if id in w.unsettled && id in w.fetches { SettleOrdered(w, w.fetches[id], id, None); }
  }

  lemma LookOrdered<K(!new)>(c: Conf<K, Origin>, limits: Limits, k: K, now: int, next: nat)
    requires Ordered(c, limits)
    ensures Ordered(AfterFind(c, k, now, next), limits)
  {
    hide Delete, Ordered;
    DeleteOrdered(c, limits, k);
    OrderedSame(AfterGet(c, k, now), AfterFind(c, k, now, next), limits);
  }

  lemma SettleOrdered<K(!new)>(w: World<K>, f: Fetch<K>, id: nat, result: Option<Origin>)
    requires Ordered(w.cache, w.limits)
    ensures Ordered(AfterSettle(w.cache, w.limits, f.key, id, f.generation, result, w.now), w.limits)
  {
    hide WriteStore, Ordered;
    if result.Some? { WriteOrdered(w.cache, w.limits, f.key, result.value, w.now); }
    var d := if result.Some? && CurrentGeneration(w.cache, f.key) == f.generation
             then WriteStore(w.cache, w.limits, f.key, result.value, w.now) else w.cache;
    OrderedSame(d, AfterSettle(w.cache, w.limits, f.key, id, f.generation, result, w.now), w.limits);
  }
}
