/**
 Read-your-writes for the graphman client: deployment info is cached under the
 lowercased deployment id, the server changes under concurrent mutations, and a
 mutation's success invalidates the cached entry.
 */
module Graphman {
  import opened Options
  import opened TtlCache

  /** 5 minutes, unbounded. */
  const LIMITS := Limits(300_000, None)

  function LowerChar(c: char): char {
    if 'A' <= c <= 'Z' then (c as int - 'A' as int + 'a' as int) as char else c
  }

  /** id.toLowerCase() of a base-58 id */
  function KeyOf(id: string): string {
    seq(|id|, i requires 0 <= i < |id| => LowerChar(id[i]))
  }

  /** What the server reports for a deployment: which one, and how many changes it has seen. */
  datatype Info = Info(id: string, version: nat)

  datatype MutationKind = Pause | Resume | Unassign | Reassign | Restart | Rewind | Drop

  /** A mutation in flight: the server has applied it and its reply is still to come. */
  datatype Mutation = Mutation(kind: MutationKind, id: string, version: nat)

  /** A fetch in flight: the deployment asked for, the generation captured, and the server's answer once given. */
  datatype Fetch = Fetch(id: string, generation: nat, answer: Option<Info>)

  datatype Event =
    | Tick(now: int)
    | Change(id: string)                        // somebody else changes the deployment
    | Mutate(kind: MutationKind, id: string)    // the server applies a mutation of ours
    | Reply(mutation: nat, success: bool)       // its reply arrives
    | Read(id: string)                          // getDeploymentInfo
    | Answer(fetch: nat)                        // the server reads its state for a fetch
    | Settle(fetch: nat, ok: bool)              // the fetch settles

  /**
   `acked` is the newest version of each deployment that a reply of ours has confirmed and
   invalidated for; `owed` is the newest version any caller awaiting a fetch may rely on.
   */
  datatype World = World(
    cache: Conf<string, Info>,
    server: map<string, nat>,
    fetches: map<nat, Fetch>,
    nextPromise: nat,
    mutations: map<nat, Mutation>,
    nextMutation: nat,
    acked: map<string, nat>,
    owed: map<nat, nat>,
    now: int)

  function Init(): World {
    World(Conf(map[], [], map[], map[]), map[], map[], 0, map[], 0, map[], map[], 0)
  }

  function Num<K(==)>(m: map<K, nat>, k: K): nat {
    if k in m then m[k] else 0
  }

  function MaxOf(a: nat, b: nat): nat {
    if a < b then b else a
  }

  /**
   Reassign and drop invalidate whenever a reply arrives. The others do so on success only:
   pause, resume and unassign look at the acknowledgement, restart and rewind throw before
   they invalidate when the reply carries no execution id.
   */
  predicate Invalidates(kind: MutationKind, success: bool) {
    success || kind.Reassign? || kind.Drop?
  }

  function AfterRead(w: World, id: string): World {
    var k := KeyOf(id);
    var c := AfterFind(w.cache, k, w.now, w.nextPromise);
    match Find(w.cache, k, w.now, w.nextPromise)
    case Hit(_) => w.(cache := c)
    case Join(p) => w.(cache := c, owed := w.owed[p := MaxOf(Num(w.owed, p), Num(w.acked, id))])
    case Start(p, g) =>
      w.(cache := c, fetches := w.fetches[p := Fetch(id, g, None)], nextPromise := w.nextPromise + 1,
         owed := w.owed[p := Num(w.acked, id)])
  }

  function AfterReply(w: World, m: nat, success: bool): World {
    if m !in w.mutations then w else
      var mut := w.mutations[m];
      var t := w.(mutations := w.mutations - {m});
      if Invalidates(mut.kind, success) then
        t.(cache := AfterInvalidate(w.cache, KeyOf(mut.id)),
           acked := w.acked[mut.id := MaxOf(Num(w.acked, mut.id), mut.version)])
      else t
  }

  function Step(w: World, e: Event): World {
    match e
    case Tick(now) => w.(now := now)
    case Change(id) => w.(server := w.server[id := Num(w.server, id) + 1])
    case Mutate(kind, id) =>
      w.(server := w.server[id := Num(w.server, id) + 1],
         mutations := w.mutations[w.nextMutation := Mutation(kind, id, Num(w.server, id) + 1)],
         nextMutation := w.nextMutation + 1)
    case Reply(m, success) => AfterReply(w, m, success)
    case Read(id) => AfterRead(w, id)
    case Answer(f) =>
      if f in w.fetches && w.fetches[f].answer == None then
        var g := w.fetches[f];
        w.(fetches := w.fetches[f := g.(answer := Some(Info(g.id, Num(w.server, g.id))))])
      else w
    case Settle(f, ok) =>
      if f in w.fetches && (ok ==> w.fetches[f].answer.Some?) then
        var g := w.fetches[f];
        w.(cache := AfterSettle(w.cache, LIMITS, KeyOf(g.id), f, g.generation, if ok then g.answer else None, w.now),
           fetches := w.fetches - {f})
      else w
  }

  /** What an event hands to the callers of getDeploymentInfo: a cached value, or a settled fetch's answer. */
  function Delivered(w: World, e: Event): Option<Info> {
    match e
    case Read(id) => Fresh(w.cache, KeyOf(id), w.now)
    case Settle(f, ok) => if ok && f in w.fetches then w.fetches[f].answer else None
    case _ => None
  }

  /** The fetch a read awaits, when it is not served from the store. */
  function Awaited(w: World, id: string): Option<nat> {
    match Find(w.cache, KeyOf(id), w.now, w.nextPromise)
    case Hit(_) => None
    case Join(p) => Some(p)
    case Start(p, _) => Some(p)
  }

  function Run(w: World, events: seq<Event>): World {
    if events == [] then w else Step(Run(w, events[..|events| - 1]), events[|events| - 1])
  }

  // ---------------------------------------------------------------------------
  // The invariant
  // ---------------------------------------------------------------------------

  /** Lowercasing does not confuse any two of these ids. */
  ghost predicate CaseDistinct(ids: set<string>) {
    forall a, b :: a in ids && b in ids && KeyOf(a) == KeyOf(b) ==> a == b
  }

  ghost predicate Mentions(e: Event, ids: set<string>) {
    match e
    case Change(id) => id in ids
    case Mutate(_, id) => id in ids
    case Read(id) => id in ids
    case _ => true
  }

  predicate Owns(c: Conf<string, Info>, f: nat, id: string) {
    KeyOf(id) in c.inflight && c.inflight[KeyOf(id)].promise == f
  }

  /** What has been answered covers every awaiting caller and, while the slot is owned, every future one. */
  ghost predicate Covers(g: Fetch, owns: bool, owed: nat, acked: nat, server: nat) {
    match g.answer
    case Some(a) => a.id == g.id && owed <= a.version && (owns ==> acked <= a.version)
    case None => owed <= server
  }

  /** A fetch in flight owns its slot or has been superseded. */
  ghost predicate Placed(c: Conf<string, Info>, f: nat, g: Fetch) {
    && g.generation <= CurrentGeneration(c, KeyOf(g.id))
    && (Owns(c, f, g.id) || g.generation < CurrentGeneration(c, KeyOf(g.id)))
  }

  ghost predicate FetchOk(w: World, f: nat, ids: set<string>)
    requires f in w.fetches
  {
    var g := w.fetches[f];
    && f < w.nextPromise && g.id in ids
    && Placed(w.cache, f, g)
    && Covers(g, Owns(w.cache, f, g.id), Num(w.owed, f), Num(w.acked, g.id), Num(w.server, g.id))
  }

  ghost predicate SlotOk(w: World, k: string)
    requires k in w.cache.inflight
  {
    var p := w.cache.inflight[k].promise;
    p in w.fetches && KeyOf(w.fetches[p].id) == k
  }

  ghost predicate EntryOk(w: World, k: string, ids: set<string>)
    requires k in w.cache.store
  {
    var a := w.cache.store[k].value;
    a.id in ids && KeyOf(a.id) == k && Num(w.acked, a.id) <= a.version
  }

  ghost predicate Inv(w: World, ids: set<string>) {
    && (forall f :: f in w.fetches ==> FetchOk(w, f, ids))
    && (forall f :: f in w.owed ==> f < w.nextPromise)
    && (forall k :: k in w.cache.inflight ==> SlotOk(w, k))
    && (forall k :: k in w.cache.store ==> EntryOk(w, k, ids))
    && (forall id :: Num(w.acked, id) <= Num(w.server, id))
    && (forall m :: m in w.mutations ==>
      w.mutations[m].id in ids && w.mutations[m].version <= Num(w.server, w.mutations[m].id))
  }

  // ---------------------------------------------------------------------------
  // Every event keeps it
  // ---------------------------------------------------------------------------

  /** What has to be checked for a fetch that a step leaves as it is. */
  lemma FetchKept(w: World, t: World, f: nat, ids: set<string>)
    requires f in w.fetches && f in t.fetches && t.fetches[f] == w.fetches[f] && FetchOk(w, f, ids)
    requires w.nextPromise <= t.nextPromise
    requires var id := w.fetches[f].id;
      && CurrentGeneration(w.cache, KeyOf(id)) <= CurrentGeneration(t.cache, KeyOf(id))
      && (Owns(t.cache, f, id) ==> Owns(w.cache, f, id) && Num(t.acked, id) == Num(w.acked, id))
      && (Owns(w.cache, f, id) && !Owns(t.cache, f, id) ==>
          CurrentGeneration(w.cache, KeyOf(id)) < CurrentGeneration(t.cache, KeyOf(id)))
      && Num(w.server, id) <= Num(t.server, id) && Num(t.owed, f) == Num(w.owed, f)
    ensures FetchOk(t, f, ids)
  {
    hide KeyOf;
  }

  lemma EntryKept(w: World, t: World, k: string, ids: set<string>)
    requires k in w.cache.store && k in t.cache.store && t.cache.store[k] == w.cache.store[k] && EntryOk(w, k, ids)
    requires var id := w.cache.store[k].value.id; Num(t.acked, id) == Num(w.acked, id)
    ensures EntryOk(t, k, ids)
  {
    hide KeyOf;
  }

  /** The server only moves forward; nothing else is touched. */
  lemma ServerStep(w: World, t: World, ids: set<string>)
    requires Inv(w, ids)
    requires t.cache == w.cache && t.fetches == w.fetches && t.nextPromise == w.nextPromise
    requires t.acked == w.acked && t.owed == w.owed
    requires forall id :: Num(w.server, id) <= Num(t.server, id)
    requires forall m :: m in t.mutations ==>
      t.mutations[m].id in ids && t.mutations[m].version <= Num(t.server, t.mutations[m].id)
    ensures Inv(t, ids)
  {
    hide Num, FetchOk, EntryOk, KeyOf;
    forall f | f in t.fetches ensures FetchOk(t, f, ids) { FetchKept(w, t, f, ids); }
    forall k | k in t.cache.inflight ensures SlotOk(t, k) { assert SlotOk(w, k); }
    forall k | k in t.cache.store ensures EntryOk(t, k, ids) { EntryKept(w, t, k, ids); }
    forall id ensures Num(t.acked, id) <= Num(t.server, id) { assert Num(w.acked, id) <= Num(w.server, id); }
  }

  lemma ReplyStep(w: World, m: nat, success: bool, ids: set<string>)
    requires Inv(w, ids) && CaseDistinct(ids)
    ensures Inv(Step(w, Reply(m, success)), ids)
  {
    hide FetchOk, EntryOk, KeyOf;
    var t := Step(w, Reply(m, success));
    if m in w.mutations {
      var mut := w.mutations[m];
      if Invalidates(mut.kind, success) {
        Acknowledged(w, t, mut, ids);
      } else {
        ServerStep(w, t, ids);
      }
    }
  }

  lemma Acknowledged(w: World, t: World, mut: Mutation, ids: set<string>)
    requires Inv(w, ids) && CaseDistinct(ids) && mut.id in ids && mut.version <= Num(w.server, mut.id)
    requires t.cache == AfterInvalidate(w.cache, KeyOf(mut.id))
    requires t.acked == w.acked[mut.id := MaxOf(Num(w.acked, mut.id), mut.version)]
    requires t.server == w.server && t.fetches == w.fetches && t.nextPromise == w.nextPromise && t.owed == w.owed
    requires forall m :: m in t.mutations ==> m in w.mutations && t.mutations[m] == w.mutations[m]
    ensures Inv(t, ids)
  {
    hide Delete, KeyOf, FetchOk, EntryOk;
    DeleteKeeps(w.cache, KeyOf(mut.id));
    forall id ensures Num(t.acked, id) == if id == mut.id then MaxOf(Num(w.acked, id), mut.version) else Num(w.acked, id) {}
    hide Num;
    forall id ensures Num(t.acked, id) <= Num(t.server, id) { assert Num(w.acked, id) <= Num(w.server, id); }
    forall f | f in t.fetches ensures FetchOk(t, f, ids) { FetchKept(w, t, f, ids); }
    forall k | k in t.cache.inflight ensures SlotOk(t, k) { assert SlotOk(w, k); }
    forall k | k in t.cache.store ensures EntryOk(t, k, ids) {
      EntryKeyed(w, k, ids);
      EntryKept(w, t, k, ids);
    }
  }

  lemma EntryKeyed(w: World, k: string, ids: set<string>)
    requires k in w.cache.store && EntryOk(w, k, ids)
    ensures var a := w.cache.store[k].value; a.id in ids && KeyOf(a.id) == k
  {
  }

  lemma ReadStep(w: World, id: string, ids: set<string>)
    requires Inv(w, ids) && CaseDistinct(ids) && id in ids
    ensures Inv(Step(w, Read(id)), ids)
  {
    hide AfterFind, Find, KeyOf, EntryOk;
    var k, t := KeyOf(id), Step(w, Read(id));
    FindKeeps(w.cache, k, w.now, w.nextPromise);
    FoundIs(w.cache, k, w.now, w.nextPromise);
    match Find(w.cache, k, w.now, w.nextPromise)
    case Hit(_) => Shrinks(w, t, ids);
    case Join(p) =>
      assert SlotOk(w, k) && FetchOk(w, p, ids) && w.fetches[p].id == id;
      var u := w.(owed := t.owed);
      Joins(w, u, id, p, ids);
      Shrinks(u, t, ids);
    case Start(p, g) =>
      assert Num(w.acked, id) <= Num(w.server, id);
      Registers(w, t, id, ids);
  }

  /** Dropping a stored entry is always safe. */
  lemma Shrinks(w: World, t: World, ids: set<string>)
    requires Inv(w, ids)
    requires t == w.(cache := t.cache) && t.cache.inflight == w.cache.inflight && t.cache.generations == w.cache.generations
    requires forall j :: j in t.cache.store ==> j in w.cache.store && t.cache.store[j] == w.cache.store[j]
    ensures Inv(t, ids)
  {
    hide Num, KeyOf, FetchOk, EntryOk;
    forall f | f in t.fetches ensures FetchOk(t, f, ids) { FetchKept(w, t, f, ids); }
    forall j | j in t.cache.inflight ensures SlotOk(t, j) { assert SlotOk(w, j); }
    forall j | j in t.cache.store ensures EntryOk(t, j, ids) { EntryKept(w, t, j, ids); }
  }

  /** A caller joins the fetch that owns the slot: what it may rely on is owed by that fetch. */
  lemma Joins(w: World, u: World, id: string, p: nat, ids: set<string>)
    requires Inv(w, ids) && p in w.fetches && w.fetches[p].id == id
    requires KeyOf(id) in w.cache.inflight && w.cache.inflight[KeyOf(id)].promise == p
    requires u == w.(owed := w.owed[p := MaxOf(Num(w.owed, p), Num(w.acked, id))])
    ensures Inv(u, ids)
  {
    hide KeyOf, EntryOk;
    forall f ensures Num(u.owed, f) == if f == p then MaxOf(Num(w.owed, p), Num(w.acked, id)) else Num(w.owed, f) {}
    assert Num(w.acked, id) <= Num(w.server, id);
    hide Num;
    assert FetchOk(w, p, ids) && FetchOk(u, p, ids);
    hide FetchOk;
    forall f | f in u.fetches ensures FetchOk(u, f, ids) { if f != p { FetchKept(w, u, f, ids); } }
    forall j | j in u.cache.inflight ensures SlotOk(u, j) { assert SlotOk(w, j); }
    forall j | j in u.cache.store ensures EntryOk(u, j, ids) { EntryKept(w, u, j, ids); }
  }

  lemma FetchNumbered(w: World, f: nat, ids: set<string>)
    requires f in w.fetches && FetchOk(w, f, ids)
    ensures f < w.nextPromise && w.fetches[f].id in ids
  {
  }

  lemma RegisteredOk(w: World, t: World, id: string, ids: set<string>)
    requires id in ids && Num(w.acked, id) <= Num(w.server, id)
    requires var (k, p, g) := (KeyOf(id), w.nextPromise, CurrentGeneration(w.cache, KeyOf(id)));
      && k in t.cache.inflight && t.cache.inflight[k] == Slot(p, g)
      && p in t.fetches && t.fetches[p] == Fetch(id, g, None)
      && p in t.owed && t.owed[p] == Num(w.acked, id)
    requires t.nextPromise == w.nextPromise + 1 && t.cache.generations == w.cache.generations && t.server == w.server
    ensures FetchOk(t, w.nextPromise, ids)
  {
    hide KeyOf;
  }

  lemma Registers(w: World, t: World, id: string, ids: set<string>)
    requires Inv(w, ids) && id in ids && KeyOf(id) !in w.cache.inflight
    requires var (k, p, g) := (KeyOf(id), w.nextPromise, CurrentGeneration(w.cache, KeyOf(id)));
      && t.cache.inflight == w.cache.inflight[k := Slot(p, g)]
      && t.fetches == w.fetches[p := Fetch(id, g, None)]
      && t.owed == w.owed[p := Num(w.acked, id)]
    requires t.nextPromise == w.nextPromise + 1 && t.cache.generations == w.cache.generations
    requires t.server == w.server && t.acked == w.acked && t.mutations == w.mutations
    requires forall j :: j in t.cache.store ==> j in w.cache.store && t.cache.store[j] == w.cache.store[j]
    ensures Inv(t, ids)
  {
    hide KeyOf, EntryOk, FetchOk;
    assert Num(w.acked, id) <= Num(w.server, id);
    RegisteredOk(w, t, id, ids);
    forall f ensures Num(t.owed, f) == if f == w.nextPromise then Num(w.acked, id) else Num(w.owed, f) {}
    hide Num;
    forall f | f in w.fetches ensures f < w.nextPromise && FetchOk(t, f, ids) {
      FetchNumbered(w, f, ids);
      FetchKept(w, t, f, ids);
    }
    forall j | j in t.cache.inflight ensures SlotOk(t, j) {
      if j in w.cache.inflight {
        assert SlotOk(w, j);
        FetchNumbered(w, w.cache.inflight[j].promise, ids);
      }
    }
    forall j | j in t.cache.store ensures EntryOk(t, j, ids) { EntryKept(w, t, j, ids); }
  }

  /** A join is with the fetch that owns the key's slot. */
  lemma FoundIs<K, V>(c: Conf<K, V>, k: K, now: int, next: nat)
    ensures match Find(c, k, now, next)
      case Hit(v) => Fresh(c, k, now) == Some(v)
      case Join(p) => k in c.inflight && p == c.inflight[k].promise
      case Start(_, _) => true
  {
  }

  lemma AnswerStep(w: World, f: nat, ids: set<string>)
    requires Inv(w, ids)
    ensures Inv(Step(w, Answer(f)), ids)
  {
    hide KeyOf, EntryOk;
    var t := Step(w, Answer(f));
    if f in w.fetches && w.fetches[f].answer == None {
      assert Num(w.acked, w.fetches[f].id) <= Num(w.server, w.fetches[f].id);
      assert FetchOk(w, f, ids) && FetchOk(t, f, ids);
      hide FetchOk, Num;
      forall g | g in t.fetches ensures FetchOk(t, g, ids) { if g != f { FetchKept(w, t, g, ids); } }
      forall k | k in t.cache.inflight ensures SlotOk(t, k) { assert SlotOk(w, k); }
      forall k | k in t.cache.store ensures EntryOk(t, k, ids) { EntryKept(w, t, k, ids); }
    }
  }

  lemma SettleStep(w: World, f: nat, ok: bool, ids: set<string>)
    requires Inv(w, ids) && CaseDistinct(ids)
    ensures Inv(Step(w, Settle(f, ok)), ids)
  {
    hide AfterSettle, KeyOf, Num;
    var t := Step(w, Settle(f, ok));
    if f in w.fetches && (ok ==> w.fetches[f].answer.Some?) {
      var g := w.fetches[f];
      assert FetchOk(w, f, ids);
      SettleKeeps(w.cache, LIMITS, KeyOf(g.id), f, g.generation, if ok then g.answer else None, w.now);
      hide FetchOk;
      forall h | h in t.fetches ensures FetchOk(t, h, ids) { FetchKept(w, t, h, ids); }
      forall k | k in t.cache.inflight ensures SlotOk(t, k) { assert SlotOk(w, k); }
      forall k | k in t.cache.store ensures EntryOk(t, k, ids) {
        if k in w.cache.store && t.cache.store[k] == w.cache.store[k] { EntryKept(w, t, k, ids); }
      }
    }
  }

  lemma StepInv(w: World, e: Event, ids: set<string>)
    requires Inv(w, ids) && CaseDistinct(ids) && Mentions(e, ids)
    ensures Inv(Step(w, e), ids)
  {
    var t := Step(w, e);
    match e
    case Tick(_) => ServerStep(w, t, ids);
    case Change(_) => ServerStep(w, t, ids);
    case Mutate(_, _) => ServerStep(w, t, ids);
    case Reply(m, success) => ReplyStep(w, m, success, ids);
    case Read(id) => ReadStep(w, id, ids);
    case Answer(f) => AnswerStep(w, f, ids);
    case Settle(f, ok) => SettleStep(w, f, ok, ids);
  }

  // ---------------------------------------------------------------------------
  // Runs
  // ---------------------------------------------------------------------------

  /** The world before event i of a run. */
  function At(events: seq<Event>, i: nat): World
    requires i <= |events|
  {
    Run(Init(), events[..i])
  }

  lemma AtNext(events: seq<Event>, i: nat)
    requires i < |events|
    ensures At(events, i + 1) == Step(At(events, i), events[i])
  {
    assert events[..i + 1][..i] == events[..i];
  }

  ghost predicate Within(events: seq<Event>, ids: set<string>) {
    CaseDistinct(ids) && forall i :: 0 <= i < |events| ==> Mentions(events[i], ids)
  }

  lemma {:induction false} RunInv(events: seq<Event>, i: nat, ids: set<string>)
    requires Within(events, ids) && i <= |events|
    ensures Inv(At(events, i), ids)
  {
    if i != 0 {
      RunInv(events, i - 1, ids);
      AtNext(events, i - 1);
      StepInv(At(events, i - 1), events[i - 1], ids);
    }
  }

  lemma AckedStep(w: World, e: Event, id: string)
    ensures Num(w.acked, id) <= Num(Step(w, e).acked, id)
  {
    hide AfterFind, AfterSettle, KeyOf, Delete;
  }

  lemma {:induction false} AckedGrows(events: seq<Event>, i: nat, j: nat, id: string)
    requires i <= j <= |events|
    ensures Num(At(events, i).acked, id) <= Num(At(events, j).acked, id)
    decreases j - i
  {
    if i < j {
      AtNext(events, j - 1);
      AckedStep(At(events, j - 1), events[j - 1], id);
      AckedGrows(events, i, j - 1, id);
    }
  }

  /** Fetch p, if it is still in flight, asks for `id` and owes its callers version v. */
  ghost predicate Owes(w: World, p: nat, id: string, v: nat) {
    p < w.nextPromise && v <= Num(w.owed, p) && (p in w.fetches ==> w.fetches[p].id == id)
  }

  lemma OwesStep(w: World, e: Event, p: nat, id: string, v: nat)
    requires Owes(w, p, id, v)
    ensures Owes(Step(w, e), p, id, v)
  {
    hide AfterFind, AfterSettle, KeyOf, Delete;
    if e.Read? {
      FoundIs(w.cache, KeyOf(e.id), w.now, w.nextPromise);
      FindKeeps(w.cache, KeyOf(e.id), w.now, w.nextPromise);
    }
  }

  lemma {:induction false} OwesRun(events: seq<Event>, j: nat, l: nat, p: nat, id: string, v: nat)
    requires j <= l <= |events| && Owes(At(events, j), p, id, v)
    ensures Owes(At(events, l), p, id, v)
    decreases l - j
  {
    if j < l {
      OwesRun(events, j, l - 1, p, id, v);
      AtNext(events, l - 1);
      OwesStep(At(events, l - 1), events[l - 1], p, id, v);
    }
  }

  /** A read is served a stored value, or awaits a fetch, that covers everything acknowledged so far. */
  lemma ReadCovered(w: World, id: string, ids: set<string>)
    requires Inv(w, ids) && CaseDistinct(ids) && id in ids
    ensures match Delivered(w, Read(id))
      case Some(a) => a.id == id && Num(w.acked, id) <= a.version
      case None => Awaited(w, id).Some? && Owes(Step(w, Read(id)), Awaited(w, id).value, id, Num(w.acked, id))
  {
    hide AfterFind, KeyOf;
    var k := KeyOf(id);
    FindKeeps(w.cache, k, w.now, w.nextPromise);
    if k in w.cache.store { assert EntryOk(w, k, ids); }
    if k in w.cache.inflight {
      var p := w.cache.inflight[k].promise;
      assert SlotOk(w, k) && FetchOk(w, p, ids) && w.fetches[p].id == id;
    }
  }

  lemma SettledCovered(w: World, p: nat, ok: bool, ids: set<string>, id: string, v: nat)
    requires Inv(w, ids) && Owes(w, p, id, v)
    ensures match Delivered(w, Settle(p, ok))
      case Some(a) => a.id == id && v <= a.version
      case None => true
  {
    if p in w.fetches { assert FetchOk(w, p, ids); }
  }

  /**
   Read-your-writes: once a mutation's reply has arrived, a success or any reply to a
   reassign or drop, every getDeploymentInfo for that deployment that starts later returns a state no older than the mutation, whether
   it is served from the cache or by a fetch it started or joined.
   */
  lemma ReadYourWrites(events: seq<Event>, ids: set<string>, i: nat, j: nat, l: nat)
    requires Within(events, ids) && i < j < l < |events|
    requires events[i].Reply? && events[i].mutation in At(events, i).mutations
    requires var kind := At(events, i).mutations[events[i].mutation].kind; events[i].success || kind.Reassign? || kind.Drop?
    requires events[j] == Read(At(events, i).mutations[events[i].mutation].id)
    ensures var (m, w) := (At(events, i).mutations[events[i].mutation], At(events, j));
      && (Delivered(w, events[j]).Some? ==>
          Delivered(w, events[j]).value.id == m.id && m.version <= Delivered(w, events[j]).value.version)
      && (Delivered(w, events[j]).None? ==> Awaited(w, m.id).Some?)
      && (Delivered(w, events[j]).None? && events[l].Settle? && Awaited(w, m.id) == Some(events[l].fetch) ==>
          match Delivered(At(events, l), events[l])
          case Some(a) => a.id == m.id && m.version <= a.version
          case None => true)
  {
    hide Step, Inv, Delivered, Awaited, Run, Owes;
    var m := At(events, i).mutations[events[i].mutation];
    ReplyAcks(At(events, i), events[i]);
    AtNext(events, i);
    AckedGrows(events, i + 1, j, m.id);
    RunInv(events, j, ids);
    assert Mentions(events[j], ids);
    ReadCovered(At(events, j), m.id, ids);
    AtNext(events, j);
    if Delivered(At(events, j), events[j]).None? && events[l].Settle? && Awaited(At(events, j), m.id) == Some(events[l].fetch) {
      var p := events[l].fetch;
      OwesRun(events, j + 1, l, p, m.id, Num(At(events, j).acked, m.id));
      RunInv(events, l, ids);
      SettledCovered(At(events, l), p, events[l].ok, ids, m.id, Num(At(events, j).acked, m.id));
    }
  }

  lemma ReplyAcks(w: World, e: Event)
    requires e.Reply? && e.mutation in w.mutations
    requires e.success || w.mutations[e.mutation].kind.Reassign? || w.mutations[e.mutation].kind.Drop?
    ensures var m := w.mutations[e.mutation]; m.version <= Num(Step(w, e).acked, m.id)
  {
    hide Delete, KeyOf;
  }

  /** A mutation gets its own version of the deployment: newer than any before, and the server's current one. */
  lemma MutationIsNew(w: World, kind: MutationKind, id: string)
    ensures var t := Step(w, Mutate(kind, id));
      && w.nextMutation in t.mutations
      && t.mutations[w.nextMutation] == Mutation(kind, id, Num(t.server, id))
      && Num(w.server, id) < Num(t.server, id)
      && t.cache == w.cache
  {
  }

  /** No answer is newer than the server. */
  ghost predicate Real(w: World) {
    && (forall f :: f in w.fetches ==> AnswerReal(w.server, w.fetches[f].answer))
    && (forall k :: k in w.cache.store ==> AnswerReal(w.server, Some(w.cache.store[k].value)))
  }

  ghost predicate AnswerReal(server: map<string, nat>, answer: Option<Info>) {
    answer.Some? ==> answer.value.version <= Num(server, answer.value.id)
  }

  /** Real answers stay real while the server moves forward, and so do entries and fetches taken over. */
  lemma StaysReal(w: World, t: World)
    requires Real(w) && forall id :: Num(w.server, id) <= Num(t.server, id)
    requires forall k :: k in t.cache.store ==>
      (k in w.cache.store && t.cache.store[k] == w.cache.store[k]) || AnswerReal(w.server, Some(t.cache.store[k].value))
    requires forall f :: f in t.fetches ==>
      (f in w.fetches && t.fetches[f].answer == w.fetches[f].answer) || AnswerReal(w.server, t.fetches[f].answer)
    ensures Real(t)
  {
    hide Num;
    forall a | AnswerReal(w.server, a) ensures AnswerReal(t.server, a) {
      if a.Some? { assert Num(w.server, a.value.id) <= Num(t.server, a.value.id); }
    }
    hide AnswerReal;
  }

  lemma SettleReal(w: World, f: nat, ok: bool)
    requires Real(w)
    ensures Real(Step(w, Settle(f, ok)))
  {
    hide AfterSettle, KeyOf, Num, AnswerReal;
    var t := Step(w, Settle(f, ok));
    if f in w.fetches {
      var g := w.fetches[f];
      SettleKeeps(w.cache, LIMITS, KeyOf(g.id), f, g.generation, if ok then g.answer else None, w.now);
    }
    StaysReal(w, t);
  }

  lemma ReadReal(w: World, id: string)
    requires Real(w)
    ensures Real(Step(w, Read(id)))
  {
    hide AfterFind, KeyOf, Num, AnswerReal;
    FindKeeps(w.cache, KeyOf(id), w.now, w.nextPromise);
    FreshFetchReal(w.server);
    StaysReal(w, Step(w, Read(id)));
  }

  lemma StepReal(w: World, e: Event)
    requires Real(w)
    ensures Real(Step(w, e))
  {
    hide KeyOf, Delete, AnswerReal;
    match e
    case Read(id) => ReadReal(w, id);
    case Settle(f, ok) => SettleReal(w, f, ok);
    case Reply(m, _) =>
      if m in w.mutations { DeleteKeeps(w.cache, KeyOf(w.mutations[m].id)); }
      StaysReal(w, Step(w, e));
    case Answer(f) =>
      if f in w.fetches { AnsweredReal(w.server, w.fetches[f].id); }
      StaysReal(w, Step(w, e));
    case _ => StaysReal(w, Step(w, e));
  }

  lemma FreshFetchReal(server: map<string, nat>)
    ensures AnswerReal(server, None)
  {
  }

  lemma AnsweredReal(server: map<string, nat>, id: string)
    ensures AnswerReal(server, Some(Info(id, Num(server, id))))
  {
  }

  /** What a reader is delivered is a state the server has really had. */
  lemma {:induction false} DeliveredReal(events: seq<Event>, i: nat)
    requires i <= |events|
    ensures Real(At(events, i))
    ensures i < |events| ==> AnswerReal(At(events, i).server, Delivered(At(events, i), events[i]))
  {
    hide Step, AnswerReal;
    if i != 0 {
      DeliveredReal(events, i - 1);
      AtNext(events, i - 1);
      StepReal(At(events, i - 1), events[i - 1]);
    }
    FreshFetchReal(At(events, i).server);
  }

  /** A reply without success to any other mutation leaves the cache as it is. */
  lemma FailedReplyKeeps(w: World, m: nat)
    requires m in w.mutations
    requires var kind := w.mutations[m].kind; kind.Pause? || kind.Resume? || kind.Unassign? || kind.Restart? || kind.Rewind?
    ensures var t := Step(w, Reply(m, false));
      t.cache == w.cache && t.fetches == w.fetches && t.acked == w.acked && t.mutations == w.mutations - {m}
  {
  }

  /** An acknowledged mutation's entry and slot are gone at once, and other entries stay. */
  lemma ReplyInvalidates(w: World, m: nat)
    requires m in w.mutations
    ensures var (k, t) := (KeyOf(w.mutations[m].id), Step(w, Reply(m, true)));
      && k !in t.cache.store && k !in t.cache.inflight
      && (forall j :: j in w.cache.store && j != k ==> j in t.cache.store && t.cache.store[j] == w.cache.store[j])
  {
    hide KeyOf;
  }

  /** Two ids share a key exactly when they agree up to the case of the letters A to Z. */
  lemma KeyOfIff(a: string, b: string)
    ensures KeyOf(a) == KeyOf(b) <==>
      |a| == |b| && forall i :: 0 <= i < |a| ==>
        a[i] == b[i] || ('A' <= a[i] <= 'Z' && b[i] as int == a[i] as int + 32)
                     || ('A' <= b[i] <= 'Z' && a[i] as int == b[i] as int + 32)
  {
    if KeyOf(a) == KeyOf(b) {
      assert |KeyOf(a)| == |KeyOf(b)|;
      forall i | 0 <= i < |a| ensures LowerChar(a[i]) == LowerChar(b[i]) { assert KeyOf(a)[i] == KeyOf(b)[i]; }
    }
  }

  /** A delivered answer is served from the store for five minutes, and not longer. */
  lemma InfoLives(w: World, f: nat, later: int)
    requires f in w.fetches && w.fetches[f].answer.Some?
    requires w.fetches[f].generation == CurrentGeneration(w.cache, KeyOf(w.fetches[f].id))
    ensures var (g, t) := (w.fetches[f], Step(w, Settle(f, true)));
      Delivered(t.(now := later), Read(g.id)) == if later < w.now + 300_000 then g.answer else None
  {
    hide KeyOf;
    SettleServes(w.cache, LIMITS, KeyOf(w.fetches[f].id), f, w.fetches[f].generation, w.fetches[f].answer.value, w.now, later);
  }

  lemma FirstRead(a: string)
    ensures var w := Step(Init(), Read(a));
      && w.fetches == map[0 := Fetch(a, 0, None)] && w.now == 0 && w.server == map[]
      && w.cache == Conf(map[], [], map[KeyOf(a) := Slot(0, 0)], map[])
  {
    hide KeyOf;
  }

  /** Ids that agree up to case share a cache entry: the second reader gets the first deployment's state. */
  lemma CollisionServesOther(a: string, b: string)
    requires a != b && KeyOf(a) == KeyOf(b)
    ensures var w := Step(Step(Step(Init(), Read(a)), Answer(0)), Settle(0, true));
      Delivered(w, Read(b)) == Some(Info(a, 0))
  {
    hide KeyOf, AfterSettle, Fresh;
    var k, w1 := KeyOf(a), Step(Init(), Read(a));
    FirstRead(a);
    var w2 := Step(w1, Answer(0));
    assert w2.fetches == map[0 := Fetch(a, 0, Some(Info(a, 0)))] && w2.cache == w1.cache && w2.now == 0;
    var w3 := Step(w2, Settle(0, true));
    SettledEntry(w2.cache, k, Info(a, 0));
    assert w3.now == 0;
  }

  lemma SettledEntry(c: Conf<string, Info>, k: string, v: Info)
    requires c == Conf(map[], [], map[k := Slot(0, 0)], map[])
    ensures Fresh(AfterSettle(c, LIMITS, k, 0, 0, Some(v), 0), k, 0) == Some(v)
  {
  }
}
