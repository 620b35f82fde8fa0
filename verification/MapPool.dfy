/**
 The concurrency-bounded map: workers that pull from one shared index until it runs past
 the end, or until they meet an undefined item. Pulling is one step; calls finish or
 reject in any order.
 */
module MapPool {
  import opened Arithmetic
  import opened Options
  import opened Sums

  datatype Worker = Ready | Running(item: nat) | Returned | Failed(item: nat)

  /** `started` lists the calls of fn in order, `finished` the items whose call fulfilled. */
  datatype Pool = Pool(nextIndex: nat, workers: seq<Worker>, started: seq<nat>, finished: set<nat>)

  datatype Event = Pull(w: nat) | Finish(w: nat) | Reject(w: nat)

  function Width(concurrency: int, n: nat): nat {
    if n == 0 then 0 else if concurrency < 1 then 1 else if concurrency < n then concurrency else n
  }

  function Start(concurrency: int, n: nat): Pool {
    Pool(0, seq(Width(concurrency, n), _ => Ready), [], {})
  }

  predicate Enabled(p: Pool, e: Event) {
    && e.w < |p.workers|
    && match e
       case Pull(w) => p.workers[w].Ready?
       case _ => p.workers[e.w].Running?
  }

  function Step<T>(items: seq<Option<T>>, p: Pool, e: Event): Pool
    requires Enabled(p, e)
  {
    match e
    case Pull(w) =>
      var i := p.nextIndex;
      var q := p.(nextIndex := i + 1);
      if i >= |items| || items[i].None? then q.(workers := p.workers[w := Returned])
      else q.(workers := p.workers[w := Running(i)], started := p.started + [i])
    case Finish(w) =>
      p.(workers := p.workers[w := Ready], finished := p.finished + {p.workers[w].item})
    case Reject(w) =>
      p.(workers := p.workers[w := Failed(p.workers[w].item)])
  }

  predicate Possible<T>(items: seq<Option<T>>, p: Pool, events: seq<Event>)
    decreases |events|
  {
    events == [] || (Enabled(p, events[0]) && Possible(items, Step(items, p, events[0]), events[1..]))
  }

  function Run<T>(items: seq<Option<T>>, p: Pool, events: seq<Event>): Pool
    requires Possible(items, p, events)
    decreases |events|
  {
    if events == [] then p else Run(items, Step(items, p, events[0]), events[1..])
  }

  // ---------------------------------------------------------------------------
  // The items below an index
  // ---------------------------------------------------------------------------

  function DefinedBelow<T>(items: seq<Option<T>>, k: nat): seq<nat>
    requires k <= |items|
  {
    if k == 0 then [] else DefinedBelow(items, k - 1) + if items[k - 1].Some? then [k - 1] else []
  }

  function UndefinedBelow<T>(items: seq<Option<T>>, k: nat): nat
    requires k <= |items|
  {
    if k == 0 then 0 else UndefinedBelow(items, k - 1) + if items[k - 1].None? then 1 else 0
  }

  lemma {:induction false} DefinedIncreases<T>(items: seq<Option<T>>, k: nat)
    requires k <= |items|
    ensures var s := DefinedBelow(items, k);
      && (forall a, b :: 0 <= a < b < |s| ==> s[a] < s[b])
      && (forall i :: i in s <==> 0 <= i < k && items[i].Some?)
  {
    if k > 0 {
      DefinedIncreases(items, k - 1);
      var s := DefinedBelow(items, k - 1);
      assert forall a :: 0 <= a < |s| ==> s[a] in s;
    }
  }

  lemma {:induction false} UndefinedMono<T>(items: seq<Option<T>>, i: nat, k: nat)
    requires i <= k <= |items|
    ensures UndefinedBelow(items, i) <= UndefinedBelow(items, k)
    decreases k
  {
    if i < k { UndefinedMono(items, i, k - 1); }
  }

  // ---------------------------------------------------------------------------
  // The invariant
  // ---------------------------------------------------------------------------

  function ReturnedFlags(workers: seq<Worker>): seq<bool> {
    seq(|workers|, i requires 0 <= i < |workers| => workers[i].Returned?)
  }

  /** The item a worker is on or failed at. */
  predicate Holds(w: Worker, i: nat) {
    (w.Running? || w.Failed?) && w.item == i
  }

  function Reached<T>(items: seq<Option<T>>, p: Pool): (k: nat)
    ensures k <= |items|
  {
    if p.nextIndex < |items| then p.nextIndex else |items|
  }

  /** The pulls so far: in order, and each worker that returned accounts for one of them. */
  ghost predicate Pulled<T>(items: seq<Option<T>>, p: Pool) {
    var k := Reached(items, p);
    && p.started == DefinedBelow(items, k)
    && Count(ReturnedFlags(p.workers)) == UndefinedBelow(items, k) + p.nextIndex - k
    && (forall i :: 0 <= i < k ==> UndefinedBelow(items, i) < |p.workers|)
  }

  /** An item that was started is finished or with one worker. */
  ghost predicate Owned<T>(items: seq<Option<T>>, p: Pool) {
    var k := Reached(items, p);
    && (forall i :: i in p.finished ==> i < k && items[i].Some?)
    && (forall w :: 0 <= w < |p.workers| && (p.workers[w].Running? || p.workers[w].Failed?) ==>
          p.workers[w].item < k && items[p.workers[w].item].Some? && p.workers[w].item !in p.finished)
    && (forall v, w, i :: 0 <= v < w < |p.workers| && Holds(p.workers[v], i) ==> !Holds(p.workers[w], i))
    && (forall i :: 0 <= i < k && items[i].Some? && i !in p.finished ==>
          exists w :: 0 <= w < |p.workers| && Holds(p.workers[w], i))
  }

  ghost predicate Inv<T>(items: seq<Option<T>>, p: Pool) {
    Pulled(items, p) && Owned(items, p)
  }

  lemma StartInv<T>(items: seq<Option<T>>, concurrency: int)
    ensures Inv(items, Start(concurrency, |items|))
  {
    CountAll(ReturnedFlags(Start(concurrency, |items|).workers));
  }

  lemma FlagsUpdate(workers: seq<Worker>, w: nat, to: Worker)
    requires w < |workers| && !workers[w].Returned?
    ensures Count(ReturnedFlags(workers[w := to])) == Count(ReturnedFlags(workers)) + if to.Returned? then 1 else 0
    ensures Count(ReturnedFlags(workers)) < |workers|
  {
    var f := ReturnedFlags(workers);
    CountUpdate(f, w, to.Returned?);
    assert ReturnedFlags(workers[w := to]) == f[w := to.Returned?];
    CountAll(f);
    assert !f[w];
  }

  lemma StepPulled<T>(items: seq<Option<T>>, p: Pool, e: Event)
    requires Inv(items, p) && Enabled(p, e)
    ensures Pulled(items, Step(items, p, e))
  {
    hide Owned, ReturnedFlags;
    FlagsUpdate(p.workers, e.w, Step(items, p, e).workers[e.w]);
    assert Step(items, p, e).workers == p.workers[e.w := Step(items, p, e).workers[e.w]];
  }

  lemma StepOwned<T>(items: seq<Option<T>>, p: Pool, e: Event)
    requires Inv(items, p) && Enabled(p, e)
    ensures Owned(items, Step(items, p, e))
  {
    hide Pulled;
    var q := Step(items, p, e);
    forall i | 0 <= i < Reached(items, q) && items[i].Some? && i !in q.finished
      ensures exists w :: 0 <= w < |q.workers| && Holds(q.workers[w], i)
    {
      if i < Reached(items, p) {
        var w :| 0 <= w < |p.workers| && Holds(p.workers[w], i);
        assert Holds(q.workers[w], i);
      } else {
        assert Holds(q.workers[e.w], i);
      }
    }
  }

  lemma {:induction false} RunInv<T>(items: seq<Option<T>>, p: Pool, events: seq<Event>)
    requires Inv(items, p) && Possible(items, p, events)
    ensures Inv(items, Run(items, p, events)) && |Run(items, p, events).workers| == |p.workers|
    decreases |events|
  {
    if events != [] {
      StepPulled(items, p, events[0]);
      StepOwned(items, p, events[0]);
      RunInv(items, Step(items, p, events[0]), events[1..]);
    }
  }

  // ---------------------------------------------------------------------------
  // Every interleaving
  // ---------------------------------------------------------------------------

  function InFlight(p: Pool): set<nat> {
    set w | 0 <= w < |p.workers| && p.workers[w].Running? :: p.workers[w].item
  }

  lemma {:induction false} InFlightBound(p: Pool)
    ensures |InFlight(p)| <= |p.workers|
    decreases |p.workers|
  {
    if p.workers != [] {
      var n := |p.workers| - 1;
      var q := p.(workers := p.workers[..n]);
      InFlightBound(q);
      var last := if p.workers[n].Running? then {p.workers[n].item} else {};
      forall i ensures i in InFlight(p) <==> i in InFlight(q) + last {
        if i in InFlight(p) {
          var w :| 0 <= w <= n && p.workers[w].Running? && p.workers[w].item == i;
          assert w < n ==> q.workers[w] == p.workers[w];
        }
        if i in InFlight(q) {
          var w :| 0 <= w < n && q.workers[w].Running? && q.workers[w].item == i;
          assert p.workers[w].item == i;
        }
      }
      assert InFlight(p) == InFlight(q) + last;
    }
  }

  /** Items start in order, none twice, and no more than the width are in flight. */
  lemma NeverTwice<T>(items: seq<Option<T>>, concurrency: int, events: seq<Event>)
    requires Possible(items, Start(concurrency, |items|), events)
    ensures var p := Run(items, Start(concurrency, |items|), events);
      && (forall a, b :: 0 <= a < b < |p.started| ==> p.started[a] < p.started[b])
      && (forall i :: i in p.started ==> i < |items| && items[i].Some?)
      && |InFlight(p)| <= |p.workers|
      && |p.workers| == if |items| == 0 then 0 else Min(Max(1, concurrency), |items|)
  {
    var p := Run(items, Start(concurrency, |items|), events);
    StartInv(items, concurrency);
    RunInv(items, Start(concurrency, |items|), events);
    DefinedIncreases(items, Reached(items, p));
    InFlightBound(p);
  }

  /** When every worker has returned, the shared index says how far they got. */
  lemma AllReturned<T>(items: seq<Option<T>>, p: Pool)
    requires Inv(items, p) && forall w :: 0 <= w < |p.workers| ==> p.workers[w].Returned?
    ensures forall i :: 0 <= i < |items| ==> (i < Reached(items, p) <==> UndefinedBelow(items, i) < |p.workers|)
    ensures forall i :: i in p.finished <==> 0 <= i < Reached(items, p) && items[i].Some?
  {
    CountAll(ReturnedFlags(p.workers));
    var k := Reached(items, p);
    forall i | 0 <= i < |items| ensures i < k <==> UndefinedBelow(items, i) < |p.workers| {
      if k <= i { UndefinedMono(items, k, i); }
    }
  }

  /**
   If no call rejects, the items processed do not depend on the interleaving: a defined
   item is processed exactly when fewer undefined items than workers stand before it.
   */
  lemma CompletedExactly<T>(items: seq<Option<T>>, concurrency: int, events: seq<Event>)
    requires Possible(items, Start(concurrency, |items|), events)
    requires var p := Run(items, Start(concurrency, |items|), events);
      forall w :: 0 <= w < |p.workers| ==> p.workers[w].Returned?
    ensures var p := Run(items, Start(concurrency, |items|), events);
      p.finished == set i | 0 <= i < |items| && items[i].Some? && UndefinedBelow(items, i) < Width(concurrency, |items|)
  {
    StartInv(items, concurrency);
    RunInv(items, Start(concurrency, |items|), events);
    AllReturned(items, Run(items, Start(concurrency, |items|), events));
  }

  /** In particular nothing is left out when no item is undefined. */
  lemma NothingLeftOut<T>(items: seq<Option<T>>, concurrency: int, events: seq<Event>)
    requires forall i :: 0 <= i < |items| ==> items[i].Some?
    requires Possible(items, Start(concurrency, |items|), events)
    requires var p := Run(items, Start(concurrency, |items|), events);
      forall w :: 0 <= w < |p.workers| ==> p.workers[w].Returned?
    ensures forall i :: 0 <= i < |items| ==> i in Run(items, Start(concurrency, |items|), events).finished
  {
    CompletedExactly(items, concurrency, events);
    forall i | 0 <= i < |items| ensures UndefinedBelow(items, i) == 0 { NoneUndefined(items, i); }
  }

  lemma {:induction false} NoneUndefined<T>(items: seq<Option<T>>, k: nat)
    requires k <= |items| && forall i :: 0 <= i < |items| ==> items[i].Some?
    ensures UndefinedBelow(items, k) == 0
  {
    if k > 0 { NoneUndefined(items, k - 1); }
  }

  // ---------------------------------------------------------------------------
  // Every run ends
  // ---------------------------------------------------------------------------

  function Load(w: Worker): nat {
    match w case Ready => 1 case Running(_) => 2 case _ => 0
  }

  function Loads(workers: seq<Worker>): seq<nat> {
    seq(|workers|, i requires 0 <= i < |workers| => Load(workers[i]))
  }

  function Remaining<T>(items: seq<Option<T>>, p: Pool): nat {
    2 * (|items| - Reached(items, p)) + Sum(Loads(p.workers))
  }

  lemma StepEnds<T>(items: seq<Option<T>>, p: Pool, e: Event)
    requires Enabled(p, e)
    ensures Remaining(items, Step(items, p, e)) < Remaining(items, p)
  {
    var q := Step(items, p, e);
    var f := Loads(p.workers);
    SumUpdate(f, e.w, Load(q.workers[e.w]));
    assert Loads(q.workers) == f[e.w := Load(q.workers[e.w])];
  }

  lemma {:induction false} StartLoad(n: nat)
    ensures Sum(Loads(seq(n, _ => Ready))) == n
  {
    if n > 0 {
      StartLoad(n - 1);
      assert Loads(seq(n, _ => Ready))[..n - 1] == Loads(seq(n - 1, _ => Ready));
    }
  }

  lemma {:induction false} RunLength<T>(items: seq<Option<T>>, p: Pool, events: seq<Event>)
    requires Possible(items, p, events)
    ensures |events| <= Remaining(items, p)
    decreases |events|
  {
    if events != [] {
      StepEnds(items, p, events[0]);
      RunLength(items, Step(items, p, events[0]), events[1..]);
    }
  }

  /** No run is longer than two steps an item and one a worker. */
  lemma RunsEnd<T>(items: seq<Option<T>>, concurrency: int, events: seq<Event>)
    requires Possible(items, Start(concurrency, |items|), events)
    ensures |events| <= 2 * |items| + Width(concurrency, |items|)
  {
    RunLength(items, Start(concurrency, |items|), events);
    StartLoad(Width(concurrency, |items|));
  }

  /** The pool under any scheduler; `rejects` says which calls fail. */
  method Drive<T>(items: seq<Option<T>>, concurrency: int, rejects: nat -> bool) returns (p: Pool)
    ensures Inv(items, p) && |p.workers| == Width(concurrency, |items|)
    ensures forall w :: 0 <= w < |p.workers| ==> p.workers[w].Returned? || p.workers[w].Failed?
    ensures (forall i :: !rejects(i)) ==>
      p.finished == set i | 0 <= i < |items| && items[i].Some? && UndefinedBelow(items, i) < |p.workers|
  {
    hide Pulled, Owned, Remaining, UndefinedBelow, Width;
    p := Start(concurrency, |items|);
    StartInv(items, concurrency);
    while exists w :: 0 <= w < |p.workers| && (p.workers[w].Ready? || p.workers[w].Running?)
      invariant Inv(items, p) && |p.workers| == Width(concurrency, |items|)
      invariant (forall i :: !rejects(i)) ==> forall w :: 0 <= w < |p.workers| ==> !p.workers[w].Failed?
      decreases Remaining(items, p)
    {
      var w :| 0 <= w < |p.workers| && (p.workers[w].Ready? || p.workers[w].Running?);
      var e := if p.workers[w].Ready? then Pull(w) else if rejects(p.workers[w].item) then Reject(w) else Finish(w);
      StepPulled(items, p, e);
      StepOwned(items, p, e);
      StepEnds(items, p, e);
      p := Step(items, p, e);
    }
    if forall w :: 0 <= w < |p.workers| ==> p.workers[w].Returned? { AllReturned(items, p); }
  }
}
