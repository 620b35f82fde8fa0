/**
 The bounded TTL map of the authorizer. The map is the sequence of its entries in
 insertion order, with distinct keys; time is a parameter.
 */
module BoundedTtl {
  import opened Options

  datatype Item<K, V> = Item(key: K, value: V, expiresAt: int)

  predicate Has<K(==), V>(s: seq<Item<K, V>>, k: K) {
    s != [] && (s[0].key == k || Has(s[1..], k))
  }

  function Remove<K(==), V>(s: seq<Item<K, V>>, k: K): (r: seq<Item<K, V>>)
    ensures |r| <= |s|
  {
    if s == [] then [] else (if s[0].key == k then [] else [s[0]]) + Remove(s[1..], k)
  }

  function Lookup<K(==), V>(s: seq<Item<K, V>>, k: K, now: int): Option<V> {
    if s == [] then None
    else if s[0].key == k then (if now < s[0].expiresAt then Some(s[0].value) else None)
    else Lookup(s[1..], k, now)
  }

  /** A read drops the entry it finds expired. */
  function AfterGet<K(==), V>(s: seq<Item<K, V>>, k: K, now: int): seq<Item<K, V>> {
    if Has(s, k) && Lookup(s, k, now).None? then Remove(s, k) else s
  }

  function AfterSet<K(==), V>(s: seq<Item<K, V>>, ttl: int, max: nat, k: K, v: V, now: int): seq<Item<K, V>> {
    Newest(Remove(s, k) + [Item(k, v, now + ttl)], max)
  }

  /** The last `max` entries. */
  function Newest<T>(s: seq<T>, max: nat): seq<T> {
    if |s| <= max then s else s[|s| - max..]
  }

  ghost predicate Distinct<K, V>(s: seq<Item<K, V>>) {
    forall i, j :: 0 <= i < j < |s| ==> s[i].key != s[j].key
  }

  lemma {:induction false} HasIff<K, V>(s: seq<Item<K, V>>, k: K)
    ensures Has(s, k) <==> exists i :: 0 <= i < |s| && s[i].key == k
  {
    if s != [] {
      HasIff(s[1..], k);
      if Has(s[1..], k) {
        var i :| 0 <= i < |s[1..]| && s[1..][i].key == k;
        assert s[i + 1].key == k;
      }
      if i :| 0 <= i < |s| && s[i].key == k {
        assert i == 0 || s[1..][i - 1].key == k;
      }
    }
  }

  lemma {:induction false} RemoveAbsent<K, V>(s: seq<Item<K, V>>, k: K)
    requires !Has(s, k)
    ensures Remove(s, k) == s
  {
    if s != [] { RemoveAbsent(s[1..], k); }
  }

  lemma {:induction false} RemoveConcat<K, V>(a: seq<Item<K, V>>, b: seq<Item<K, V>>, k: K)
    ensures Remove(a + b, k) == Remove(a, k) + Remove(b, k)
    ensures Has(a + b, k) <==> Has(a, k) || Has(b, k)
  {
    if a == [] {
      assert a + b == b;
    } else {
      assert (a + b)[1..] == a[1..] + b && (a + b)[0] == a[0];
      RemoveConcat(a[1..], b, k);
      var head := if a[0].key == k then [] else [a[0]];
      var x, y := Remove(a[1..], k), Remove(b, k);
      assert Remove(a, k) == head + x;
      assert Remove(a + b, k) == head + (x + y) == (head + x) + y;
    }
  }

  lemma {:induction false} RemoveKeeps<K, V>(s: seq<Item<K, V>>, k: K)
    requires Distinct(s)
    ensures Distinct(Remove(s, k)) && !Has(Remove(s, k), k)
    ensures forall x :: x in Remove(s, k) ==> x in s && x.key != k
    ensures |Remove(s, k)| == |s| - if Has(s, k) then 1 else 0
  {
    if s != [] {
      RemoveKeeps(s[1..], k);
      HasIff(s[1..], k);
      if s[0].key == k {
        RemoveAbsent(s[1..], k);
        assert Remove(s, k) == s[1..];
      } else {
        var r := Remove(s[1..], k);
        assert Remove(s, k) == [s[0]] + r;
        assert ([s[0]] + r)[1..] == r;
        forall j | 0 <= j < |r| ensures r[j].key != s[0].key {
          assert r[j] in s[1..];
        }
      }
    }
  }

  lemma AppendDistinct<K, V>(s: seq<Item<K, V>>, e: Item<K, V>)
    requires Distinct(s) && !Has(s, e.key)
    ensures Distinct(s + [e])
  {
    HasIff(s, e.key);
  }

  lemma SetKeepsDistinct<K, V>(s: seq<Item<K, V>>, ttl: int, max: nat, k: K, v: V, now: int)
    requires Distinct(s)
    ensures Distinct(AfterSet(s, ttl, max, k, v, now)) && |AfterSet(s, ttl, max, k, v, now)| <= max
  {
    RemoveKeeps(s, k);
    AppendDistinct(Remove(s, k), Item(k, v, now + ttl));
  }

  lemma GetKeepsDistinct<K, V>(s: seq<Item<K, V>>, k: K, now: int)
    requires Distinct(s)
    ensures Distinct(AfterGet(s, k, now)) && |AfterGet(s, k, now)| <= |s|
  {
    RemoveKeeps(s, k);
  }

  /** What a read returns is stored under the key and has not expired. */
  lemma {:induction false} LookupFinds<K, V>(s: seq<Item<K, V>>, k: K, now: int) returns (x: Item<K, V>)
    requires Lookup(s, k, now).Some?
    ensures x in s && x.key == k && now < x.expiresAt && Lookup(s, k, now) == Some(x.value)
  {
    x := s[0];
    if s[0].key != k { x := LookupFinds(s[1..], k, now); }
  }

  /** Reads only drop entries; writes add one. */
  lemma OnlyOld<K, V>(s: seq<Item<K, V>>, k: K, now: int)
    ensures forall x :: x in AfterGet(s, k, now) ==> x in s
    ensures |AfterGet(s, k, now)| <= |s|
  {
    RemoveOnlyOld(s, k);
  }

  lemma OnlyNew<K, V>(s: seq<Item<K, V>>, ttl: int, max: nat, k: K, v: V, now: int)
    ensures forall x :: x in AfterSet(s, ttl, max, k, v, now) ==> x in s || x == Item(k, v, now + ttl)
    ensures |AfterSet(s, ttl, max, k, v, now)| <= max
  {
    RemoveOnlyOld(s, k);
  }

  lemma {:induction false} RemoveOnlyOld<K, V>(s: seq<Item<K, V>>, k: K)
    ensures forall x :: x in Remove(s, k) ==> x in s
  {
    if s != [] { RemoveOnlyOld(s[1..], k); }
  }

  /** What was written is what is read until the lifetime is over, and nothing afterwards. */
  lemma SetServes<K, V>(s: seq<Item<K, V>>, ttl: int, max: nat, k: K, v: V, now: int, later: int)
    requires 0 < max
    ensures Lookup(AfterSet(s, ttl, max, k, v, now), k, later) == if later < now + ttl then Some(v) else None
  {
    var r, e := Remove(s, k), Item(k, v, now + ttl);
    RemovedIsAbsent(s, k);
    LookupLast(r, e, later);
    var cut := |r| + 1 - max;
    if |r| + 1 > max {
      assert Newest(r + [e], max) == r[cut..] + [e];
      SuffixAbsent(r, k, cut);
      LookupLast(r[cut..], e, later);
    }
  }

  lemma {:induction false} RemovedIsAbsent<K, V>(s: seq<Item<K, V>>, k: K)
    ensures !Has(Remove(s, k), k)
  {
    if s != [] {
      RemovedIsAbsent(s[1..], k);
      if s[0].key == k {
        assert Remove(s, k) == Remove(s[1..], k);
      } else {
        assert Remove(s, k)[1..] == Remove(s[1..], k);
      }
    }
  }

  lemma {:induction false} SuffixAbsent<K, V>(s: seq<Item<K, V>>, k: K, i: nat)
    requires i <= |s| && !Has(s, k)
    ensures !Has(s[i..], k)
  {
    if i > 0 { SuffixAbsent(s[1..], k, i - 1); }
  }

  lemma {:induction false} LookupLast<K, V>(s: seq<Item<K, V>>, e: Item<K, V>, now: int)
    requires !Has(s, e.key)
    ensures Lookup(s + [e], e.key, now) == if now < e.expiresAt then Some(e.value) else None
  {
    if s != [] {
      assert (s + [e])[1..] == s[1..] + [e] && (s + [e])[0] == s[0];
      LookupLast(s[1..], e, now);
    }
  }

  /** A read that finds its entry expired deletes it; any other read changes nothing. */
  lemma GetDrops<K, V>(s: seq<Item<K, V>>, k: K, now: int)
    ensures Lookup(s, k, now).None? ==> !Has(AfterGet(s, k, now), k)
    ensures Lookup(s, k, now).Some? || !Has(s, k) ==> AfterGet(s, k, now) == s
  {
    RemovedIsAbsent(s, k);
  }

  // ---------------------------------------------------------------------------
  // The class
  // ---------------------------------------------------------------------------

  class TtlMap<K(==), V> {
    const ttl: int
    const max: nat
    var store: seq<Item<K, V>>

    ghost predicate Valid()
      reads this
    {
      Distinct(store) && |store| <= max
    }

    constructor (ttl: int, max: nat)
      ensures Valid() && store == [] && this.ttl == ttl && this.max == max
    {
      this.ttl, this.max, store := ttl, max, [];
    }

    method Get(key: K, now: int) returns (value: Option<V>)
      requires Valid()
      modifies this
      ensures Valid() && store == AfterGet(old(store), key, now)
      ensures value == Lookup(old(store), key, now)
    {
      GetKeepsDistinct(store, key, now);
      value := None;
      if !Has(store, key) {
        LookupAbsent(store, key, now);
        return;
      }
      value := Lookup(store, key, now);
      if value.None? { store := Remove(store, key); }
    }

    method Set(key: K, value: V, now: int)
      requires Valid()
      modifies this
      ensures Valid() && store == AfterSet(old(store), ttl, max, key, value, now)
    {
      RemoveKeeps(store, key);
      SetKeepsDistinct(store, ttl, max, key, value, now);
      AppendDistinct(Remove(store, key), Item(key, value, now + ttl));
      store := Remove(store, key);
      store := store + [Item(key, value, now + ttl)];
      if |store| > max {
        OldestOut(store);
        store := Remove(store, store[0].key);
      }
    }

    method Clear()
      modifies this
      ensures Valid() && store == []
    {
      store := [];
    }
  }

  lemma {:induction false} LookupAbsent<K, V>(s: seq<Item<K, V>>, k: K, now: int)
    requires !Has(s, k)
    ensures Lookup(s, k, now) == None
  {
    if s != [] { LookupAbsent(s[1..], k, now); }
  }

  lemma OldestOut<K, V>(s: seq<Item<K, V>>)
    requires Distinct(s) && s != []
    ensures Remove(s, s[0].key) == s[1..]
  {
    HasIff(s[1..], s[0].key);
    RemoveAbsent(s[1..], s[0].key);
  }

  // ---------------------------------------------------------------------------
  // What a run holds
  // ---------------------------------------------------------------------------

  datatype Op<K, V> = Get(key: K, now: int) | Set(key: K, value: V, now: int) | Clear(now: int)

  function Apply<K(==), V>(s: seq<Item<K, V>>, ttl: int, max: nat, op: Op<K, V>): seq<Item<K, V>> {
    match op
    case Get(k, now) => AfterGet(s, k, now)
    case Set(k, v, now) => AfterSet(s, ttl, max, k, v, now)
    case Clear(_) => []
  }

  function Run<K(==), V>(ttl: int, max: nat, ops: seq<Op<K, V>>): seq<Item<K, V>> {
    if ops == [] then [] else Apply(Run(ttl, max, ops[..|ops| - 1]), ttl, max, ops[|ops| - 1])
  }

  /** The last write of every key since the last Clear, oldest first: no bound, no expiry. */
  function Written<K(==), V>(ttl: int, ops: seq<Op<K, V>>): seq<Item<K, V>> {
    if ops == [] then [] else Noted(Written(ttl, ops[..|ops| - 1]), ttl, ops[|ops| - 1])
  }

  function Noted<K(==), V>(w: seq<Item<K, V>>, ttl: int, op: Op<K, V>): seq<Item<K, V>> {
    match op
    case Get(_, _) => w
    case Set(k, v, now) => Remove(w, k) + [Item(k, v, now + ttl)]
    case Clear(_) => []
  }

  /** The clock does not go back, and `now` is not before its last reading. */
  ghost predicate ClockForward<K, V>(ops: seq<Op<K, V>>, now: int) {
    && (forall i, j :: 0 <= i < j < |ops| ==> ops[i].now <= ops[j].now)
    && (forall i :: 0 <= i < |ops| ==> ops[i].now <= now)
  }

  ghost predicate Sorted<K, V>(s: seq<Item<K, V>>) {
    forall i, j :: 0 <= i < j < |s| ==> s[i].expiresAt <= s[j].expiresAt
  }

  ghost predicate Until<K, V>(s: seq<Item<K, V>>, end: int) {
    forall i :: 0 <= i < |s| ==> s[i].expiresAt <= end
  }

  /** In a sorted sequence, the entries that have not expired. */
  function Live<K, V>(s: seq<Item<K, V>>, now: int): seq<Item<K, V>> {
    if s != [] && s[0].expiresAt <= now then Live(s[1..], now) else s
  }

  lemma {:induction false} LiveIs<K, V>(s: seq<Item<K, V>>, now: int)
    requires Sorted(s)
    ensures |Live(s, now)| <= |s| && Live(s, now) == s[|s| - |Live(s, now)|..]
    ensures forall i :: 0 <= i < |s| - |Live(s, now)| ==> s[i].expiresAt <= now
    ensures forall i :: |s| - |Live(s, now)| <= i < |s| ==> now < s[i].expiresAt
  {
    if s != [] && s[0].expiresAt <= now { LiveIs(s[1..], now); }
  }

  lemma {:induction false} LiveRemove<K, V>(s: seq<Item<K, V>>, k: K, now: int)
    requires Sorted(s) && Distinct(s)
    ensures Live(Remove(s, k), now) == Remove(Live(s, now), k)
  {
    if s != [] && s[0].expiresAt <= now {
      LiveRemove(s[1..], k, now);
      if s[0].key != k {
        assert Remove(s, k)[1..] == Remove(s[1..], k);
      } else {
        assert Remove(s, k) == Remove(s[1..], k);
      }
    } else {
      RemoveKeeps(s, k);
      LiveIs(s, now);
      assert forall x :: x in Remove(s, k) ==> now < x.expiresAt;
    }
  }

  lemma {:induction false} LiveAppend<K, V>(s: seq<Item<K, V>>, e: Item<K, V>, now: int)
    requires now < e.expiresAt
    ensures Live(s + [e], now) == Live(s, now) + [e]
  {
    if s != [] && s[0].expiresAt <= now {
      assert (s + [e])[1..] == s[1..] + [e];
      LiveAppend(s[1..], e, now);
    }
  }

  lemma {:induction false} LiveLater<K, V>(s: seq<Item<K, V>>, now: int, later: int)
    requires now <= later
    ensures Live(Live(s, now), later) == Live(s, later)
  {
    if s != [] && s[0].expiresAt <= now { LiveLater(s[1..], now, later); }
  }

  lemma {:induction false} LiveLength<K, V>(s: seq<Item<K, V>>, now: int)
    ensures |Live(s, now)| <= |s|
  {
    if s != [] && s[0].expiresAt <= now { LiveLength(s[1..], now); }
  }

  lemma NewestTail<T>(s: seq<T>, max: nat)
    requires |s| > max
    ensures Newest(s, max) == Newest(s[1..], max)
    ensures max > 0 ==> Newest(s, max)[0] == s[|s| - max]
  {
  }

  /** Dropping the expired first or the surplus first is the same. */
  lemma {:induction false} LiveNewest<K, V>(s: seq<Item<K, V>>, max: nat, now: int)
    requires Sorted(s)
    ensures Live(Newest(s, max), now) == Newest(Live(s, now), max)
  {
    LiveLength(s, now);
    if |s| > max {
      NewestTail(s, max);
      if s[0].expiresAt <= now { LiveNewest(s[1..], max, now); }
    }
  }

  lemma NewestSuffix<T>(x: seq<T>, y: seq<T>, max: nat)
    requires max <= |y|
    ensures Newest(x + y, max) == Newest(y, max)
  {
  }

  /** Writing k into the newest `max` entries of b gives the newest `max` of writing k into b. */
  lemma NewestWrite<K, V>(b: seq<Item<K, V>>, max: nat, e: Item<K, V>)
    requires Distinct(b)
    ensures Newest(Remove(Newest(b, max), e.key) + [e], max) == Newest(Remove(b, e.key) + [e], max)
  {
    hide Remove, Has;
    if |b| > max {
      var p, a := b[..|b| - max], b[|b| - max..];
      assert b == p + a && Newest(b, max) == a;
      RemoveConcat(p, a, e.key);
      RemoveKeeps(a, e.key);
      HasIff(a, e.key);
      HasIff(p, e.key);
      if Has(a, e.key) { RemoveAbsent(p, e.key); }
      NewestSuffix(Remove(p, e.key), Remove(a, e.key) + [e], max);
      assert Remove(p, e.key) + (Remove(a, e.key) + [e]) == Remove(b, e.key) + [e];
    }
  }

  ghost predicate Tidy<K, V>(s: seq<Item<K, V>>, end: int) {
    Distinct(s) && Sorted(s) && Until(s, end)
  }

  lemma RemoveTidy<K, V>(s: seq<Item<K, V>>, k: K, end: int)
    requires Tidy(s, end)
    ensures Tidy(Remove(s, k), end) && !Has(Remove(s, k), k)
  {
    RemoveKeeps(s, k);
    RemoveSorted(s, k);
  }

  lemma SortedTail<K, V>(s: seq<Item<K, V>>)
    requires Sorted(s) && s != []
    ensures Sorted(s[1..]) && forall x :: x in s[1..] ==> s[0].expiresAt <= x.expiresAt
  {
  }

  lemma {:induction false} RemoveSorted<K, V>(s: seq<Item<K, V>>, k: K)
    requires Sorted(s) && Distinct(s)
    ensures Sorted(Remove(s, k))
  {
    if s != [] {
      SortedTail(s);
      RemoveSorted(s[1..], k);
      RemoveKeeps(s[1..], k);
      var r := Remove(s[1..], k);
      forall j | 0 <= j < |r| ensures s[0].expiresAt <= r[j].expiresAt { assert r[j] in r; }
      assert Remove(s, k) == if s[0].key == k then r else [s[0]] + r;
      hide Remove, Distinct;
    }
  }

  lemma WriteTidy<K, V>(s: seq<Item<K, V>>, k: K, v: V, end: int)
    requires Tidy(s, end)
    ensures Tidy(Remove(s, k) + [Item(k, v, end)], end)
  {
    RemoveTidy(s, k, end);
    AppendDistinct(Remove(s, k), Item(k, v, end));
  }

  /** One write, seen through what is live: both sides are the newest of the same write. */
  lemma SetLive<K, V>(s: seq<Item<K, V>>, w: seq<Item<K, V>>, ttl: int, max: nat, k: K, v: V, now: int)
    requires 0 < ttl && Tidy(s, now + ttl) && Tidy(w, now + ttl)
    requires Live(s, now) == Newest(Live(w, now), max)
    ensures Live(AfterSet(s, ttl, max, k, v, now), now)
         == Newest(Live(Remove(w, k) + [Item(k, v, now + ttl)], now), max)
  {
    var e := Item(k, v, now + ttl);
    WriteTidy(s, k, v, now + ttl);
    LiveNewest(Remove(s, k) + [e], max, now);
    LiveAppend(Remove(s, k), e, now);
    LiveRemove(s, k, now);
    LiveAppend(Remove(w, k), e, now);
    LiveRemove(w, k, now);
    LiveIs(w, now);
    NewestWrite(Live(w, now), max, e);
  }

  lemma GetLive<K, V>(s: seq<Item<K, V>>, k: K, now: int)
    requires Distinct(s) && Sorted(s)
    ensures Live(AfterGet(s, k, now), now) == Live(s, now)
  {
    if AfterGet(s, k, now) != s {
      LiveRemove(s, k, now);
      LiveIs(s, now);
      LookupLive(s, k, now);
      if Has(Live(s, now), k) {
        LookupPresent(Live(s, now), k, now);
      }
      RemoveAbsent(Live(s, now), k);
    }
  }

  lemma {:induction false} LookupPresent<K, V>(s: seq<Item<K, V>>, k: K, now: int)
    requires Has(s, k) && forall i :: 0 <= i < |s| ==> now < s[i].expiresAt
    ensures Lookup(s, k, now).Some?
  {
    if s[0].key != k { LookupPresent(s[1..], k, now); }
  }

  /** A lookup sees only what is live. */
  lemma {:induction false} LookupLive<K, V>(s: seq<Item<K, V>>, k: K, now: int)
    requires Distinct(s)
    ensures Lookup(Live(s, now), k, now) == Lookup(s, k, now)
  {
    if s != [] && s[0].expiresAt <= now {
      LookupLive(s[1..], k, now);
      if s[0].key == k {
        HasIff(s[1..], k);
        LookupAbsent(s[1..], k, now);
      }
    }
  }

  lemma {:induction false} RunLive<K, V>(ttl: int, max: nat, ops: seq<Op<K, V>>, now: int)
    requires 0 < ttl && ClockForward(ops, now)
    ensures Tidy(Run(ttl, max, ops), now + ttl) && |Run(ttl, max, ops)| <= max
    ensures Tidy(Written(ttl, ops), now + ttl)
    ensures Live(Run(ttl, max, ops), now) == Newest(Live(Written(ttl, ops), now), max)
  {
    if ops != [] {
      var n := |ops| - 1;
      var op, at := ops[n], ops[n].now;
      var s, w := Run(ttl, max, ops[..n]), Written(ttl, ops[..n]);
      RunLive(ttl, max, ops[..n], at);
      StepLive(s, w, ttl, max, op);
      var s', w' := Run(ttl, max, ops), Written(ttl, ops);
      LiveLater(s', at, now);
      LiveLater(w', at, now);
      LiveIs(w', at);
      LiveNewest(Live(w', at), max, now);
    }
  }

  lemma StepLive<K, V>(s: seq<Item<K, V>>, w: seq<Item<K, V>>, ttl: int, max: nat, op: Op<K, V>)
    requires 0 < ttl && Tidy(s, op.now + ttl) && Tidy(w, op.now + ttl) && |s| <= max
    requires Live(s, op.now) == Newest(Live(w, op.now), max)
    ensures var (s', w') := (Apply(s, ttl, max, op), Noted(w, ttl, op));
      && Tidy(s', op.now + ttl) && |s'| <= max && Tidy(w', op.now + ttl)
      && Live(s', op.now) == Newest(Live(w', op.now), max)
  {
    hide Live, Newest, Remove, AfterGet, AfterSet, Distinct, Sorted, Until;
    match op
    case Get(k, now) =>
      GetTidy(s, k, now, now + ttl);
      GetLive(s, k, now);
    case Set(k, v, now) =>
      SetTidy(s, ttl, max, k, v, now);
      WriteTidy(w, k, v, now + ttl);
      SetLive(s, w, ttl, max, k, v, now);
    case Clear(_) =>
      Nothing<K, V>(max, op.now, op.now + ttl);
  }

  lemma Nothing<K, V>(max: nat, now: int, end: int)
    ensures Tidy<K, V>([], end) && Live<K, V>([], now) == Newest([], max) == []
  {
  }

  lemma GetTidy<K, V>(s: seq<Item<K, V>>, k: K, now: int, end: int)
    requires Tidy(s, end)
    ensures Tidy(AfterGet(s, k, now), end) && |AfterGet(s, k, now)| <= |s|
  {
    RemoveTidy(s, k, end);
  }

  lemma SetTidy<K, V>(s: seq<Item<K, V>>, ttl: int, max: nat, k: K, v: V, now: int)
    requires Tidy(s, now + ttl)
    ensures Tidy(AfterSet(s, ttl, max, k, v, now), now + ttl) && |AfterSet(s, ttl, max, k, v, now)| <= max
  {
    hide Remove;
    WriteTidy(s, k, v, now + ttl);
  }

  /**
   With a clock that never goes back, a lookup answers as if the map held exactly the
   last `max` distinct keys written.
   */
  lemma LookupIsNewestWrites<K, V>(ttl: int, max: nat, ops: seq<Op<K, V>>, k: K, now: int)
    requires 0 < ttl && ClockForward(ops, now)
    ensures |Run(ttl, max, ops)| <= max
    ensures Lookup(Run(ttl, max, ops), k, now) == Lookup(Newest(Written(ttl, ops), max), k, now)
  {
    var s, w := Run(ttl, max, ops), Written(ttl, ops);
    RunLive(ttl, max, ops, now);
    LiveNewest(w, max, now);
    LookupLive(s, k, now);
    LookupLive(Newest(w, max), k, now);
  }

  /** The entry a write evicts is the first to expire of all the entries there were. */
  lemma EvictsEarliestExpiring<K, V>(ttl: int, max: nat, ops: seq<Op<K, V>>, k: K, v: V, now: int)
    requires 0 < ttl && ClockForward(ops, now)
    ensures var (s, t) := (Run(ttl, max, ops), Run(ttl, max, ops + [Set(k, v, now)]));
      forall x, y :: x in s && x.key != k && x !in t && y in t ==> x.expiresAt <= y.expiresAt
  {
    var s, t := Run(ttl, max, ops), Run(ttl, max, ops + [Set(k, v, now)]);
    assert (ops + [Set(k, v, now)])[..|ops|] == ops;
    RunLive(ttl, max, ops, now);
    EvictedFirst(s, t, ttl, max, k, v, now);
  }

  lemma EvictedFirst<K, V>(s: seq<Item<K, V>>, t: seq<Item<K, V>>, ttl: int, max: nat, k: K, v: V, now: int)
    requires Tidy(s, now + ttl) && t == AfterSet(s, ttl, max, k, v, now)
    ensures forall x, y :: x in s && x.key != k && x !in t && y in t ==> x.expiresAt <= y.expiresAt
  {
    hide Remove, Newest;
    WriteTidy(s, k, v, now + ttl);
    var u := Remove(s, k) + [Item(k, v, now + ttl)];
    forall x, y | x in s && x.key != k && x !in t && y in t ensures x.expiresAt <= y.expiresAt {
      StillThere(s, k, x);
      assert x in u;
      var i, j := CutBefore(u, max, x, y);
    }
  }

  /** What the newest leave out stands before what they keep. */
  lemma CutBefore<T>(u: seq<T>, max: nat, x: T, y: T) returns (i: nat, j: nat)
    requires x in u && x !in Newest(u, max) && y in Newest(u, max)
    ensures i < j < |u| && u[i] == x && u[j] == y
  {
    var c := |u| - max;
    i :| i < |u| && u[i] == x;
    forall m | 0 <= m < |u| && c <= m ensures u[m] in Newest(u, max) {
      if c > 0 { assert u[c..][m - c] == u[m]; }
    }
    var k :| 0 <= k < |u[c..]| && u[c..][k] == y;
    j := c + k;
  }

  lemma {:induction false} StillThere<K, V>(s: seq<Item<K, V>>, k: K, x: Item<K, V>)
    requires x in s && x.key != k
    ensures x in Remove(s, k)
  {
    if s[0] != x { StillThere(s[1..], k, x); }
  }
}
