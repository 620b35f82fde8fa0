/**
 What lowercasing the cache key costs: readers are always served their own deployment
 exactly when no two of the ids in use agree up to case, and valid ids can agree.
 */
module IdCase {
  import opened Arithmetic
  import opened Digits
  import opened Options
  import opened Base58
  import opened Ipfs
  import opened Graphman

  ghost predicate OnlyMentions(events: seq<Event>, ids: set<string>) {
    forall i :: 0 <= i < |events| ==> Mentions(events[i], ids)
  }

  /** What the read at j is served at once, or by the fetch it awaits when that settles at l, is its own deployment. */
  ghost predicate OwnAnswer(events: seq<Event>, j: nat, l: nat)
    requires j <= l < |events| && events[j].Read?
  {
    var (w, id) := (At(events, j), events[j].id);
    && IsAbout(Delivered(w, events[j]), id)
    && (AwaitsUntil(events, j, l) ==> IsAbout(Delivered(At(events, l), events[l]), id))
  }

  predicate IsAbout(answer: Option<Info>, id: string) {
    answer.Some? ==> answer.value.id == id
  }

  /** The read at j awaits a fetch that settles at l. */
  ghost predicate AwaitsUntil(events: seq<Event>, j: nat, l: nat)
    requires j <= l < |events| && events[j].Read?
  {
    && j < l && events[l].Settle?
    && Delivered(At(events, j), events[j]).None?
    && Awaited(At(events, j), events[j].id) == Some(events[l].fetch)
  }

  /** In every run over these ids every reader is served its own deployment. */
  ghost predicate ServesOwn(ids: set<string>) {
    forall events: seq<Event>, j: nat, l: nat ::
      OnlyMentions(events, ids) && j <= l < |events| && events[j].Read? ==> OwnAnswer(events, j, l)
  }

  lemma DistinctServeOwn(events: seq<Event>, ids: set<string>, j: nat, l: nat)
    requires Within(events, ids) && j <= l < |events| && events[j].Read?
    ensures OwnAnswer(events, j, l)
  {
    hide Step, Inv, Delivered, Awaited, Run, Owes;
    var id, w := events[j].id, At(events, j);
    assert Mentions(events[j], ids);
    RunInv(events, j, ids);
    ReadCovered(w, id, ids);
    AtNext(events, j);
    if AwaitsUntil(events, j, l) {
      var p, v := events[l].fetch, Num(w.acked, id);
      OwesRun(events, j + 1, l, p, id, v);
      RunInv(events, l, ids);
      SettledCovered(At(events, l), p, events[l].ok, ids, id, v);
    }
  }

  /** Two ids that agree up to case: read one, let its fetch settle, read the other. */
  lemma CollidingRun(a: string, b: string)
    requires a != b && KeyOf(a) == KeyOf(b)
    ensures !OwnAnswer([Read(a), Answer(0), Settle(0, true), Read(b)], 3, 3)
  {
    hide Step, Delivered, KeyOf;
    var events := [Read(a), Answer(0), Settle(0, true), Read(b)];
    assert events[..0] == [];
    AtNext(events, 0);
    AtNext(events, 1);
    AtNext(events, 2);
    CollisionServesOther(a, b);
  }

  /** The exact condition on the ids in use. */
  lemma ServesOwnIff(ids: set<string>)
    ensures ServesOwn(ids) <==> CaseDistinct(ids)
  {
    hide OwnAnswer, KeyOf;
    if CaseDistinct(ids) {
      forall events: seq<Event>, j: nat, l: nat | OnlyMentions(events, ids) && j <= l < |events| && events[j].Read?
        ensures OwnAnswer(events, j, l)
      {
        DistinctServeOwn(events, ids, j, l);
      }
    } else {
      var a, b :| a in ids && b in ids && KeyOf(a) == KeyOf(b) && a != b;
      CollidingRun(a, b);
      assert OnlyMentions([Read(a), Answer(0), Settle(0, true), Read(b)], ids);
    }
  }

  // ---------------------------------------------------------------------------
  // Two deployment ids that agree up to case
  // ---------------------------------------------------------------------------

  /** 58^43 */
  const P43: nat := 6720533081161609950612561534326096425053356165724989121353049538245544640512

  /** "Qm", 43 times 'Z', and one more character. */
  function ZId(c: char): string {
    "Qm" + seq(43, _ => 'Z') + [c]
  }

  lemma ThreeDigits(b: nat)
    requires b == 58
    ensures Value(b, [23, 44, 32]) == 79956
  {
    var three := [23, 44, 32];
    assert three[..2] == [23, 44];
    ValueOfTwo(b, 23, 44);
    MulIs(b, 23);
    MulIs(b, 1378);
  }

  lemma PowerOf58(b: nat)
    requires b == 58
    ensures Pow(b, 43) == P43
  {
    PowersOf58(b);
    assert Pow(b, 44) == Mul(b, Pow(b, 43));
    MulIs(b, Pow(b, 43));
  }

  /** Whatever the last character, the number is in the range of the multihash header. */
  lemma ZIdConverts(c: char)
    requires IsBase58Char(c)
    ensures IsQm(ZId(c)) && ToBytes32(ZId(c)).Some?
  {
    hide Pow, Value, ToBytes32;
    var s := ZId(c);
    assert s[2..] == seq(43, _ => 'Z') + [c];
    QmDigits(s);
    var ds := Indices(s);
    assert ds[..3] == [23, 44, 32];
    assert ds == ds[..3] + ds[3..];
    ValueConcat(58, ds[..3], ds[3..]);
    ValueBelow(58, ds[3..]);
    ThreeDigits(58);
    PowerOf58(58);
    MulIs(79956, P43);
    ToBytes32Iff(s);
  }

  /** Two ids of real deployments, both convertible, under one cache key. */
  lemma QmIdsCollide()
    ensures var (a, b) := (ZId('A'), ZId('a'));
      && IsQm(a) && IsQm(b) && ToBytes32(a).Some? && ToBytes32(b).Some?
      && a != b && KeyOf(a) == KeyOf(b)
      && !ServesOwn({a, b})
  {
    hide ToBytes32, IsQm;
    var a, b := ZId('A'), ZId('a');
    ZIdConverts('A');
    ZIdConverts('a');
    assert a[45] != b[45];
    forall i | 0 <= i < 46 ensures KeyOf(a)[i] == KeyOf(b)[i] {}
    assert KeyOf(a) == KeyOf(b);
    ServesOwnIff({a, b});
  }
}
