/** Sums and counts over sequences, with the effect of a one-element update. */
module Sums {

  function Sum(s: seq<nat>): nat
  {
    if s == [] then 0 else Sum(s[..|s| - 1]) + s[|s| - 1]
  }

  function Count(s: seq<bool>): (c: nat)
    ensures c <= |s|
  {
    if s == [] then 0 else Count(s[..|s| - 1]) + (if s[|s| - 1] then 1 else 0)
  }

  lemma {:induction false} SumUpdate(s: seq<nat>, i: nat, v: nat)
    requires i < |s|
    ensures Sum(s[i := v]) == Sum(s) - s[i] + v
  {
    var n := |s| - 1;
    if i == n {
      assert s[i := v][..n] == s[..n];
    } else {
      assert s[i := v][..n] == s[..n][i := v];
      SumUpdate(s[..n], i, v);
    }
  }

  lemma {:induction false} CountUpdate(s: seq<bool>, i: nat, v: bool)
    requires i < |s|
    ensures Count(s[i := v]) == Count(s) - (if s[i] then 1 else 0) + (if v then 1 else 0)
  {
    var n := |s| - 1;
    if i == n {
      assert s[i := v][..n] == s[..n];
    } else {
      assert s[i := v][..n] == s[..n][i := v];
      CountUpdate(s[..n], i, v);
    }
  }

  lemma {:induction false} SumMono(s: seq<nat>, t: seq<nat>)
    requires |s| == |t| && forall i :: 0 <= i < |s| ==> s[i] <= t[i]
    ensures Sum(s) <= Sum(t)
  {
    if s != [] {
      SumMono(s[..|s| - 1], t[..|t| - 1]);
    }
  }

  lemma {:induction false} SumAdd(s: seq<nat>, t: seq<nat>, u: seq<nat>)
    requires |s| == |t| == |u| && forall i :: 0 <= i < |s| ==> u[i] == s[i] + t[i]
    ensures Sum(u) == Sum(s) + Sum(t)
  {
    if s != [] {
      var n := |s| - 1;
      SumAdd(s[..n], t[..n], u[..n]);
    }
  }

  lemma {:induction false} SumZero(s: seq<nat>)
    requires forall i :: 0 <= i < |s| ==> s[i] == 0
    ensures Sum(s) == 0
  {
    if s != [] { SumZero(s[..|s| - 1]); }
  }

  lemma {:induction false} SumElement(s: seq<nat>, i: nat)
    requires i < |s|
    ensures s[i] <= Sum(s)
  {
    SumUpdate(s, i, 0);
  }

  lemma {:induction false} CountMono(s: seq<bool>, t: seq<bool>)
    requires |s| == |t| && forall i :: 0 <= i < |s| && s[i] ==> t[i]
    ensures Count(s) <= Count(t)
  {
    if s != [] {
      CountMono(s[..|s| - 1], t[..|t| - 1]);
    }
  }

  lemma {:induction false} CountStrict(s: seq<bool>, t: seq<bool>, i: nat)
    requires |s| == |t| && forall k :: 0 <= k < |s| && s[k] ==> t[k]
    requires i < |s| && !s[i] && t[i]
    ensures Count(s) + 1 <= Count(t)
  {
    CountUpdate(s, i, true);
    CountMono(s[i := true], t);
  }

  lemma {:induction false} CountAll(s: seq<bool>)
    ensures Count(s) == |s| <==> forall i :: 0 <= i < |s| ==> s[i]
    ensures Count(s) == 0 <==> forall i :: 0 <= i < |s| ==> !s[i]
  {
    if s != [] {
      var n := |s| - 1;
      CountAll(s[..n]);
      assert forall i :: 0 <= i < n ==> s[..n][i] == s[i];
    }
  }
}
