/**
 Positional notation in any base, most significant digit first: the value of a digit
 sequence, the digits of a value, and why the two undo each other.
 */
module Digits {
  import opened Arithmetic

  predicate IsDigits(b: nat, ds: seq<nat>) {
    forall i :: 0 <= i < |ds| ==> ds[i] < b
  }

  function Value(b: nat, ds: seq<nat>): nat {
    if ds == [] then 0 else Mul(b, Value(b, ds[..|ds| - 1])) + ds[|ds| - 1]
  }

  /** The digits of n without leading zeros; none for 0. */
  function ToDigits(b: nat, n: nat): seq<nat>
    requires 2 <= b
  {
    if n == 0 then [] else
      DivModSplit(n, b);
      ToDigits(b, n / b) + [n % b]
  }

  predicate Canonical(b: nat, ds: seq<nat>) {
    IsDigits(b, ds) && (ds != [] ==> ds[0] != 0)
  }

  function Zeros(k: nat): (z: seq<nat>)
    ensures |z| == k && forall i :: 0 <= i < k ==> z[i] == 0
  {
    seq(k, _ => 0)
  }

  function LeadingZeros(ds: seq<nat>): (k: nat)
    ensures k <= |ds|
    ensures forall i :: 0 <= i < k ==> ds[i] == 0
    ensures k < |ds| ==> ds[k] != 0
  {
    if ds != [] && ds[0] == 0 then 1 + LeadingZeros(ds[1..]) else 0
  }

  lemma {:induction false} ToDigitsValue(b: nat, n: nat)
    requires 2 <= b
    ensures Value(b, ToDigits(b, n)) == n
    ensures Canonical(b, ToDigits(b, n))
  {
    if n != 0 {
      DivModSplit(n, b);
      ToDigitsValue(b, n / b);
      AppendDigit(b, n / b, n % b, ToDigits(b, n / b));
    }
  }

  lemma AppendDigit(b: nat, q: nat, r: nat, hi: seq<nat>)
    requires r < b && Canonical(b, hi) && Value(b, hi) == q && 0 < Mul(b, q) + r
    ensures Canonical(b, hi + [r]) && Value(b, hi + [r]) == Mul(b, q) + r
  {
    assert (hi + [r])[..|hi|] == hi;
  }

  /** Without leading zeros, a digit sequence is determined by its value. */
  lemma {:induction false} ValueToDigits(b: nat, ds: seq<nat>)
    requires 2 <= b && Canonical(b, ds)
    ensures ToDigits(b, Value(b, ds)) == ds
    ensures ds != [] ==> 0 < Value(b, ds)
  {
    if ds != [] {
      var hi, lo := ds[..|ds| - 1], ds[|ds| - 1];
      ValueToDigits(b, hi);
      assert 0 < Value(b, ds);
      DivModOf(b, Value(b, hi), lo);
      assert ds == hi + [lo];
    }
  }

  lemma {:induction false} ValueConcat(b: nat, x: seq<nat>, y: seq<nat>)
    ensures Value(b, x + y) == Mul(Value(b, x), Pow(b, |y|)) + Value(b, y)
  {
    if y == [] {
      assert x + y == x;
      MulIs(Value(b, x), 1);
    } else {
      var hi, lo := y[..|y| - 1], y[|y| - 1];
      ValueConcat(b, x, hi);
      assert (x + y)[..|x + y| - 1] == x + hi;
      ConcatStep(b, Value(b, x), Pow(b, |hi|), Value(b, hi));
    }
  }

  lemma ConcatStep(b: nat, v: nat, p: nat, w: nat)
    ensures Mul(b, Mul(v, p) + w) == Mul(v, Mul(b, p)) + Mul(b, w)
  {
    MulDistributes(b, Mul(v, p), w);
    MulAssociates(b, v, p);
    MulAssociates(v, b, p);
    MulCommutes(b, v);
  }

  lemma {:induction false} ValueZeros(b: nat, k: nat)
    ensures Value(b, Zeros(k)) == 0
  {
    if k != 0 {
      assert Zeros(k)[..k - 1] == Zeros(k - 1);
      ValueZeros(b, k - 1);
      MulIs(b, 0);
    }
  }

  lemma ValueLeading(b: nat, k: nat, ds: seq<nat>)
    ensures Value(b, Zeros(k) + ds) == Value(b, ds)
  {
    ValueConcat(b, Zeros(k), ds);
    ValueZeros(b, k);
    MulIs(0, Pow(b, |ds|));
  }

  lemma ValueTrailing(b: nat, ds: seq<nat>, k: nat)
    ensures Value(b, ds + Zeros(k)) == Mul(Value(b, ds), Pow(b, k))
  {
    ValueConcat(b, ds, Zeros(k));
    ValueZeros(b, k);
  }

  lemma {:induction false} ValueBelow(b: nat, ds: seq<nat>)
    requires 2 <= b && IsDigits(b, ds)
    ensures Value(b, ds) < Pow(b, |ds|)
  {
    if ds != [] {
      var hi := ds[..|ds| - 1];
      ValueBelow(b, hi);
      MulMonotone(b, b, Value(b, hi) + 1, Pow(b, |hi|));
    }
  }

  lemma ValueAtLeast(b: nat, ds: seq<nat>)
    requires 2 <= b && Canonical(b, ds) && ds != []
    ensures Pow(b, |ds| - 1) <= Value(b, ds)
  {
    assert ds == ds[..1] + ds[1..];
    ValueConcat(b, ds[..1], ds[1..]);
    assert ds[..1][..0] == [];
    assert Value(b, ds[..1]) == Mul(b, Value(b, [])) + ds[0];
    MulIs(1, Pow(b, |ds| - 1));
    MulMonotone(1, Value(b, ds[..1]), Pow(b, |ds| - 1), Pow(b, |ds| - 1));
  }

  /** The number of digits is fixed by the power of the base below the value. */
  lemma LengthByValue(b: nat, ds: seq<nat>, k: nat)
    requires 2 <= b && Canonical(b, ds)
    ensures Value(b, ds) < Pow(b, k) <==> |ds| <= k
  {
    ValueBelow(b, ds);
    if |ds| <= k {
      PowMono(b, |ds|, k);
    } else {
      ValueAtLeast(b, ds);
      PowMono(b, k, |ds| - 1);
    }
  }

  lemma LeadingZerosOf(k: nat, ds: seq<nat>)
    requires ds != [] ==> ds[0] != 0
    ensures LeadingZeros(Zeros(k) + ds) == k
  {
    var s := Zeros(k) + ds;
    var z := LeadingZeros(s);
    assert k < |s| ==> s[k] == ds[0];
    assert forall i :: 0 <= i < k ==> s[i] == 0;
  }

  /** Two digits in base b as one digit in base b*b. */
  function PairUp(b: nat, ds: seq<nat>): (ps: seq<nat>)
    requires |ds| % 2 == 0
    ensures |ps| == |ds| / 2
  {
    seq(|ds| / 2, i requires 0 <= i < |ds| / 2 => Mul(b, ds[2 * i]) + ds[2 * i + 1])
  }

  lemma {:induction false} PairUpValue(b: nat, b2: nat, ds: seq<nat>)
    requires b2 == b * b && |ds| % 2 == 0
    ensures Value(b2, PairUp(b, ds)) == Value(b, ds)
  {
    if ds != [] {
      var n := |ds| - 2;
      var front := ds[..n];
      PairUpValue(b, b2, front);
      assert PairUp(b, ds)[..n / 2] == PairUp(b, front);
      assert ds[..n + 1][..n] == front;
      assert ds[..|ds| - 1] == ds[..n + 1];
      TwoDigits(b, b2, Value(b, front), ds[n], ds[n + 1]);
    }
  }

  lemma TwoDigits(b: nat, b2: nat, v: nat, hi: nat, lo: nat)
    requires b2 == b * b
    ensures Mul(b, Mul(b, v) + hi) + lo == Mul(b2, v) + (Mul(b, hi) + lo)
  {
    MulDistributes(b, Mul(b, v), hi);
    MulAssociates(b, b, v);
    MulIs(b, b);
  }

  lemma PairUpCanonical(b: nat, b2: nat, ds: seq<nat>)
    requires 2 <= b && b2 == b * b && |ds| % 2 == 0 && IsDigits(b, ds)
    requires ds != [] ==> ds[0] != 0 || ds[1] != 0
    ensures Canonical(b2, PairUp(b, ds))
  {
    forall i | 0 <= i < |ds| / 2 ensures PairUp(b, ds)[i] < b2 {
      MulIs(b, ds[2 * i]);
      MulMono(ds[2 * i], b - 1, b);
      assert b * (b - 1) == b * b - b;
    }
    if ds != [] && ds[0] != 0 { MulPositive(b, ds[0]); }
  }

  function EvenPadded(t: seq<nat>): (ds: seq<nat>)
    ensures |ds| % 2 == 0
  {
    if |t| % 2 == 1 then [0] + t else t
  }

  /** Digits padded to an even number and paired are the digits in the squared base. */
  lemma PaddedPairUp(b: nat, b2: nat, n: nat)
    requires 2 <= b && b2 == b * b && 2 <= b2
    ensures PairUp(b, EvenPadded(ToDigits(b, n))) == ToDigits(b2, n)
    ensures IsDigits(b, EvenPadded(ToDigits(b, n)))
  {
    hide ToDigits, Value, PairUp;
    var t := ToDigits(b, n);
    var ds := EvenPadded(t);
    ToDigitsValue(b, n);
    assert [0] + t == Zeros(1) + t;
    ValueLeading(b, 1, t);
    PairUpValue(b, b2, ds);
    PairUpCanonical(b, b2, ds);
    ValueToDigits(b2, PairUp(b, ds));
  }

  lemma ValueOfTwo(b: nat, x: nat, y: nat)
    ensures Value(b, [x, y]) == Mul(b, x) + y
  {
    var one, two := [x], [x, y];
    assert two[..|two| - 1] == one && one[..|one| - 1] == [];
    assert Value(b, one) == Mul(b, Value(b, [])) + x;
    MulIs(b, 0);
  }

  lemma TwoDigitsUnique(b: nat, x: nat, y: nat, u: nat, v: nat)
    requires y < b && v < b && Mul(b, x) + y == Mul(b, u) + v
    ensures x == u && y == v
  {
    DivModOf(b, x, y);
    DivModOf(b, u, v);
  }

  /** What the first two digits say about the value. */
  lemma FirstTwo(b: nat, ds: seq<nat>, k: nat)
    requires 2 <= b && IsDigits(b, ds) && |ds| == k + 2
    ensures var t := Mul(b, ds[0]) + ds[1]; Mul(Pow(b, k), t) <= Value(b, ds) < Mul(Pow(b, k), t) + Pow(b, k)
  {
    assert ds == [ds[0], ds[1]] + ds[2..];
    ValueConcat(b, [ds[0], ds[1]], ds[2..]);
    ValueOfTwo(b, ds[0], ds[1]);
    ValueBelow(b, ds[2..]);
    MulCommutes(Mul(b, ds[0]) + ds[1], Pow(b, k));
  }

  /** A number has k+2 digits, the first two being x and y, exactly when it is in one interval. */
  lemma LeadingTwo(b: nat, ds: seq<nat>, k: nat, x: nat, y: nat)
    requires 2 <= b && Canonical(b, ds) && 0 < x < b && y < b
    ensures (|ds| == k + 2 && ds[0] == x && ds[1] == y) <==>
            Mul(Pow(b, k), Mul(b, x) + y) <= Value(b, ds) < Mul(Pow(b, k), Mul(b, x) + y) + Pow(b, k)
  {
    var p, t, v := Pow(b, k), Mul(b, x) + y, Value(b, ds);
    if Mul(p, t) <= v < Mul(p, t) + p { LeadingLength(b, ds, k, x, y); }
    if |ds| == k + 2 {
      FirstTwo(b, ds, k);
      if Mul(p, t) <= v < Mul(p, t) + p {
        DivUniqueMul(v, p, t);
        DivUniqueMul(v, p, Mul(b, ds[0]) + ds[1]);
        TwoDigitsUnique(b, ds[0], ds[1], x, y);
      }
    }
  }

  lemma DivUniqueMul(n: nat, d: nat, q: nat)
    requires 0 < d && Mul(d, q) <= n < Mul(d, q) + d
    ensures n / d == q
  {
    DivModOf(d, q, n - Mul(d, q));
  }

  lemma LeadingLength(b: nat, ds: seq<nat>, k: nat, x: nat, y: nat)
    requires 2 <= b && Canonical(b, ds) && 0 < x < b && y < b
    requires Mul(Pow(b, k), Mul(b, x) + y) <= Value(b, ds) < Mul(Pow(b, k), Mul(b, x) + y) + Pow(b, k)
    ensures |ds| == k + 2
  {
    var p, t := Pow(b, k), Mul(b, x) + y;
    // b*p <= value < b*b*p
    MulIs(b, 1);
    MulMonotone(b, b, 1, x);
    MulMonotone(p, p, b, t);
    MulMonotone(b, b, x + 1, b);
    MulMonotone(p, p, t + 1, Mul(b, b));
    MulCommutes(p, b);
    MulCommutes(p, Mul(b, b));
    MulAssociates(b, b, p);
    assert Pow(b, k + 1) == Mul(b, p);
    assert Pow(b, k + 2) == Mul(b, Pow(b, k + 1));
    LengthByValue(b, ds, k + 1);
    LengthByValue(b, ds, k + 2);
  }
}
