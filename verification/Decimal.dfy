/**
 Decimal strings: the printers and parsers for integers and for fixed-point numbers
 with k fractional digits (18 for GRT amounts, 9 for QoS metrics).
 */
module Decimal {
  import opened Arithmetic
  import opened Digits

  predicate IsDigit(c: char) { '0' <= c <= '9' }

  predicate AllDigits(s: string) {
    forall i :: 0 <= i < |s| ==> IsDigit(s[i])
  }

  function DigitOf(c: char): (d: nat)
    requires IsDigit(c)
    ensures d < 10
  {
    c as int - '0' as int
  }

  function CharOf(d: nat): (c: char)
    requires d < 10
    ensures IsDigit(c) && DigitOf(c) == d
  {
    (d + '0' as int) as char
  }

  function DigitsOf(s: string): (ds: seq<nat>)
    requires AllDigits(s)
    ensures IsDigits(10, ds) && |ds| == |s|
  {
    seq(|s|, i requires 0 <= i < |s| => DigitOf(s[i]))
  }

  function Chars(ds: seq<nat>): (s: string)
    requires IsDigits(10, ds)
    ensures AllDigits(s) && |s| == |ds|
    ensures DigitsOf(s) == ds
  {
    seq(|ds|, i requires 0 <= i < |ds| => CharOf(ds[i]))
  }

  /** BigInt(s) of a digit string; the empty string is 0. */
  function ParseNat(s: string): nat
    requires AllDigits(s)
  {
    Value(10, DigitsOf(s))
  }

  /** n.toString() */
  function PrintNat(n: nat): (s: string)
    ensures AllDigits(s) && s != []
  {
    ToDigitsValue(10, n);
    if n == 0 then "0" else Chars(ToDigits(10, n))
  }

  function ZeroChars(k: nat): (z: string)
    ensures |z| == k && AllDigits(z)
  {
    seq(k, _ => '0')
  }

  function PadStart(s: string, k: nat): string {
    if |s| < k then ZeroChars(k - |s|) + s else s
  }

  function PadEnd(s: string, k: nat): string {
    if |s| < k then s + ZeroChars(k - |s|) else s
  }

  /** 10^k */
  function Unit(k: nat): (u: nat)
    ensures 0 < u
  {
    Pow(10, k)
  }

  /** replace(/0+$/, '') */
  function StripZeros(s: string): (t: string)
    ensures |t| <= |s| && s == t + ZeroChars(|s| - |t|)
    ensures t != [] ==> t[|t| - 1] != '0'
  {
    if s != [] && s[|s| - 1] == '0' then
      var t := StripZeros(s[..|s| - 1]);
      assert s == s[..|s| - 1] + "0";
      t
    else s
  }

  function PrintFixed(k: nat, w: nat): string {
    var unit := Unit(k);
    DivGalois(w, unit, 0);
    var (hi, lo) := (w / unit, w % unit);
    PrintParts(k, hi, lo)
  }

  function PrintParts(k: nat, hi: nat, lo: nat): string {
    if lo == 0 then PrintNat(hi) else PrintNat(hi) + "." + StripZeros(PadStart(PrintNat(lo), k))
  }

  /** Position of the first '.', or the length. */
  function FirstDot(s: string): (d: nat)
    ensures d <= |s|
    ensures forall i :: 0 <= i < d ==> s[i] != '.'
    ensures d < |s| ==> s[d] == '.'
  {
    if s == [] || s[0] == '.' then 0 else 1 + FirstDot(s[1..])
  }

  /** The first two pieces of s.split('.'), the second empty when there is none. */
  function IntPart(s: string): string { s[..FirstDot(s)] }

  function FracPart(s: string): string {
    var d := FirstDot(s);
    if d == |s| then [] else
      var rest := s[d + 1..];
      rest[..FirstDot(rest)]
  }

  /** Integer digits plus a fraction padded or cut to exactly k digits. */
  function ParseParts(k: nat, whole: string, frac: string): nat
    requires AllDigits(whole) && AllDigits(frac)
  {
    Mul(Unit(k), ParseNat(whole)) + ParseNat(PadEnd(frac, k)[..k])
  }

  // ---------------------------------------------------------------------------
  // Integers
  // ---------------------------------------------------------------------------

  ghost predicate CanonicalNat(s: string) {
    s == "0" || (s != [] && AllDigits(s) && s[0] != '0')
  }

  lemma PrintNatCanonical(n: nat)
    ensures CanonicalNat(PrintNat(n))
    ensures ParseNat(PrintNat(n)) == n
  {
    ToDigitsValue(10, n);
    if n == 0 {
      assert DigitsOf("0")[..0] == [];
      assert ParseNat("0") == 0;
    } else {
      assert PrintNat(n)[0] == CharOf(ToDigits(10, n)[0]);
    }
  }

  /** Single digits, as characters. */
  lemma OneDigit(d: nat)
    requires d < 10
    ensures PrintNat(d) == ["0123456789"[d]] && ParseNat(["0123456789"[d]]) == d
  {
    var s := "0123456789";
    assert s[d] == CharOf(d);
    PrintNatCanonical(d);
    if d != 0 {
      assert ToDigits(10, d / 10) == [];
      assert ToDigits(10, d) == [d];
    }
  }

  lemma ParseNatCanonical(s: string)
    requires CanonicalNat(s)
    ensures PrintNat(ParseNat(s)) == s
  {
    if s == "0" {
      PrintNatCanonical(0);
    } else {
      var ds := DigitsOf(s);
      ValueToDigits(10, ds);
      forall i | 0 <= i < |s| ensures Chars(ds)[i] == s[i] {}
      assert Chars(ds) == s;
    }
  }

  lemma ParseConcat(x: string, y: string)
    requires AllDigits(x) && AllDigits(y)
    ensures ParseNat(x + y) == Mul(ParseNat(x), Unit(|y|)) + ParseNat(y)
  {
    DigitsConcat(x, y);
    ValueConcat(10, DigitsOf(x), DigitsOf(y));
  }

  lemma DigitsConcat(x: string, y: string)
    requires AllDigits(x) && AllDigits(y)
    ensures DigitsOf(x + y) == DigitsOf(x) + DigitsOf(y)
  {
  }

  lemma ParseZeros(k: nat)
    ensures ParseNat(ZeroChars(k)) == 0
  {
    assert DigitsOf(ZeroChars(k)) == Zeros(k);
    ValueZeros(10, k);
  }

  lemma ParseBelow(s: string)
    requires AllDigits(s)
    ensures ParseNat(s) < Unit(|s|)
  {
    ValueBelow(10, DigitsOf(s));
  }

  lemma PrintNatLength(n: nat, k: nat)
    requires n < Unit(k) && 0 < k
    ensures |PrintNat(n)| <= k
  {
    ToDigitsValue(10, n);
    if n != 0 { LengthByValue(10, ToDigits(10, n), k); }
  }

  /** Equal length and equal value make two digit strings equal. */
  lemma {:induction false} ParseInjective(x: string, y: string)
    requires AllDigits(x) && AllDigits(y) && |x| == |y| && ParseNat(x) == ParseNat(y)
    ensures x == y
  {
    if x != [] {
      var n := |x| - 1;
      var dx, dy := DigitsOf(x), DigitsOf(y);
      assert dx[..n] == DigitsOf(x[..n]) && dy[..n] == DigitsOf(y[..n]);
      DivModOf(10, Value(10, dx[..n]), dx[n]);
      DivModOf(10, Value(10, dy[..n]), dy[n]);
      ParseInjective(x[..n], y[..n]);
      assert CharOf(dx[n]) == x[n] && CharOf(dy[n]) == y[n];
      assert x == x[..n] + [x[n]] && y == y[..n] + [y[n]];
    }
  }

  // ---------------------------------------------------------------------------
  // Fixed point
  // ---------------------------------------------------------------------------

  /** Shortest form: no leading zero before the point, no trailing zero and at most k digits after it. */
  ghost predicate CanonicalFixed(k: nat, s: string) {
    || CanonicalNat(s)
    || (exists whole: string, frac: string ::
      && s == whole + "." + frac
      && CanonicalNat(whole) && AllDigits(frac)
      && 0 < |frac| <= k && frac[|frac| - 1] != '0')
  }

  lemma DotSplits(whole: string, frac: string)
    requires AllDigits(whole) && AllDigits(frac)
    ensures var s := whole + "." + frac; IntPart(s) == whole && FracPart(s) == frac
    ensures IntPart(whole) == whole && FracPart(whole) == []
  {
    var s := whole + "." + frac;
    assert s[|whole|] == '.';
    assert forall i :: 0 <= i < |whole| ==> s[i] == whole[i];
    assert s[|whole| + 1..] == frac;
  }

  /** Padding in front to k digits keeps the value. */
  lemma PaddedPrint(k: nat, n: nat)
    requires n < Unit(k) && 0 < k
    ensures var s := PadStart(PrintNat(n), k); AllDigits(s) && |s| == k && ParseNat(s) == n
  {
    hide PrintNat, Unit;
    var p := PrintNat(n);
    PrintNatLength(n, k);
    PrintNatCanonical(n);
    assert PadStart(p, k) == ZeroChars(k - |p|) + p;
    ParseConcat(ZeroChars(k - |p|), p);
    ParseZeros(k - |p|);
    MulIs(0, Unit(|p|));
  }

  lemma StrippedFraction(k: nat, lo: nat)
    requires 0 < lo < Unit(k) && 0 < k
    ensures var frac := StripZeros(PadStart(PrintNat(lo), k));
      && AllDigits(frac) && 0 < |frac| <= k && frac[|frac| - 1] != '0'
      && ParseNat(PadEnd(frac, k)[..k]) == lo
  {
    PaddedPrint(k, lo);
    var padded := PadStart(PrintNat(lo), k);
    var frac := StripZeros(padded);
    assert frac == padded[..|frac|];
    ParseZeros(k);
    assert frac == [] ==> padded == ZeroChars(k);
    assert PadEnd(frac, k)[..k] == padded;
  }

  /** The printer is canonical and the parser undoes it. */
  lemma PrintThenParse(k: nat, w: nat)
    ensures var s := PrintFixed(k, w);
      && CanonicalFixed(k, s)
      && AllDigits(IntPart(s)) && AllDigits(FracPart(s)) && IntPart(s) != []
      && ParseParts(k, IntPart(s), FracPart(s)) == w
  {
    var unit := Unit(k);
    DivGalois(w, unit, 0);
    var hi, lo := w / unit, w % unit;
    MulIs(unit, hi);
    assert w == Mul(unit, hi) + lo;
    PrintNatCanonical(hi);
    if lo == 0 {
      DotSplits(PrintNat(hi), []);
      assert PadEnd([], k)[..k] == ZeroChars(k);
      ParseZeros(k);
    } else {
      assert 0 < k;
      StrippedFraction(k, lo);
      DotSplits(PrintNat(hi), StripZeros(PadStart(PrintNat(lo), k)));
    }
  }

  lemma WholeReprints(k: nat, s: string, w: nat)
    requires CanonicalNat(s) && w == ParseParts(k, s, [])
    ensures PrintFixed(k, w) == s
  {
    assert PadEnd([], k)[..k] == ZeroChars(k);
    ParseZeros(k);
    PrintFixedOf(k, w, ParseNat(s), 0);
    ParseNatCanonical(s);
  }

  lemma PrintFixedOf(k: nat, w: nat, hi: nat, lo: nat)
    requires lo < Unit(k) && w == Mul(Unit(k), hi) + lo
    ensures PrintFixed(k, w) == PrintParts(k, hi, lo)
  {
    hide Pow, PrintParts;
    DivModOf(Unit(k), hi, lo);
  }

  lemma PartsReprint(k: nat, whole: string, frac: string, w: nat)
    requires CanonicalNat(whole) && AllDigits(frac) && 0 < |frac| <= k && frac[|frac| - 1] != '0'
    requires w == ParseParts(k, whole, frac)
    ensures PrintFixed(k, w) == whole + "." + frac
  {
    var hi, lo := ParseNat(whole), ParseNat(PadEnd(frac, k));
    assert PadEnd(frac, k)[..k] == PadEnd(frac, k);
    ParseBelow(PadEnd(frac, k));
    PrintFixedOf(k, w, hi, lo);
    ParseNatCanonical(whole);
    FractionReprints(k, frac);
  }

  /** The printer undoes the parser on every canonical string. */
  lemma ParseThenPrint(k: nat, s: string)
    requires CanonicalFixed(k, s)
    ensures AllDigits(IntPart(s)) && AllDigits(FracPart(s))
    ensures PrintFixed(k, ParseParts(k, IntPart(s), FracPart(s))) == s
  {
    if CanonicalNat(s) {
      DotSplits(s, []);
      WholeReprints(k, s, ParseParts(k, s, []));
    } else {
      var whole: string, frac: string :| s == whole + "." + frac && CanonicalNat(whole) && AllDigits(frac)
        && 0 < |frac| <= k && frac[|frac| - 1] != '0';
      DotSplits(whole, frac);
      PartsReprint(k, whole, frac, ParseParts(k, whole, frac));
    }
  }

  lemma FractionReprints(k: nat, frac: string)
    requires AllDigits(frac) && 0 < |frac| <= k && frac[|frac| - 1] != '0'
    ensures var lo := ParseNat(PadEnd(frac, k)); 0 < lo && StripZeros(PadStart(PrintNat(lo), k)) == frac
  {
    hide PrintNat, Unit;
    var padded := PadEnd(frac, k);
    var lo := ParseNat(padded);
    ParseBelow(padded);
    assert padded[|frac| - 1] != '0';
    if lo == 0 {
      ParseZeros(k);
      ParseInjective(padded, ZeroChars(k));
      assert false;
    }
    PaddedPrint(k, lo);
    ParseInjective(PadStart(PrintNat(lo), k), padded);
    StripUnique(frac, k - |frac|);
    assert padded == frac + ZeroChars(k - |frac|);
  }

  lemma {:induction false} StripUnique(t: string, k: nat)
    requires t != [] && t[|t| - 1] != '0'
    ensures StripZeros(t + ZeroChars(k)) == t
  {
    if k == 0 {
      assert t + ZeroChars(0) == t;
    } else {
      var s := t + ZeroChars(k);
      assert s[..|s| - 1] == t + ZeroChars(k - 1);
      StripUnique(t, k - 1);
    }
  }

  /**
   The parser rounds down: for a numeral with f fractional digits, whose exact value
   is N/10^f, it returns floor(N * 10^k / 10^f).
   */
  lemma ParseIsFloor(k: nat, whole: string, frac: string)
    requires AllDigits(whole) && AllDigits(frac)
    ensures 0 < Unit(|frac|)
    ensures ParseParts(k, whole, frac) == Mul(ParseNat(whole + frac), Unit(k)) / Unit(|frac|)
  {
    PowPositive(|frac|);
    if |frac| <= k {
      FloorOfShort(k, whole, frac);
    } else {
      FloorOfLong(k, whole, frac);
    }
  }

  lemma PowPositive(k: nat)
    ensures 0 < Unit(k)
  {
  }

  lemma FloorOfShort(k: nat, whole: string, frac: string)
    requires AllDigits(whole) && AllDigits(frac) && |frac| <= k
    ensures 0 < Unit(|frac|)
    ensures ParseParts(k, whole, frac) == Mul(ParseNat(whole + frac), Unit(k)) / Unit(|frac|)
  {
    hide Pow, ParseNat, Mul;
    var f := |frac|;
    var p, r := Unit(f), Unit(k - f);
    assert ParseNat(PadEnd(frac, k)[..k]) == Mul(ParseNat(frac), r) by {
      assert PadEnd(frac, k)[..k] == frac + ZeroChars(k - f);
      ParseConcat(frac, ZeroChars(k - f));
      ParseZeros(k - f);
    }
    PowAdd(10, k - f, f);
    ParseConcat(whole, frac);
    ScaleUp(ParseNat(whole), ParseNat(frac), p, r);
  }

  lemma FloorOfLong(k: nat, whole: string, frac: string)
    requires AllDigits(whole) && AllDigits(frac) && k < |frac|
    ensures 0 < Unit(|frac|)
    ensures ParseParts(k, whole, frac) == Mul(ParseNat(whole + frac), Unit(k)) / Unit(|frac|)
  {
    hide Pow, ParseNat, Mul;
    var kept, cut := frac[..k], frac[k..];
    assert PadEnd(frac, k)[..k] == kept;
    assert frac == kept + cut;
    ParseConcat(kept, cut);
    PowAdd(10, k, |cut|);
    ParseConcat(whole, frac);
    ParseBelow(cut);
    ScaleDown(ParseNat(whole), ParseNat(kept), ParseNat(cut), Unit(k), Unit(|cut|));
  }

  lemma ScaleUp(W: nat, F: nat, p: nat, r: nat)
    requires 0 < p
    ensures Mul(Mul(W, p) + F, Mul(r, p)) / p == Mul(Mul(r, p), W) + Mul(F, r)
  {
    hide Mul;
    var rp := Mul(r, p);
    calc {
      Mul(Mul(W, p) + F, rp);
      { MulCommutes(Mul(W, p) + F, rp); MulDistributes(rp, Mul(W, p), F); }
      Mul(rp, Mul(W, p)) + Mul(rp, F);
      { MulAssociates(rp, W, p); MulCommutes(Mul(rp, W), p); }
      Mul(p, Mul(rp, W)) + Mul(rp, F);
      { MulCommutes(rp, F); MulAssociates(F, r, p); MulCommutes(Mul(F, r), p); }
      Mul(p, Mul(rp, W)) + Mul(p, Mul(F, r));
      { MulDistributes(p, Mul(rp, W), Mul(F, r)); }
      Mul(p, Mul(rp, W) + Mul(F, r));
    }
    DivModOf(p, Mul(rp, W) + Mul(F, r), 0);
  }

  lemma ScaleDown(W: nat, F: nat, G: nat, u: nat, r: nat)
    requires G < r && 0 < u
    ensures 0 < Mul(u, r)
    ensures Mul(Mul(W, Mul(u, r)) + (Mul(F, r) + G), u) / Mul(u, r) == Mul(u, W) + F
  {
    hide Mul;
    var ur := Mul(u, r);
    MulPositive(u, r);
    MulMonotone(u, u, G + 1, r);
    MulDistributes(u, G, 1);
    MulIs(u, 1);
    calc {
      Mul(Mul(W, ur) + (Mul(F, r) + G), u);
      { MulCommutes(Mul(W, ur) + (Mul(F, r) + G), u); MulDistributes(u, Mul(W, ur), Mul(F, r) + G); }
      Mul(u, Mul(W, ur)) + Mul(u, Mul(F, r) + G);
      { MulAssociates(u, W, ur); MulCommutes(Mul(u, W), ur); MulDistributes(u, Mul(F, r), G); }
      Mul(ur, Mul(u, W)) + Mul(u, Mul(F, r)) + Mul(u, G);
      { MulCommutes(u, Mul(F, r)); MulAssociates(F, r, u); MulCommutes(r, u); MulCommutes(F, ur); }
      Mul(ur, Mul(u, W)) + Mul(ur, F) + Mul(u, G);
      { MulDistributes(ur, Mul(u, W), F); }
      Mul(ur, Mul(u, W) + F) + Mul(u, G);
    }
    DivModOf(ur, Mul(u, W) + F, Mul(u, G));
  }
}
