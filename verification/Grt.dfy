/**
 GRT amounts on the wire: wei printed as a GRT decimal with up to 18 fractional digits,
 and a GRT decimal read back as a wei integer string.
 */
module Grt {
  import opened Arithmetic
  import opened Decimal
  import opened Options

  const GRT_DECIMALS: nat := 18

  function WeiToGrtDecimalString(wei: nat): string {
    PrintFixed(GRT_DECIMALS, wei)
  }

  /** The pattern ^\d+(\.\d+)?$ */
  predicate IsGrtDecimal(s: string) {
    var d := FirstDot(s);
    && d != 0 && AllDigits(s[..d])
    && (d < |s| ==> d + 1 < |s| && AllDigits(s[d + 1..]))
  }

  lemma GrtDecimalParts(s: string)
    requires IsGrtDecimal(s)
    ensures AllDigits(IntPart(s)) && AllDigits(FracPart(s))
    ensures s == IntPart(s) || s == IntPart(s) + "." + FracPart(s)
  {
    var d := FirstDot(s);
    if d < |s| {
      var rest := s[d + 1..];
      assert FirstDot(rest) == |rest|;
      assert s == s[..d] + "." + rest;
    }
  }

  /** None where the source throws. */
  function GrtToWei(s: string): (r: Option<string>)
    ensures r.Some? ==> AllDigits(r.value)
  {
    if IsGrtDecimal(s) then
      GrtDecimalParts(s);
      Some(PrintNat(ParseParts(GRT_DECIMALS, IntPart(s), FracPart(s))))
    else None
  }

  /** Reading back a printed amount gives the same number of wei, and what was printed is canonical. */
  lemma WeiRoundTrip(wei: nat)
    ensures GrtToWei(WeiToGrtDecimalString(wei)) == Some(PrintNat(wei))
    ensures CanonicalFixed(GRT_DECIMALS, WeiToGrtDecimalString(wei))
  {
    PrintThenParse(GRT_DECIMALS, wei);
    CanonicalIsGrt(WeiToGrtDecimalString(wei));
  }

  /** 10^18 */
  const WEI_PER_GRT: nat := 1_000_000_000_000_000_000

  lemma UnitIsWeiPerGrt(b: nat)
    requires b == 10
    ensures Pow(b, 18) == 1_000_000_000_000_000_000
  {
    PowDouble(b, 0, 1);
    PowDouble(b, 1, 10);
    PowDouble(b, 2, 100);
    PowDouble(b, 4, 10_000);
    PowDouble(b, 9, 1_000_000_000);
  }

  /** What is accepted: digits, or digits on both sides of one point. */
  lemma GrtAcceptsIff(s: string)
    ensures GrtToWei(s).Some? <==>
      (s != [] && AllDigits(s)) ||
      exists whole: string, frac: string :: s == whole + "." + frac && whole != [] && frac != [] && AllDigits(whole) && AllDigits(frac)
  {
    if IsGrtDecimal(s) {
      GrtDecimalParts(s);
      if FirstDot(s) < |s| {
        assert s == s[..FirstDot(s)] + "." + s[FirstDot(s) + 1..];
      }
    }
    if s != [] && AllDigits(s) { assert FirstDot(s) == |s|; }
    if whole: string, frac: string :| s == whole + "." + frac && whole != [] && frac != [] && AllDigits(whole) && AllDigits(frac) {
      DotSplits(whole, frac);
      assert FirstDot(s) == |whole| && s[|whole| + 1..] == frac;
    }
  }

  /** Whole amounts: n GRT are n * 10^18 wei, both ways. */
  lemma WholeGrt(n: nat)
    ensures WeiToGrtDecimalString(n * 1_000_000_000_000_000_000) == PrintNat(n)
    ensures GrtToWei(PrintNat(n)) == Some(PrintNat(n * 1_000_000_000_000_000_000))
  {
    hide PrintNat, ParseNat, Pow;
    UnitIsWeiPerGrt(10);
    var u := Unit(GRT_DECIMALS);
    assert u == WEI_PER_GRT;
    MulIs(u, n);
    DivModOf(u, n, 0);
    PrintFixedOf(GRT_DECIMALS, n * u, n, 0);
    WeiRoundTrip(n * u);
  }

  lemma CanonicalIsGrt(s: string)
    requires CanonicalFixed(GRT_DECIMALS, s)
    ensures IsGrtDecimal(s)
  {
    if CanonicalNat(s) {
      DotSplits(s, []);
      assert FirstDot(s) == |s|;
    } else {
      var whole: string, frac: string :| s == whole + "." + frac && CanonicalNat(whole) && AllDigits(frac) && 0 < |frac|;
      DotSplits(whole, frac);
      assert FirstDot(s) == |whole|;
      assert s[|whole| + 1..] == frac;
    }
  }

  /** Printing undoes reading on every canonical amount. */
  lemma GrtRoundTrip(s: string)
    requires CanonicalFixed(GRT_DECIMALS, s)
    ensures GrtToWei(s).Some?
    ensures WeiToGrtDecimalString(ParseNat(GrtToWei(s).value)) == s
  {
    CanonicalIsGrt(s);
    ParseThenPrint(GRT_DECIMALS, s);
    PrintNatCanonical(ParseParts(GRT_DECIMALS, IntPart(s), FracPart(s)));
  }

  /**
   Every valid amount is read as floor(amount * 10^18): with f fractional digits and N
   the number its digits spell, that is floor(N * 10^18 / 10^f).
   */
  lemma GrtToWeiIsFloor(s: string)
    requires IsGrtDecimal(s)
    ensures AllDigits(IntPart(s) + FracPart(s)) && 0 < Unit(|FracPart(s)|)
    ensures GrtToWei(s).Some?
    ensures ParseNat(GrtToWei(s).value) ==
            Mul(ParseNat(IntPart(s) + FracPart(s)), 1_000_000_000_000_000_000) / Unit(|FracPart(s)|)
  {
    UnitIsWeiPerGrt(10);
    GrtDecimalParts(s);
    ParseIsFloor(GRT_DECIMALS, IntPart(s), FracPart(s));
    PrintNatCanonical(ParseParts(GRT_DECIMALS, IntPart(s), FracPart(s)));
  }
}
