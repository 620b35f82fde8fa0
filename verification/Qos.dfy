/**
 QoS metrics as scaled integers: the lenient parsers and the printer, and where they
 undo each other.
 */
module Qos {
  import opened Arithmetic
  import opened Digits
  import opened Decimal
  import opened Options
  import opened Hex

  const SCALE_DECIMALS: nat := 9

  // ---------------------------------------------------------------------------
  // BigInt(string)
  // ---------------------------------------------------------------------------

  predicate IsSpace(c: char) {
    c == ' ' || ('\t' <= c <= '\r')
  }

  lemma Spaces(c: char)
    ensures IsSpace(c) <==> c in " \t\n\U{0b}\U{0c}\r"
  {
  }

  function TrimStart(s: string): (t: string)
    ensures t != [] ==> !IsSpace(t[0])
    ensures |t| <= |s|
  {
    if s != [] && IsSpace(s[0]) then TrimStart(s[1..]) else s
  }

  function TrimEnd(s: string): (t: string)
    ensures t <= s
  {
    if s != [] && IsSpace(s[|s| - 1]) then TrimEnd(s[..|s| - 1]) else s
  }

  function Trim(s: string): string { TrimEnd(TrimStart(s)) }

  /** Digits below `radix`, in either case. */
  predicate RadixDigits(s: string, radix: nat) {
    s != [] && forall i :: 0 <= i < |s| ==> IsHexChar(s[i]) && HexValue(s[i]) < radix
  }

  function RadixValue(s: string, radix: nat): nat
    requires RadixDigits(s, radix)
  {
    Value(radix, HexDigits(s))
  }

  function RadixOf(c: char): Option<nat> {
    if c == 'x' || c == 'X' then Some(16)
    else if c == 'o' || c == 'O' then Some(8)
    else if c == 'b' || c == 'B' then Some(2)
    else None
  }

  /**
   BigInt(s): blank is 0, then decimal digits with an optional sign, or an unsigned
   0x, 0o or 0b literal. None where BigInt throws.
   */
  function BigIntOf(s: string): Option<int> {
    var t := Trim(s);
    if t == [] then Some(0)
    else if AllDigits(t) then Some(ParseNat(t))
    else if (t[0] == '-' || t[0] == '+') && |t| > 1 && AllDigits(t[1..]) then
      var v: int := ParseNat(t[1..]);
      Some(if t[0] == '-' then -v else v)
    else if |t| > 2 && t[0] == '0' && RadixOf(t[1]).Some? && RadixDigits(t[2..], RadixOf(t[1]).value) then
      Some(RadixValue(t[2..], RadixOf(t[1]).value))
    else None
  }

  // ---------------------------------------------------------------------------
  // Parsers and printer
  // ---------------------------------------------------------------------------

  /** An integer count; any fraction is cut off, anything unreadable is 0. */
  function ParseBigInt(s: Option<string>): int {
    match s
    case None => 0
    case Some(t) => (match BigIntOf(IntPart(t)) case Some(n) => n case None => 0)
  }

  /** A decimal scaled by 10^9, its fraction cut to nine digits; a leading minus or anything unreadable is 0. */
  function ParseBigDecimalScaled(s: Option<string>): int {
    match s
    case None => 0
    case Some(u) =>
      var t := Trim(u);
      if t == [] || t[0] == '-' then 0
      else
        var whole := BigIntOf(IntPart(t));
        var frac := BigIntOf(PadEnd(Slice(FracPart(t), SCALE_DECIMALS), SCALE_DECIMALS));
        if whole.Some? && frac.Some? then whole.value * Unit(SCALE_DECIMALS) + frac.value else 0
  }

  function Slice(s: string, k: nat): string {
    if |s| <= k then s else s[..k]
  }

  function FormatScaled(scaled: int): string {
    if scaled < 0 then "-" + PrintFixed(SCALE_DECIMALS, -scaled) else PrintFixed(SCALE_DECIMALS, scaled)
  }

  lemma DigitsAreTrimmed(s: string)
    requires s != [] ==> !IsSpace(s[0]) && !IsSpace(s[|s| - 1])
    ensures Trim(s) == s
  {
  }

  lemma DigitNotSpace(s: string)
    requires AllDigits(s)
    ensures Trim(s) == s
    ensures s != [] ==> BigIntOf(s) == Some(ParseNat(s))
  {
    DigitsAreTrimmed(s);
  }

  /** Cutting then padding is padding then cutting. */
  lemma SliceThenPad(s: string, k: nat)
    ensures PadEnd(Slice(s, k), k) == PadEnd(s, k)[..k]
  {
  }

  /** On a plain decimal the lenient parser is the fixed-point parser. */
  lemma ParsesDecimal(t: string)
    requires IntPart(t) != [] && AllDigits(IntPart(t)) && AllDigits(FracPart(t))
    requires t != [] && !IsSpace(t[|t| - 1])
    ensures ParseBigDecimalScaled(Some(t)) == ParseParts(SCALE_DECIMALS, IntPart(t), FracPart(t))
  {
    assert IntPart(t)[0] == t[0];
    DigitsAreTrimmed(t);
    DigitNotSpace(IntPart(t));
    SliceThenPad(FracPart(t), SCALE_DECIMALS);
    var frac := PadEnd(FracPart(t), SCALE_DECIMALS)[..SCALE_DECIMALS];
    DigitNotSpace(frac);
    MulCommutes(Unit(SCALE_DECIMALS), ParseNat(IntPart(t)));
    MulIs(ParseNat(IntPart(t)), Unit(SCALE_DECIMALS));
  }

  lemma CanonicalEnd(k: nat, s: string)
    requires CanonicalFixed(k, s)
    ensures s != [] && IsDigit(s[|s| - 1])
  {
    if !CanonicalNat(s) {
      var whole: string, frac: string :| s == whole + "." + frac && AllDigits(frac) && 0 < |frac|;
      LastOf(whole + ".", frac);
    }
  }

  lemma LastOf(x: string, y: string)
    requires y != []
    ensures (x + y)[|x + y| - 1] == y[|y| - 1]
  {
  }

  lemma PrintedEnd(x: nat)
    ensures var t := PrintFixed(SCALE_DECIMALS, x); t != [] && IsDigit(t[|t| - 1])
  {
    hide PrintFixed, ParseParts, FracPart, IntPart, CanonicalFixed;
    PrintThenParse(SCALE_DECIMALS, x);
    CanonicalEnd(SCALE_DECIMALS, PrintFixed(SCALE_DECIMALS, x));
  }

  /** The parser undoes the printer exactly on the non-negative values. */
  lemma ScaledRoundTripIff(x: int)
    ensures ParseBigDecimalScaled(Some(FormatScaled(x))) == x <==> 0 <= x
  {
    if 0 <= x {
      PrintThenParse(SCALE_DECIMALS, x);
      PrintedEnd(x);
      ParsesDecimal(FormatScaled(x));
    } else {
      PrintedEnd(-x);
      var t := FormatScaled(x);
      assert t[0] == '-' && t[|t| - 1] == PrintFixed(SCALE_DECIMALS, -x)[|t| - 2];
      DigitsAreTrimmed(t);
    }
  }

  // ---------------------------------------------------------------------------
  // What the parsers read, form by form
  // ---------------------------------------------------------------------------

  /** The point is moved by nine digits. */
  lemma NineDigits(b: nat)
    requires b == 10
    ensures Pow(b, 9) == 1_000_000_000
  {
    PowDouble(b, 0, 1);
    PowDouble(b, 1, 10);
    PowDouble(b, 2, 100);
    PowDouble(b, 4, 10_000);
  }

  /** A plain decimal is read as the floor of a thousand million times its value. */
  lemma ScaledIsFloor(t: string)
    requires IntPart(t) != [] && AllDigits(IntPart(t)) && AllDigits(FracPart(t))
    requires t != [] && !IsSpace(t[|t| - 1])
    ensures AllDigits(IntPart(t) + FracPart(t)) && 0 < Unit(|FracPart(t)|)
    ensures ParseBigDecimalScaled(Some(t)) == Mul(ParseNat(IntPart(t) + FracPart(t)), 1_000_000_000) / Unit(|FracPart(t)|)
  {
    NineDigits(10);
    ParsesDecimal(t);
    ParseIsFloor(SCALE_DECIMALS, IntPart(t), FracPart(t));
  }

  /** An absent reading, a blank one, and one with a leading minus all read as 0. */
  lemma ReadsZero(s: string)
    requires Trim(s) == [] || Trim(s)[0] == '-'
    ensures ParseBigDecimalScaled(Some(s)) == 0 && ParseBigDecimalScaled(None) == 0 && ParseBigInt(None) == 0
  {
  }

  /** A count is the integer before the point, whatever comes after it. */
  lemma CountIsInteger(whole: string, rest: string)
    requires whole != [] && AllDigits(whole)
    ensures ParseBigInt(Some(whole)) == ParseBigInt(Some(whole + "." + rest)) == ParseNat(whole)
    ensures ParseBigInt(Some("+" + whole)) == ParseNat(whole)
    ensures ParseBigInt(Some("-" + whole)) == ParseBigInt(Some("-" + whole + "." + rest)) == -(ParseNat(whole) as int)
  {
    hide ParseNat;
    DigitNotSpace(whole);
    SignedDigits(whole);
    DotSplits(whole, []);
    assert forall i :: 0 <= i < |whole| ==> whole[i] != '.';
    CutAtDot(whole, rest);
    CutAtDot("-" + whole, rest);
    CutAtDot("+" + whole, []);
  }

  lemma CutAtDot(whole: string, rest: string)
    requires '.' !in whole
    ensures IntPart(whole) == whole && IntPart(whole + "." + rest) == whole
  {
    var t := whole + "." + rest;
    assert t[|whole|] == '.';
    assert forall i :: 0 <= i < |whole| ==> t[i] == whole[i];
    assert FirstDot(t) == |whole| && FirstDot(whole) == |whole|;
  }

  /** What BigInt refuses counts as 0: letters, a second sign, digits broken by a space. */
  lemma UnreadableIsZero(s: string, i: nat)
    requires i < |s| && '.' !in s
    requires forall j :: 0 <= j < |s| ==> !IsSpace(s[j])
    requires !IsDigit(s[i]) && (i > 0 || (s[0] != '-' && s[0] != '+')) && s[0] != '0'
    ensures BigIntOf(s) == None && ParseBigInt(Some(s)) == 0
  {
    DigitsAreTrimmed(s);
    CutAtDot(s, []);
    if i > 0 { assert s[1..][i - 1] == s[i]; }
  }

  /** Hexadecimal, octal and binary literals, in either case of prefix and digits. */
  lemma RadixLiterals(h: string, radix: nat)
    requires h != [] && RadixDigits(h, radix)
    ensures radix == 16 ==> BigIntOf("0x" + h) == BigIntOf("0X" + h) == Some(Value(16, HexDigits(h)))
    ensures radix == 8 ==> BigIntOf("0o" + h) == BigIntOf("0O" + h) == Some(Value(8, HexDigits(h)))
    ensures radix == 2 ==> BigIntOf("0b" + h) == BigIntOf("0B" + h) == Some(Value(2, HexDigits(h)))
  {
    hide BigIntOf, Value;
    RadixLiteral(h, "0x", radix);
    RadixLiteral(h, "0X", radix);
    RadixLiteral(h, "0o", radix);
    RadixLiteral(h, "0O", radix);
    RadixLiteral(h, "0b", radix);
    RadixLiteral(h, "0B", radix);
  }

  lemma RadixLiteral(h: string, prefix: string, radix: nat)
    requires h != [] && RadixDigits(h, radix) && |prefix| == 2 && prefix[0] == '0' && RadixOf(prefix[1]).Some?
    ensures RadixOf(prefix[1]) == Some(radix) ==> BigIntOf(prefix + h) == Some(Value(radix, HexDigits(h)))
  {
    hide Value;
    var s := prefix + h;
    assert s[2..] == h && s[1] == prefix[1] && s[|s| - 1] == h[|h| - 1];
    DigitsAreTrimmed(s);
    assert !AllDigits(s) by { assert !IsDigit(s[1]); }
  }

  /** White space around a literal is ignored. */
  lemma {:induction false} TrimPads(a: string, s: string, b: string)
    requires forall i :: 0 <= i < |a| ==> a[i] in " \t\n\r"
    requires forall i :: 0 <= i < |b| ==> b[i] in " \t\n\r"
    requires s != [] && !IsSpace(s[0]) && !IsSpace(s[|s| - 1])
    ensures Trim(a + s + b) == s
  {
    PadsBefore(a, s + b);
    assert a + s + b == a + (s + b);
    PadsAfter(s, b);
  }

  lemma {:induction false} PadsBefore(a: string, t: string)
    requires forall i :: 0 <= i < |a| ==> a[i] in " \t\n\r"
    requires t != [] && !IsSpace(t[0])
    ensures TrimStart(a + t) == t
  {
    if a == [] {
      assert a + t == t;
    } else {
      assert a[0] in " \t\n\r";
      assert (a + t)[1..] == a[1..] + t;
      PadsBefore(a[1..], t);
    }
  }

  lemma {:induction false} PadsAfter(s: string, b: string)
    requires forall i :: 0 <= i < |b| ==> b[i] in " \t\n\r"
    requires s != [] && !IsSpace(s[|s| - 1])
    ensures TrimEnd(s + b) == s
  {
    if b == [] {
      assert s + b == s;
    } else {
      var n := |b| - 1;
      assert b[n] in " \t\n\r";
      assert (s + b)[..|s + b| - 1] == s + b[..n];
      PadsAfter(s, b[..n]);
    }
  }

  /** A value prints as its whole part, and with a minus sign in front when it is negative. */
  lemma FormatsWhole(n: nat)
    ensures FormatScaled(n * 1_000_000_000) == PrintNat(n)
    ensures 0 < n ==> FormatScaled(-(n * 1_000_000_000)) == "-" + PrintNat(n)
  {
    hide PrintNat, Pow;
    NineDigits(10);
    var u := Unit(SCALE_DECIMALS);
    MulIs(u, n);
    PrintFixedOf(SCALE_DECIMALS, n * u, n, 0);
  }

  lemma TrimKeeps(s: string, c: char)
    requires c !in s
    ensures c !in Trim(s)
  {
    TrimStartKeeps(s, c);
  }

  lemma {:induction false} TrimStartKeeps(s: string, c: char)
    requires c !in s
    ensures c !in TrimStart(s)
  {
    if s != [] && IsSpace(s[0]) { TrimStartKeeps(s[1..], c); }
  }

  lemma UnsignedNonNegative(s: string)
    requires '-' !in s
    ensures BigIntOf(s).Some? ==> 0 <= BigIntOf(s).value
  {
    TrimKeeps(s, '-');
  }

  /** A reading without a minus sign is never negative. */
  lemma MetricNonNegative(s: string)
    requires '-' !in s
    ensures 0 <= ParseBigDecimalScaled(Some(s))
  {
    var t := Trim(s);
    TrimKeeps(s, '-');
    assert '-' !in IntPart(t) && '-' !in FracPart(t);
    UnsignedNonNegative(IntPart(t));
    UnsignedNonNegative(PadEnd(Slice(FracPart(t), SCALE_DECIMALS), SCALE_DECIMALS));
    if BigIntOf(IntPart(t)).Some? { MulMono(0, BigIntOf(IntPart(t)).value, Unit(SCALE_DECIMALS)); }
  }

  lemma {:induction false} TrimEndKeepsFirst(s: string)
    requires s != [] && !IsSpace(s[0])
    ensures TrimEnd(s) != [] && TrimEnd(s)[0] == s[0]
  {
    if IsSpace(s[|s| - 1]) { TrimEndKeepsFirst(s[..|s| - 1]); }
  }

  /** Only a leading minus makes BigInt negative. */
  lemma NegativeStartsWithMinus(s: string)
    requires s != [] && !IsSpace(s[0]) && s[0] != '-'
    ensures BigIntOf(s).Some? ==> 0 <= BigIntOf(s).value
  {
    TrimEndKeepsFirst(s);
  }

  /** k characters spell no negative number below -10^(k-1). */
  lemma NegativeAbove(s: string, k: nat)
    requires |s| <= k + 1
    ensures BigIntOf(s).Some? ==> -(Unit(k) as int) < BigIntOf(s).value
  {
    hide Unit, RadixDigits;
    var t := Trim(s);
    if BigIntOf(s).Some? && BigIntOf(s).value < 0 {
      ParseBelow(t[1..]);
      UnitMono(|t| - 1, k);
    }
  }

  lemma UnitMono(i: nat, j: nat)
    requires i <= j
    ensures Unit(i) <= Unit(j)
  {
    PowMono(10, i, j);
  }

  /** The nine characters read as the fraction. */
  function FracDigits(t: string): string {
    PadEnd(Slice(FracPart(t), SCALE_DECIMALS), SCALE_DECIMALS)
  }

  /**
   Exactly when a reading is negative after all: no leading minus, a whole part that reads
   as 0, and nine characters after the point that spell a negative number.
   */
  lemma NegativeReadingIff(s: string)
    ensures var t := Trim(s);
      ParseBigDecimalScaled(Some(s)) < 0 <==>
        t != [] && t[0] != '-' && BigIntOf(IntPart(t)) == Some(0)
        && BigIntOf(FracDigits(t)).Some? && BigIntOf(FracDigits(t)).value < 0
  {
    hide BigIntOf, Unit;
    var t := Trim(s);
    if t != [] && t[0] != '-' {
      TrimmedFirst(s);
      WholeNonNegative(t);
      NegativeAbove(FracDigits(t), SCALE_DECIMALS - 1);
      UnitMono(SCALE_DECIMALS - 1, SCALE_DECIMALS);
      if BigIntOf(IntPart(t)).Some? && BigIntOf(IntPart(t)).value >= 1 {
        MulMono(1, BigIntOf(IntPart(t)).value, Unit(SCALE_DECIMALS));
      }
    }
  }

  lemma TrimmedFirst(s: string)
    ensures Trim(s) != [] ==> !IsSpace(Trim(s)[0])
  {
  }

  lemma WholeNonNegative(t: string)
    requires t != [] && !IsSpace(t[0]) && t[0] != '-'
    ensures BigIntOf(IntPart(t)).Some? ==> 0 <= BigIntOf(IntPart(t)).value
  {
    if IntPart(t) != [] {
      NegativeStartsWithMinus(IntPart(t));
    } else {
      assert Trim([]) == [];
    }
  }

  lemma SignedDigits(d: string)
    requires d != [] && AllDigits(d)
    ensures BigIntOf("-" + d) == Some(-(ParseNat(d) as int))
    ensures BigIntOf("+" + d) == Some(ParseNat(d))
  {
    var t, u := "-" + d, "+" + d;
    assert t[1..] == d && t[|t| - 1] == d[|d| - 1];
    assert u[1..] == d && u[|u| - 1] == d[|d| - 1];
    DigitsAreTrimmed(t);
    DigitsAreTrimmed(u);
  }

  lemma DotAt(whole: string, rest: string)
    requires AllDigits(whole) && forall i :: 0 <= i < |rest| ==> rest[i] != '.'
    ensures var t := whole + "." + rest; IntPart(t) == whole && FracPart(t) == rest
  {
    var t := whole + "." + rest;
    assert t[|whole|] == '.';
    assert forall i :: 0 <= i < |whole| ==> t[i] == whole[i];
    assert FirstDot(t) == |whole|;
    assert t[|whole| + 1..] == rest;
    assert FirstDot(rest) == |rest|;
  }

  /**
   A minus sign after the point is not caught: the fraction is then subtracted, so that
   "0.-5" reads as -0.05 although negative metrics are meant to read as 0.
   */
  lemma MinusAfterPoint(whole: string, d: string)
    requires whole != [] && AllDigits(whole) && d != [] && AllDigits(d) && |d| <= 8
    ensures AllDigits(PadEnd(d, 8))
    ensures ParseBigDecimalScaled(Some(whole + "." + ("-" + d))) ==
            Mul(ParseNat(whole), Unit(SCALE_DECIMALS)) - ParseNat(PadEnd(d, 8))
  {
    hide Unit, ParseNat;
    var rest := "-" + d;
    var t := whole + "." + rest;
    DotAt(whole, rest);
    assert t[0] == whole[0] && t[|t| - 1] == d[|d| - 1];
    DigitsAreTrimmed(t);
    DigitNotSpace(whole);
    assert PadEnd(Slice(rest, SCALE_DECIMALS), SCALE_DECIMALS) == "-" + PadEnd(d, 8);
    SignedDigits(PadEnd(d, 8));
    MulIs(ParseNat(whole), Unit(SCALE_DECIMALS));
  }
}
