/** Hexadecimal strings, two digits to a byte. */
module Hex {
  import opened Arithmetic
  import opened Digits

  predicate IsHexChar(c: char) {
    '0' <= c <= '9' || 'a' <= c <= 'f' || 'A' <= c <= 'F'
  }

  predicate IsHex(s: string) {
    forall i :: 0 <= i < |s| ==> IsHexChar(s[i])
  }

  /** Both cases are read. */
  function HexValue(c: char): (d: nat)
    requires IsHexChar(c)
    ensures d < 16
  {
    if c <= '9' then c as int - '0' as int
    else if c <= 'F' then 10 + c as int - 'A' as int
    else 10 + c as int - 'a' as int
  }

  /** Lower case is written. */
  function HexChar(d: nat): (c: char)
    requires d < 16
    ensures IsHexChar(c) && HexValue(c) == d
  {
    if d < 10 then (d + '0' as int) as char else (d - 10 + 'a' as int) as char
  }

  /** The digits as characters, in both cases. */
  lemma HexAlphabet(d: nat)
    requires d < 16
    ensures HexChar(d) == "0123456789abcdef"[d]
    ensures var upper := "0123456789ABCDEF"[d]; IsHexChar(upper) && HexValue(upper) == d
  {
    var lower, upper := "0123456789abcdef", "0123456789ABCDEF";
    assert lower[d] == (if d < 10 then (d + '0' as int) as char else (d - 10 + 'a' as int) as char);
    assert upper[d] == (if d < 10 then (d + '0' as int) as char else (d - 10 + 'A' as int) as char);
  }

  lemma HexClass(c: char)
    ensures IsHexChar(c) <==> c in "0123456789abcdefABCDEF"
  {
    var all := "0123456789abcdefABCDEF";
    if IsHexChar(c) {
      var i := if c <= '9' then c as int - '0' as int else if c <= 'F' then 16 + c as int - 'A' as int else 10 + c as int - 'a' as int;
      assert all[i] == c;
    }
  }

  function LowerHex(c: char): (l: char)
    requires IsHexChar(c)
    ensures l == HexChar(HexValue(c))
  {
    if 'A' <= c <= 'F' then (c as int - 'A' as int + 'a' as int) as char else c
  }

  function ToLower(s: string): string
    requires IsHex(s)
  {
    seq(|s|, i requires 0 <= i < |s| => LowerHex(s[i]))
  }

  function HexChars(ds: seq<nat>): (s: string)
    requires IsDigits(16, ds)
    ensures |s| == |ds| && IsHex(s)
  {
    seq(|ds|, i requires 0 <= i < |ds| => HexChar(ds[i]))
  }

  function HexDigits(s: string): (ds: seq<nat>)
    requires IsHex(s)
    ensures |ds| == |s| && IsDigits(16, ds)
  {
    seq(|s|, i requires 0 <= i < |s| => HexValue(s[i]))
  }

  lemma HexDigitsOfChars(ds: seq<nat>)
    requires IsDigits(16, ds)
    ensures HexDigits(HexChars(ds)) == ds
  {
  }

  /** Each pair of digits as one byte: parseInt of every two-character slice. */
  function Pairs(s: string): (b: seq<nat>)
    requires IsHex(s) && |s| % 2 == 0
    ensures |b| == |s| / 2 && IsDigits(256, b)
  {
    seq(|s| / 2, i requires 0 <= i < |s| / 2 => HexValue(s[2 * i]) * 16 + HexValue(s[2 * i + 1]))
  }

  /** Each byte as exactly two lower-case digits. */
  function HexOf(b: seq<nat>): (s: string)
    requires IsDigits(256, b)
    ensures |s| == 2 * |b| && IsHex(s)
  {
    seq(2 * |b|, i requires 0 <= i < 2 * |b| => HexChar(if i % 2 == 0 then b[i / 2] / 16 else b[i / 2] % 16))
  }

  lemma PairsOfHex(b: seq<nat>)
    requires IsDigits(256, b)
    ensures Pairs(HexOf(b)) == b
  {
    forall i | 0 <= i < |b| ensures Pairs(HexOf(b))[i] == b[i] {
      assert (2 * i) / 2 == i && (2 * i) % 2 == 0 && (2 * i + 1) / 2 == i && (2 * i + 1) % 2 == 1;
    }
  }

  lemma HexOfPairs(s: string)
    requires IsHex(s) && |s| % 2 == 0
    ensures HexOf(Pairs(s)) == ToLower(s)
  {
    forall i | 0 <= i < |s| ensures HexOf(Pairs(s))[i] == ToLower(s)[i] {
      var j := i / 2;
      var hi, lo := HexValue(s[2 * j]), HexValue(s[2 * j + 1]);
      assert Pairs(s)[j] == hi * 16 + lo;
      assert (hi * 16 + lo) / 16 == hi && (hi * 16 + lo) % 16 == lo;
      assert i == 2 * j || i == 2 * j + 1;
    }
  }

  /** Bytes are paired hex digits. */
  lemma PairsArePaired(s: string)
    requires IsHex(s) && |s| % 2 == 0
    ensures Pairs(s) == PairUp(16, HexDigits(s))
  {
    var ds := HexDigits(s);
    forall i | 0 <= i < |s| / 2 ensures Pairs(s)[i] == PairUp(16, ds)[i] {
      MulIs(16, ds[2 * i]);
    }
  }
}
