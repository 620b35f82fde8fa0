/**
 Base58 as in draft-msporny-base58: a byte string read as one big number, written in
 base 58, with every leading zero byte kept as a leading '1'.
 */
module Base58 {
  import opened Arithmetic
  import opened Digits
  import opened Options
  import opened Hex

  /** No 0, I, O or l. */
  const ALPHABET: string := "123456789" + "ABCDEFGH" + "JKLMN" + "PQRSTUVWXYZ" + "abcdefghijk" + "mnopqrstuvwxyz"

  /** [1-9A-HJ-NP-Za-km-z] */
  predicate IsBase58Char(c: char) {
    '1' <= c <= '9' || 'A' <= c <= 'H' || 'J' <= c <= 'N' || 'P' <= c <= 'Z' || 'a' <= c <= 'k' || 'm' <= c <= 'z'
  }

  function Shift(c: char, d: nat): char
    requires c as int + d < 128
  {
    (c as int + d) as char
  }

  function CharAt(d: nat): (c: char)
    requires d < 58
    ensures IsBase58Char(c)
  {
    if d < 9 then Shift('1', d)
    else if d < 17 then Shift('A', d - 9)
    else if d < 22 then Shift('J', d - 17)
    else if d < 33 then Shift('P', d - 22)
    else if d < 44 then Shift('a', d - 33)
    else Shift('m', d - 44)
  }

  /** ALPHABET.indexOf(c), for a character of the alphabet. */
  function IndexOf(c: char): (d: nat)
    requires IsBase58Char(c)
    ensures d < 58 && CharAt(d) == c
  {
    var n := c as int;
    if c <= '9' then n - '1' as int
    else if c <= 'H' then 9 + n - 'A' as int
    else if c <= 'N' then 17 + n - 'J' as int
    else if c <= 'Z' then 22 + n - 'P' as int
    else if c <= 'k' then 33 + n - 'a' as int
    else 44 + n - 'm' as int
  }

  lemma IndexOfCharAt(d: nat)
    requires d < 58
    ensures IndexOf(CharAt(d)) == d
  {
  }

  /** CharAt is the alphabet. */
  lemma AlphabetAt(d: nat)
    requires d < 58
    ensures |ALPHABET| == 58 && ALPHABET[d] == CharAt(d)
  {
    var a, b, c, e, f, g := "123456789", "ABCDEFGH", "JKLMN", "PQRSTUVWXYZ", "abcdefghijk", "mnopqrstuvwxyz";
    assert ALPHABET == a + b + c + e + f + g;
    if d < 9 { assert ALPHABET[d] == a[d]; }
    else if d < 17 { assert ALPHABET[d] == b[d - 9]; }
    else if d < 22 { assert ALPHABET[d] == c[d - 17]; }
    else if d < 33 { assert ALPHABET[d] == e[d - 22]; }
    else if d < 44 { assert ALPHABET[d] == f[d - 33]; }
    else { assert ALPHABET[d] == g[d - 44]; }
  }

  /** The character class is the alphabet. */
  lemma ClassIsAlphabet(c: char)
    ensures IsBase58Char(c) <==> c in ALPHABET
  {
    if IsBase58Char(c) {
      AlphabetAt(IndexOf(c));
    }
    if c in ALPHABET {
      AlphabetAt(0);
      var i :| 0 <= i < |ALPHABET| && ALPHABET[i] == c;
      AlphabetAt(i);
    }
  }

  predicate IsBase58(s: string) {
    forall i :: 0 <= i < |s| ==> IsBase58Char(s[i])
  }

  function Indices(s: string): (ds: seq<nat>)
    requires IsBase58(s)
    ensures |ds| == |s| && IsDigits(58, ds)
  {
    seq(|s|, i requires 0 <= i < |s| => IndexOf(s[i]))
  }

  function Letters(ds: seq<nat>): (s: string)
    requires IsDigits(58, ds)
    ensures |s| == |ds| && IsBase58(s)
  {
    seq(|ds|, i requires 0 <= i < |ds| => CharAt(ds[i]))
  }

  lemma LettersIndices(ds: seq<nat>)
    requires IsDigits(58, ds)
    ensures Indices(Letters(ds)) == ds
  {
    forall i | 0 <= i < |ds| ensures Indices(Letters(ds))[i] == ds[i] { IndexOfCharAt(ds[i]); }
  }

  lemma IndicesLetters(s: string)
    requires IsBase58(s)
    ensures Letters(Indices(s)) == s
  {
  }

  // ---------------------------------------------------------------------------
  // Changing the base
  // ---------------------------------------------------------------------------

  /** The same number in another base, with as many leading zeros as before. */
  function Recode(b: nat, c: nat, ds: seq<nat>): (r: seq<nat>)
    requires 2 <= c
    ensures IsDigits(c, r)
  {
    ToDigitsValue(c, Value(b, ds));
    Zeros(LeadingZeros(ds)) + ToDigits(c, Value(b, ds))
  }

  /** Changing the base there and back is the identity on every digit sequence. */
  lemma RecodeInverts(b: nat, c: nat, ds: seq<nat>)
    requires 2 <= b && 2 <= c && IsDigits(b, ds)
    ensures Recode(c, b, Recode(b, c, ds)) == ds
  {
    var k := LeadingZeros(ds);
    var rest, v := ds[k..], Value(b, ds);
    assert ds == Zeros(k) + rest;
    ValueLeading(b, k, rest);
    ValueToDigits(b, rest);
    ToDigitsValue(c, v);
    LeadingZerosOf(k, ToDigits(c, v));
    ValueLeading(c, k, ToDigits(c, v));
  }

  /** It is the same number, with as many leading zeros. */
  lemma RecodeKeeps(b: nat, c: nat, ds: seq<nat>)
    requires 2 <= c
    ensures Value(c, Recode(b, c, ds)) == Value(b, ds)
    ensures LeadingZeros(Recode(b, c, ds)) == LeadingZeros(ds)
  {
    hide ToDigits, Value;
    var k, v := LeadingZeros(ds), Value(b, ds);
    ToDigitsValue(c, v);
    LeadingZerosOf(k, ToDigits(c, v));
    ValueLeading(c, k, ToDigits(c, v));
  }

  function Encode(bytes: seq<nat>): string {
    Letters(Recode(256, 58, bytes))
  }

  /** None where the source throws on a character outside the alphabet. */
  function Decode(s: string): (r: Option<seq<nat>>)
    ensures r.Some? ==> IsDigits(256, r.value)
  {
    if IsBase58(s) then Some(Recode(58, 256, Indices(s))) else None
  }

  /** Decoding undoes encoding on every byte sequence, leading zeros included. */
  lemma DecodeEncode(bytes: seq<nat>)
    requires IsDigits(256, bytes)
    ensures Decode(Encode(bytes)) == Some(bytes)
  {
    LettersIndices(Recode(256, 58, bytes));
    RecodeInverts(256, 58, bytes);
  }

  /** The encoding spells the number the bytes spell, one leading '1' for every leading zero byte. */
  lemma EncodeSpells(bytes: seq<nat>)
    ensures IsBase58(Encode(bytes))
    ensures Value(58, Indices(Encode(bytes))) == Value(256, bytes)
    ensures LeadingZeros(Indices(Encode(bytes))) == LeadingZeros(bytes)
  {
    hide Value;
    LettersIndices(Recode(256, 58, bytes));
    RecodeKeeps(256, 58, bytes);
  }

  /** Encoding undoes decoding on every string over the alphabet; other strings are rejected. */
  lemma EncodeDecode(s: string)
    ensures Decode(s).Some? <==> IsBase58(s)
    ensures IsBase58(s) ==> Encode(Decode(s).value) == s
  {
    if IsBase58(s) {
      RecodeInverts(58, 256, Indices(s));
      IndicesLetters(s);
    }
  }

  // ---------------------------------------------------------------------------
  // The loops
  // ---------------------------------------------------------------------------

  method BigEndian(base: nat, ds: seq<nat>) returns (n: nat)
    ensures n == Value(base, ds)
  {
    n := 0;
    for i := 0 to |ds|
      invariant n == Value(base, ds[..i])
    {
      assert ds[..i + 1][..i] == ds[..i];
      MulIs(base, Value(base, ds[..i]));
      n := n * base + ds[i];
    }
    assert ds[..|ds|] == ds;
  }

  method Base58Encode(bytes: seq<nat>) returns (s: string)
    requires IsDigits(256, bytes)
    ensures s == Encode(bytes)
  {
    hide ToDigits, Value;
    var total := BigEndian(256, bytes);
    s := WriteDigits(total);
    ToDigitsValue(58, total);
    var i := 0;
    while i < |bytes| && bytes[i] == 0
      invariant i <= LeadingZeros(bytes)
      invariant s == Letters(Zeros(i) + ToDigits(58, total))
    {
      s := "1" + s;
      i := i + 1;
      assert Zeros(i) + ToDigits(58, total) == [0] + (Zeros(i - 1) + ToDigits(58, total));
    }
  }

  method WriteDigits(total: nat) returns (s: string)
    ensures IsDigits(58, ToDigits(58, total)) && s == Letters(ToDigits(58, total))
  {
    var n := total;
    s := "";
    ghost var written: seq<nat> := [];
    while n > 0
      invariant IsDigits(58, written) && s == Letters(written)
      invariant ToDigits(58, total) == ToDigits(58, n) + written
      decreases n
    {
      DivModSplit(n, 58);
      s := [CharAt(n % 58)] + s;
      written := [n % 58] + written;
      n := n / 58;
    }
  }

  method ReadIndices(s: string) returns (r: Option<seq<nat>>)
    ensures r == if IsBase58(s) then Some(Indices(s)) else None
  {
    var ds: seq<nat> := [];
    for i := 0 to |s|
      invariant IsBase58(s[..i]) && ds == Indices(s[..i])
    {
      if !IsBase58Char(s[i]) { return None; }
      ds := ds + [IndexOf(s[i])];
      assert s[..i + 1] == s[..i] + [s[i]];
    }
    assert s[..|s|] == s;
    return Some(ds);
  }

  method CountOnes(s: string) returns (leadingZeros: nat)
    requires IsBase58(s)
    ensures leadingZeros == LeadingZeros(Indices(s))
  {
    leadingZeros := 0;
    while leadingZeros < |s| && s[leadingZeros] == '1'
      invariant leadingZeros <= LeadingZeros(Indices(s))
    {
      assert Indices(s)[leadingZeros] == IndexOf('1') == 0;
      leadingZeros := leadingZeros + 1;
    }
    assert leadingZeros < |s| ==> CharAt(Indices(s)[leadingZeros]) == s[leadingZeros] != CharAt(0);
  }

  /** Every pair of hex digits becomes one byte behind the leading zeros. */
  method FillBytes(leadingZeros: nat, padded: string) returns (bytes: array<nat>)
    requires IsHex(padded) && |padded| % 2 == 0
    ensures fresh(bytes) && bytes[..] == Zeros(leadingZeros) + Pairs(padded)
  {
    var half := |padded| / 2;
    bytes := new nat[leadingZeros + half](_ => 0);
    for i := 0 to half
      invariant bytes.Length == leadingZeros + half
      invariant forall j :: 0 <= j < leadingZeros ==> bytes[j] == 0
      invariant forall j :: 0 <= j < i ==> bytes[leadingZeros + j] == Pairs(padded)[j]
    {
      bytes[leadingZeros + i] := HexValue(padded[2 * i]) * 16 + HexValue(padded[2 * i + 1]);
    }
  }

  method Base58Decode(s: string) returns (r: Option<seq<nat>>)
    ensures r == Decode(s)
  {
    hide ToDigits, Value, Indices, Pairs, HexChars, IsHex;
    var ds := ReadIndices(s);
    if ds.None? { return None; }
    var n := BigEndian(58, ds.value);
    var leadingZeros := CountOnes(s);
    ToDigitsValue(16, n);
    var hex := HexChars(ToDigits(16, n));
    var padded := if |hex| % 2 == 1 then "0" + hex else hex;
    PaddedPairs(n, hex, padded);
    var bytes := FillBytes(leadingZeros, padded);
    return Some(bytes[..]);
  }

  /** An odd number of hex digits gets one zero in front; the pairs are the bytes of the number. */
  lemma PaddedPairs(n: nat, hex: string, padded: string)
    requires IsDigits(16, ToDigits(16, n)) && hex == HexChars(ToDigits(16, n))
    requires padded == if |hex| % 2 == 1 then "0" + hex else hex
    ensures IsHex(padded) && |padded| % 2 == 0 && Pairs(padded) == ToDigits(256, n)
  {
    hide ToDigits, Value, PairUp;
    PaddedPairUp(16, 256, n);
    var ds := EvenPadded(ToDigits(16, n));
    assert padded == HexChars(ds);
    HexDigitsOfChars(ds);
    PairsArePaired(padded);
  }
}
