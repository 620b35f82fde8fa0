/**
 The two encodings of a subgraph deployment id: 0x and 64 hex digits, or the CIDv0 form,
 a sha2-256 multihash (0x12, 0x20, then 32 bytes) in base 58, which always reads "Qm...".
 */
module Ipfs {
  import opened Arithmetic
  import opened Digits
  import opened Options
  import opened Hex
  import opened Base58

  const HEADER: seq<nat> := [0x12, 0x20]

  /** ^0x[a-fA-F0-9]{64}$ */
  predicate IsBytes32(s: string) {
    |s| == 66 && s[0] == '0' && s[1] == 'x' && IsHex(s[2..])
  }

  /** ^Qm[1-9A-HJ-NP-Za-km-z]{44}$ */
  predicate IsQm(s: string) {
    |s| == 46 && s[0] == 'Q' && s[1] == 'm' && IsBase58(s[2..])
  }

  /** The two patterns, character by character. */
  lemma PatternsAre(s: string)
    ensures IsQm(s) <==> |s| == 46 && s[..2] == "Qm" && forall i :: 2 <= i < 46 ==> s[i] in ALPHABET
    ensures IsBytes32(s) <==> |s| == 66 && s[..2] == "0x" && forall i :: 2 <= i < 66 ==> s[i] in "0123456789abcdefABCDEF"
  {
    if |s| == 46 {
      forall i | 2 <= i < 46 ensures s[2..][i - 2] == s[i] && (IsBase58Char(s[i]) <==> s[i] in ALPHABET) { ClassIsAlphabet(s[i]); }
      if IsBase58(s[2..]) {
        forall i | 2 <= i < 46 ensures s[i] in ALPHABET { assert s[2..][i - 2] == s[i]; }
      }
      assert s[..2] == [s[0], s[1]];
    }
    if |s| == 66 {
      forall i | 2 <= i < 66 ensures s[2..][i - 2] == s[i] && (IsHexChar(s[i]) <==> s[i] in "0123456789abcdefABCDEF") {
        HexClass(s[i]);
      }
      if IsHex(s[2..]) {
        forall i | 2 <= i < 66 ensures s[i] in "0123456789abcdefABCDEF" { assert s[2..][i - 2] == s[i]; }
      }
      assert s[..2] == [s[0], s[1]];
    }
  }

  /** Anything else is refused, and nothing of these forms is by the first conversion. */
  lemma ConvertsIff(s: string)
    ensures ToQm(s).Some? <==> IsQm(s) || IsBytes32(s)
    ensures ToBytes32(s).Some? ==> IsQm(s) || IsBytes32(s)
    ensures IsBytes32(s) ==> ToBytes32(s).Some?
  {
    hide Encode, Decode;
  }

  function HashOf(s: string): (h: seq<nat>)
    requires IsBytes32(s)
    ensures |h| == 32 && IsDigits(256, h)
  {
    Pairs(s[2..])
  }

  function QmOf(hash: seq<nat>): string {
    Encode(HEADER + hash)
  }

  /** None where the source throws. */
  function ToQm(s: string): Option<string> {
    if IsQm(s) then Some(s) else if IsBytes32(s) then Some(QmOf(HashOf(s))) else None
  }

  function ToBytes32(s: string): Option<string> {
    if IsBytes32(s) then Some("0x" + ToLower(s[2..]))
    else if IsQm(s) then
      match Decode(s)
      case None => None
      case Some(bytes) =>
        if |bytes| != 34 || bytes[0] != 0x12 || bytes[1] != 0x20 then None
        else Some("0x" + HexOf(bytes[2..]))
    else None
  }

  method ToQmDeploymentId(input: string) returns (r: Option<string>)
    ensures r == ToQm(input)
  {
    if IsQm(input) { return Some(input); }
    if !IsBytes32(input) { return None; }
    var full := "1220" + input[2..];
    HeaderPairs(input[2..]);
    var bytes := FillBytes(0, full);
    assert bytes[..] == HEADER + HashOf(input);
    var qm := Base58Encode(bytes[..]);
    return Some(qm);
  }

  lemma HeaderPairs(hex: string)
    requires IsHex(hex) && |hex| % 2 == 0
    ensures IsHex("1220" + hex) && Pairs("1220" + hex) == HEADER + Pairs(hex)
  {
    var full := "1220" + hex;
    assert forall i :: 4 <= i < |full| ==> full[i] == hex[i - 4];
    assert HexValue('1') == 1 && HexValue('2') == 2 && HexValue('0') == 0;
    forall i | 0 <= i < |full| / 2 ensures Pairs(full)[i] == (HEADER + Pairs(hex))[i] {
      if 2 <= i { assert full[2 * i] == hex[2 * (i - 2)] && full[2 * i + 1] == hex[2 * (i - 2) + 1]; }
    }
  }

  method ToBytes32DeploymentId(input: string) returns (r: Option<string>)
    ensures r == ToBytes32(input)
  {
    if IsBytes32(input) { return Some("0x" + ToLower(input[2..])); }
    if !IsQm(input) { return None; }
    var decoded := Base58Decode(input);
    if decoded.None? { return None; }
    var bytes := decoded.value;
    if |bytes| != 34 || bytes[0] != 0x12 || bytes[1] != 0x20 { return None; }
    var hex := "";
    for i := 2 to |bytes|
      invariant hex == HexOf(bytes[2..i])
    {
      hex := hex + [HexChar(bytes[i] / 16), HexChar(bytes[i] % 16)];
      HexAppend(bytes[2..i], bytes[i]);
      assert bytes[2..i + 1] == bytes[2..i] + [bytes[i]];
    }
    assert bytes[2..|bytes|] == bytes[2..];
    return Some("0x" + hex);
  }

  lemma HexAppend(b: seq<nat>, x: nat)
    requires IsDigits(256, b) && x < 256
    ensures HexOf(b + [x]) == HexOf(b) + [HexChar(x / 16), HexChar(x % 16)]
  {
    forall i | 0 <= i < 2 * |b| + 2
      ensures HexOf(b + [x])[i] == (HexOf(b) + [HexChar(x / 16), HexChar(x % 16)])[i]
    {
      assert i < 2 * |b| ==> (b + [x])[i / 2] == b[i / 2];
    }
  }

  // ---------------------------------------------------------------------------
  // Why 46 characters and why "Qm"
  // ---------------------------------------------------------------------------

  /** 58^44 */
  const P58: nat := 389790918707373377135528568990913592653094657612049369038476873218241589149696

  /** 2^256 */
  const P256: nat := 0x1_0000000000000000_0000000000000000_0000000000000000_0000000000000000

  lemma PowSum(b: nat, e: nat, v: nat, f: nat, w: nat)
    requires 0 < b && Pow(b, e) == v && Pow(b, f) == w
    ensures Pow(b, e + f) == v * w
  {
    PowAdd(b, e, f);
    MulIs(v, w);
  }

  lemma PowOne(b: nat)
    requires 0 < b
    ensures Pow(b, 1) == b
  {
    assert Pow(b, 0) == 1;
    MulIs(b, 1);
  }

  lemma PowersOf256(b: nat)
    requires b == 256
    ensures Pow(b, 32) == P256
  {
    PowOne(b);
    PowDouble(b, 1, b);
    PowDouble(b, 2, 0x1_0000);
    PowDouble(b, 4, 0x1_0000_0000);
    PowDouble(b, 8, 0x1_0000_0000_0000_0000);
    PowDouble(b, 16, 0x1_0000_0000_0000_0000_0000_0000_0000_0000);
  }

  lemma PowersOf58(b: nat)
    requires b == 58
    ensures Pow(b, 44) == P58
  {
    PowOne(b);
    PowDouble(b, 1, b);
    PowDouble(b, 2, 3364);
    PowDouble(b, 4, 11316496);
    PowDouble(b, 8, 128063081718016);
    PowDouble(b, 16, 16400152899115243850138976256);
    PowSum(b, 32, 268965015114358137726910587140455987105619365599731777536, 8, 128063081718016);
    PowSum(b, 40, 34444488709877454747081479018851205589883534409595458615323760395288576, 4, 11316496);
  }

  // ---------------------------------------------------------------------------
  // The shape of a Qm id
  // ---------------------------------------------------------------------------

  /** The numbers whose 34 bytes start with the multihash header: [0x1220 * 2^256, 0x1221 * 2^256). */
  predicate InHeaderRange(v: nat) {
    0x1220 * P256 <= v < 0x1221 * P256
  }

  lemma HeaderRange(bytes: seq<nat>)
    requires Canonical(256, bytes)
    ensures (|bytes| == 34 && bytes[0] == 0x12 && bytes[1] == 0x20) <==> InHeaderRange(Value(256, bytes))
  {
    hide Pow, Value;
    LeadingTwo(256, bytes, 32, 0x12, 0x20);
    PowersOf256(256);
    MulIs(256, 0x12);
    MulIs(P256, 0x1220);
  }

  /** The numbers whose 46 base-58 digits read "Qm...". */
  lemma QmRange(ds: seq<nat>)
    requires Canonical(58, ds)
    ensures (|ds| == 46 && ds[0] == 23 && ds[1] == 44) <==> 1378 * P58 <= Value(58, ds) < 1379 * P58
  {
    hide Pow, Value;
    LeadingTwo(58, ds, 44, 23, 44);
    PowersOf58(58);
    MulIs(58, 23);
    MulIs(P58, 1378);
  }

  /** Every header number is inside the Qm interval. */
  lemma HeaderIsQm(v: nat)
    requires InHeaderRange(v)
    ensures 1378 * P58 <= v < 1379 * P58
  {
  }

  lemma QIsIndex23()
    ensures CharAt(23) == 'Q' && CharAt(44) == 'm'
  {
  }

  lemma FullDigits(hash: seq<nat>)
    requires |hash| == 32 && IsDigits(256, hash)
    ensures Canonical(256, HEADER + hash) && LeadingZeros(HEADER + hash) == 0
    ensures InHeaderRange(Value(256, HEADER + hash))
  {
    assert (HEADER + hash)[0] == 0x12;
    HeaderRange(HEADER + hash);
  }

  /** The Qm form of every 32-byte hash is 46 characters of the alphabet starting with "Qm". */
  lemma QmShape(hash: seq<nat>)
    requires |hash| == 32 && IsDigits(256, hash)
    ensures IsQm(QmOf(hash))
  {
    hide ToDigits, Value;
    FullDigits(hash);
    var v := Value(256, HEADER + hash);
    HeaderIsQm(v);
    ToDigitsValue(58, v);
    QmRange(ToDigits(58, v));
    assert Recode(256, 58, HEADER + hash) == ToDigits(58, v);
    QIsIndex23();
  }

  /** A string matching the Qm pattern, as base-58 digits. */
  lemma QmDigits(s: string)
    requires IsQm(s)
    ensures IsBase58(s) && Canonical(58, Indices(s)) && LeadingZeros(Indices(s)) == 0
  {
    forall i | 0 <= i < |s| ensures IsBase58Char(s[i]) {
      if 2 <= i { assert s[2..][i - 2] == s[i]; }
    }
    assert Indices(s)[0] == 23;
  }

  // ---------------------------------------------------------------------------
  // Conversions
  // ---------------------------------------------------------------------------

  /** The Qm form of a 0x id spells 0x1220 * 2^256 plus the number its 64 hex digits spell. */
  lemma QmSpells(s: string)
    requires IsBytes32(s)
    ensures ToQm(s).Some? && IsBase58(ToQm(s).value)
    ensures Value(58, Indices(ToQm(s).value)) == 0x1220 * P256 + Value(16, HexDigits(s[2..]))
  {
    hide Value, Encode, Indices, Pow;
    var hash := HashOf(s);
    assert !IsQm(s);
    EncodeSpells(HEADER + hash);
    ValueConcat(256, HEADER, hash);
    ValueOfTwo(256, 0x12, 0x20);
    PowersOf256(256);
    MulIs(256, 0x12);
    MulIs(0x1220, P256);
    PairsArePaired(s[2..]);
    PairUpValue(16, 256, HexDigits(s[2..]));
  }

  /** The exact condition for a Qm-shaped string to be a deployment id. */
  lemma ToBytes32Iff(s: string)
    requires IsQm(s)
    ensures IsBase58(s)
    ensures ToBytes32(s).Some? <==> InHeaderRange(Value(58, Indices(s)))
  {
    hide ToDigits, Value;
    QmDigits(s);
    var v := Value(58, Indices(s));
    ToDigitsValue(256, v);
    HeaderRange(ToDigits(256, v));
    assert Recode(58, 256, Indices(s)) == ToDigits(256, v);
  }

  /** The number that "Qm" followed by ones spells. */
  lemma OnesValue(b: nat)
    requires b == 58
    ensures Value(b, [23, 44] + Zeros(44)) == 1378 * P58
  {
    hide Value, Pow;
    ValueTrailing(b, [23, 44], 44);
    ValueOfTwo(b, 23, 44);
    MulIs(b, 23);
    PowersOf58(b);
    MulIs(1378, P58);
  }

  function QmOnes(): string {
    Letters([23, 44] + Zeros(44))
  }

  /** Not every Qm-shaped string converts: "Qm" and 44 ones decode to another header. */
  lemma QmOnesRejected()
    ensures IsQm(QmOnes()) && ToBytes32(QmOnes()) == None
  {
    hide Value, Pow, ToBytes32;
    var ds := [23, 44] + Zeros(44);
    assert QmOnes()[2..] == Letters(Zeros(44));
    QIsIndex23();
    LettersIndices(ds);
    OnesValue(58);
    ToBytes32Iff(QmOnes());
  }

  /** Any bytes32 id survives the trip through its Qm form, with its hex digits in lower case. */
  lemma Bytes32RoundTrip(s: string)
    requires IsBytes32(s)
    ensures ToQm(s).Some? && IsQm(ToQm(s).value)
    ensures ToBytes32(ToQm(s).value) == Some("0x" + ToLower(s[2..]))
    ensures ToBytes32(s) == Some("0x" + ToLower(s[2..]))
  {
    hide Encode, Decode;
    var hash := HashOf(s);
    var full := HEADER + hash;
    QmShape(hash);
    DecodeEncode(full);
    HexOfPairs(s[2..]);
    assert full[2..] == hash;
    var q := QmOf(hash);
    assert !IsBytes32(q);
    assert !IsQm(s);
  }

  /** Any Qm id that converts at all comes back unchanged. */
  lemma QmRoundTrip(s: string)
    requires IsQm(s) && ToBytes32(s).Some?
    ensures IsBytes32(ToBytes32(s).value)
    ensures ToQm(ToBytes32(s).value) == Some(s)
    ensures ToQm(s) == Some(s)
  {
    hide Encode, Decode, Value, ToDigits;
    EncodeDecode(s);
    QmDigits(s);
    var bytes := Decode(s).value;
    var t := ToBytes32(s).value;
    assert !IsBytes32(s);
    assert t == "0x" + HexOf(bytes[2..]);
    assert t[2..] == HexOf(bytes[2..]);
    PairsOfHex(bytes[2..]);
    assert bytes == HEADER + bytes[2..];
    assert !IsQm(t);
  }

  /** Two bytes32 ids have the same Qm form exactly when they differ at most in hex case. */
  lemma QmInjective(s: string, t: string)
    requires IsBytes32(s) && IsBytes32(t)
    ensures ToQm(s) == ToQm(t) <==> ToBytes32(s) == ToBytes32(t)
  {
    Bytes32RoundTrip(s);
    Bytes32RoundTrip(t);
    assert !IsQm(s) && !IsQm(t);
    if ToBytes32(s) == ToBytes32(t) {
      SameLowerSameBytes(s[2..], t[2..]);
    }
  }

  lemma SameLowerSameBytes(x: string, y: string)
    requires IsHex(x) && IsHex(y) && |x| == |y| && |x| % 2 == 0
    requires "0x" + ToLower(x) == "0x" + ToLower(y)
    ensures Pairs(x) == Pairs(y)
  {
    assert ToLower(x) == ("0x" + ToLower(x))[2..] == ToLower(y);
    forall i | 0 <= i < |x| ensures HexValue(x[i]) == HexValue(y[i]) {
      assert ToLower(x)[i] == ToLower(y)[i];
    }
  }
}
