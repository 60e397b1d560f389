/** The standard base64 codec in its strict form (sections 3.5 and 4 of RFC 4648): the bits of
    the bytes regrouped by six, one symbol a group, padding required, and the bits that fill the
    last group must be zero. */
module Base64 {
  import opened Basics

  // ----- bits -----

  /** The low `w` bits of a number, the most significant first. */
  function Bits(n: nat, w: nat): seq<bool> {
    if w == 0 then [] else Bits(n / 2, w - 1) + [n % 2 == 1]
  }

  function Number(bits: seq<bool>): nat {
    if bits == [] then 0 else 2 * Number(bits[..|bits| - 1]) + (if bits[|bits| - 1] then 1 else 0)
  }

  function Spread(numbers: seq<nat>, w: nat): seq<bool> {
    if numbers == [] then [] else Bits(numbers[0], w) + Spread(numbers[1..], w)
  }

  function Group(bits: seq<bool>, w: nat): seq<nat>
    requires w > 0
  {
    if |bits| < w then [] else [Number(bits[..w])] + Group(bits[w..], w)
  }

  ghost predicate Below(numbers: seq<nat>, bound: nat) {
    forall i :: 0 <= i < |numbers| ==> numbers[i] < bound
  }

  lemma {:induction false} NumberOfBits(n: nat, w: nat)
    requires n < Pow2(w)
    ensures |Bits(n, w)| == w && Number(Bits(n, w)) == n
  {
    if w > 0 {
      NumberOfBits(n / 2, w - 1);
      assert Bits(n, w)[..w - 1] == Bits(n / 2, w - 1);
    }
  }

  lemma {:induction false} BitsOfNumber(bits: seq<bool>)
    ensures Number(bits) < Pow2(|bits|) && Bits(Number(bits), |bits|) == bits
  {
    if bits != [] {
      BitsOfNumber(bits[..|bits| - 1]);
      assert bits == bits[..|bits| - 1] + [bits[|bits| - 1]];
    }
  }

  lemma {:induction false} GroupSpread(numbers: seq<nat>, w: nat)
    requires w > 0 && Below(numbers, Pow2(w))
    ensures Group(Spread(numbers, w), w) == numbers
  {
    if numbers != [] {
      NumberOfBits(numbers[0], w);
      assert Below(numbers[1..], Pow2(w));
      GroupSpread(numbers[1..], w);
      assert numbers == [numbers[0]] + numbers[1..];
      assert Spread(numbers, w)[..w] == Bits(numbers[0], w);
      assert Spread(numbers, w)[w..] == Spread(numbers[1..], w);
    }
  }

  lemma {:induction false} BitsLength(n: nat, w: nat)
    ensures |Bits(n, w)| == w
  {
    if w > 0 {
      BitsLength(n / 2, w - 1);
    }
  }

  lemma {:induction false} SextetBitCount(numbers: seq<nat>)
    ensures |Spread(numbers, 6)| == 6 * |numbers|
  {
    if numbers != [] {
      BitsLength(numbers[0], 6);
      SextetBitCount(numbers[1..]);
    }
  }

  lemma {:induction false} ByteBitCount(numbers: seq<nat>)
    ensures |Spread(numbers, 8)| == 8 * |numbers|
  {
    if numbers != [] {
      BitsLength(numbers[0], 8);
      ByteBitCount(numbers[1..]);
    }
  }

  lemma {:induction false} SpreadGroup(bits: seq<bool>, w: nat, count: nat)
    requires w > 0 && |bits| == count * w
    ensures |Group(bits, w)| == count && Below(Group(bits, w), Pow2(w)) && Spread(Group(bits, w), w) == bits
  {
    if count > 0 {
      assert (count - 1) * w == count * w - w && (count - 1) * w >= 0;
      BitsOfNumber(bits[..w]);
      SpreadGroup(bits[w..], w, count - 1);
      assert bits == bits[..w] + bits[w..];
    } else {
      assert count * w == 0;
    }
  }

  // ----- symbols -----

  type sextet = n: nat | n < 64

  /** Table 1 of RFC 4648. */
  function Symbol(v: sextet): char {
    if v < 26 then 'A' + v as char
    else if v < 52 then 'a' + (v - 26) as char
    else if v < 62 then '0' + (v - 52) as char
    else if v == 62 then '+'
    else '/'
  }

  function SymbolValue(c: char): Option<sextet> {
    if 'A' <= c <= 'Z' then Some((c - 'A') as nat)
    else if 'a' <= c <= 'z' then Some((c - 'a') as nat + 26)
    else if '0' <= c <= '9' then Some((c - '0') as nat + 52)
    else if c == '+' then Some(62)
    else if c == '/' then Some(63)
    else None
  }

  function Symbols(v: seq<nat>): string
    requires Below(v, 64)
  {
    if v == [] then "" else [Symbol(v[0])] + Symbols(v[1..])
  }

  function Values(s: string): Option<seq<nat>> {
    if s == "" then Some([])
    else
      match (SymbolValue(s[0]), Values(s[1..]))
      case (Some(v), Some(rest)) => Some([v] + rest)
      case _ => None
  }

  lemma SymbolHasValue(v: sextet)
    ensures SymbolValue(Symbol(v)) == Some(v) && Symbol(v) != '='
  {
  }

  lemma ValueHasSymbol(c: char)
    requires SymbolValue(c).Some?
    ensures Symbol(SymbolValue(c).value) == c
  {
  }

  lemma {:induction false} ValuesOfSymbols(v: seq<nat>)
    requires Below(v, 64)
    ensures |Symbols(v)| == |v| && Values(Symbols(v)) == Some(v)
  {
    hide Symbol, SymbolValue;
    if v != [] {
      SymbolHasValue(v[0]);
      ValuesOfSymbols(v[1..]);
      assert Symbols(v)[0] == Symbol(v[0]) && Symbols(v)[1..] == Symbols(v[1..]);
      assert v == [v[0]] + v[1..];
    }
  }

  lemma {:induction false} SymbolsUnpadded(v: seq<nat>)
    requires Below(v, 64)
    ensures '=' !in Symbols(v)
  {
    if v != [] {
      SymbolHasValue(v[0]);
      SymbolsUnpadded(v[1..]);
    }
  }

  lemma {:induction false} SymbolsOfValues(s: string)
    requires Values(s).Some?
    ensures |Values(s).value| == |s| && Below(Values(s).value, 64) && Symbols(Values(s).value) == s
  {
    hide Symbol, SymbolValue;
    if s != "" {
      ValueHasSymbol(s[0]);
      SymbolsOfValues(s[1..]);
      assert Values(s).value[1..] == Values(s[1..]).value;
    }
  }

  // ----- the codec -----

  function Numbers(bytes: seq<byte>): (numbers: seq<nat>)
    ensures |numbers| == |bytes| && Below(numbers, 256)
  {
    seq(|bytes|, i requires 0 <= i < |bytes| => bytes[i] as nat)
  }

  function Bytes(numbers: seq<nat>): (bytes: seq<byte>)
    requires Below(numbers, 256)
    ensures Numbers(bytes) == numbers
  {
    seq(|numbers|, i requires 0 <= i < |numbers| => numbers[i] as byte)
  }

  /** How many zero bits fill up the last group. */
  function Fill(bytes: nat): nat {
    match bytes % 3
    case 0 => 0
    case 1 => 4
    case _ => 2
  }

  lemma FillCounts(bytes: nat)
    ensures (8 * bytes + Fill(bytes)) % 6 == 0 && (8 * bytes + Fill(bytes)) / 8 == bytes
    ensures ((8 * bytes + Fill(bytes)) / 6 + |Padding(bytes)|) == (bytes + 2) / 3 * 4
    ensures ((8 * bytes + Fill(bytes)) / 6 + |Padding(bytes)|) % 4 == 0
    ensures bytes > 0 ==> (8 * bytes + Fill(bytes)) / 6 >= 2
  {
    var g := bytes / 3;
    assert bytes == 3 * g + bytes % 3;
  }

  lemma SextetCounts(sextets: nat)
    requires sextets % 4 != 1
    ensures 6 * sextets == 6 * sextets / 8 * 8 + Fill(6 * sextets / 8)
    ensures Padding(6 * sextets / 8) == (match sextets % 4 case 0 => "" case 2 => "==" case _ => "=")
  {
    var g := sextets / 4;
    assert sextets == 4 * g + sextets % 4;
    assert 6 * sextets == 24 * g + 6 * (sextets % 4);
    match sextets % 4
    case 0 => assert 6 * sextets / 8 == 3 * g;
    case 2 => assert 6 * sextets / 8 == 3 * g + 1;
    case _ => assert 6 * sextets / 8 == 3 * g + 2;
  }

  function Zeros(count: nat): seq<bool> {
    seq(count, _ => false)
  }

  /** The bits, filled up with zeros to whole groups of six, one number a group. */
  function Sextets(bytes: seq<byte>): (v: seq<nat>)
    ensures Below(v, 64) && 6 * |v| == 8 * |bytes| + Fill(|bytes|)
    ensures Spread(v, 6) == Spread(Numbers(bytes), 8) + Zeros(Fill(|bytes|))
  {
    var bits := Spread(Numbers(bytes), 8) + Zeros(Fill(|bytes|));
    assert Pow2(6) == 64;
    ByteBitCount(Numbers(bytes));
    FillCounts(|bytes|);
    SpreadGroup(bits, 6, |bits| / 6);
    Group(bits, 6)
  }

  function Padding(count: nat): string {
    match count % 3
    case 0 => ""
    case 1 => "=="
    case _ => "="
  }

  function Encode(bytes: seq<byte>): string {
    Symbols(Sextets(bytes)) + Padding(|bytes|)
  }

  function Unpadded(s: string): string {
    if |s| < 2 || s[|s| - 1] != '=' then s
    else if s[|s| - 2] != '=' then s[..|s| - 1]
    else s[..|s| - 2]
  }

  /** The bits of the symbols without those that fill the last group, if these are zero. */
  function WholeBytes(v: seq<nat>): Option<seq<bool>> {
    var bits := Spread(v, 6);
    var whole := |bits| / 8 * 8;
    if bits[whole..] == Zeros(|bits| - whole) then Some(bits[..whole]) else None
  }

  function FromSextets(v: seq<nat>): Option<seq<byte>> {
    match WholeBytes(v)
    case None => None
    case Some(bits) =>
      assert Pow2(8) == 256;
      SpreadGroup(bits, 8, |bits| / 8);
      Some(Bytes(Group(bits, 8)))
  }

  function Decode(s: string): Option<seq<byte>> {
    if |s| % 4 != 0 then None
    else
      match Values(Unpadded(s))
      case None => None
      case Some(v) => FromSextets(v)
  }

  // ----- the two directions -----

  lemma WholeBytesOfSextets(bytes: seq<byte>)
    ensures WholeBytes(Sextets(bytes)) == Some(Spread(Numbers(bytes), 8))
  {
    ByteBitCount(Numbers(bytes));
    FillCounts(|bytes|);
    var bits := Spread(Sextets(bytes), 6);
    assert bits[8 * |bytes|..] == Zeros(|bits| - 8 * |bytes|);
  }

  lemma UnpaddedOfPadded(body: string, count: nat)
    requires '=' !in body && (count > 0 ==> |body| >= 2)
    ensures Unpadded(body + Padding(count)) == body
  {
    var s := body + Padding(count);
    assert s[..|body|] == body;
    if body != "" {
      assert s[|body| - 1] in body;
    }
  }

  lemma BytesOfNumbers(bytes: seq<byte>)
    ensures Bytes(Numbers(bytes)) == bytes
  {
  }

  lemma FromSextetsOfSextets(bytes: seq<byte>)
    ensures FromSextets(Sextets(bytes)) == Some(bytes)
  {
    WholeBytesOfSextets(bytes);
    assert Pow2(8) == 256;
    GroupSpread(Numbers(bytes), 8);
    BytesOfNumbers(bytes);
  }

  lemma EncodedLength(bytes: seq<byte>)
    ensures |Symbols(Sextets(bytes))| == |Sextets(bytes)| && (|bytes| > 0 ==> |Sextets(bytes)| >= 2)
    ensures |Encode(bytes)| == (|bytes| + 2) / 3 * 4 && |Encode(bytes)| % 4 == 0
  {
    var v := Sextets(bytes);
    ValuesOfSymbols(v);
    FillCounts(|bytes|);
    assert |v| == (8 * |bytes| + Fill(|bytes|)) / 6 by {
      assert 6 * |v| == 8 * |bytes| + Fill(|bytes|);
    }
    assert |Encode(bytes)| == |v| + |Padding(|bytes|)|;
  }

  /** Decoding undoes encoding, for every byte string. */
  lemma DecodeEncode(bytes: seq<byte>)
    ensures Decode(Encode(bytes)) == Some(bytes)
  {
    var v := Sextets(bytes);
    EncodedLength(bytes);
    ValuesOfSymbols(v);
    SymbolsUnpadded(v);
    UnpaddedOfPadded(Symbols(v), |bytes|);
    FromSextetsOfSextets(bytes);
  }

  lemma UnpaddedTail(s: string)
    requires |s| % 4 == 0
    ensures s == Unpadded(s) + (match |Unpadded(s)| % 4 case 0 => "" case 2 => "==" case _ => "=")
    ensures |Unpadded(s)| % 4 != 1
  {
    assert |s| > 0 ==> |s| >= 4;
    if |s| > 0 && s[|s| - 1] == '=' {
      assert s == s[..|s| - 1] + [s[|s| - 1]];
      assert s[..|s| - 1] == s[..|s| - 2] + [s[|s| - 2]];
    }
  }

  lemma SextetsOfWhole(v: seq<nat>, bytes: seq<byte>)
    requires Below(v, 64) && |v| % 4 != 1
    requires WholeBytes(v).Some? && Numbers(bytes) == Group(WholeBytes(v).value, 8)
    ensures Sextets(bytes) == v && |bytes| == 6 * |v| / 8
  {
    assert Pow2(6) == 64;
    var bits := Spread(v, 6);
    var whole := WholeBytes(v).value;
    SextetBitCount(v);
    SextetCounts(|v|);
    SpreadGroup(whole, 8, 6 * |v| / 8);
    assert bits == whole + Zeros(Fill(|bytes|));
    GroupSpread(v, 6);
    GroupSpread(Sextets(bytes), 6);
  }

  /** Encoding undoes decoding: what is accepted has exactly one spelling. */
  lemma EncodeDecode(s: string)
    requires Decode(s).Some?
    ensures Encode(Decode(s).value) == s
  {
    var v := Values(Unpadded(s)).value;
    SymbolsOfValues(Unpadded(s));
    UnpaddedTail(s);
    SextetCounts(|v|);
    assert Pow2(8) == 256;
    SextetsOfWhole(v, Decode(s).value);
  }

  /** The decoder accepts the encodings and nothing else. */
  lemma AcceptsExactlyEncodings(s: string)
    ensures Decode(s).Some? <==> exists b: seq<byte> :: Encode(b) == s
  {
    if Decode(s).Some? {
      EncodeDecode(s);
    }
    forall b: seq<byte> | Encode(b) == s
      ensures Decode(s).Some?
    {
      DecodeEncode(b);
    }
  }
}
