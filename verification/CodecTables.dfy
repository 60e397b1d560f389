/** The two codecs against their definitions in RFC 4648: base64 by groups of three bytes with the
    symbols of Table 1 (section 4), hexadecimal digit by digit (section 8); and text as bytes
    against RFC 3629. */
module CodecTables {
  import opened Basics
  import opened Base64
  import Calls
  import Hex

  const HEX_DIGITS: string := "0123456789abcdef"

  // ----- bits of numbers that are put together -----

  function Doubled(n: nat, m: nat): nat {
    if m == 0 then n else 2 * Doubled(n, m - 1)
  }

  lemma {:induction false} BitsOfSum(high: nat, low: nat, k: nat, m: nat)
    requires low < Pow2(m)
    ensures Bits(Doubled(high, m) + low, k + m) == Bits(high, k) + Bits(low, m)
  {
    if m > 0 {
      BitsOfSum(high, low / 2, k, m - 1);
    }
  }

  lemma SmallSums(high: nat)
    ensures Doubled(high, 2) == 4 * high && Doubled(high, 4) == 16 * high && Doubled(high, 6) == 64 * high
    ensures Pow2(2) == 4 && Pow2(4) == 16 && Pow2(6) == 64
  {
    assert Doubled(high, 1) == 2 * high && Pow2(1) == 2;
    assert Doubled(high, 2) == 4 * high && Pow2(2) == 4;
    assert Doubled(high, 3) == 8 * high && Pow2(3) == 8;
    assert Doubled(high, 4) == 16 * high && Pow2(4) == 16;
    assert Doubled(high, 5) == 32 * high && Pow2(5) == 32;
  }

  lemma CutTwo(n: nat, k: nat)
    ensures Bits(n, k + 2) == Bits(n / 4, k) + Bits(n % 4, 2)
  {
    hide Bits, Doubled, Pow2;
    SmallSums(n / 4);
    BitsOfSum(n / 4, n % 4, k, 2);
    assert n == 4 * (n / 4) + n % 4;
  }

  lemma CutFour(n: nat, k: nat)
    ensures Bits(n, k + 4) == Bits(n / 16, k) + Bits(n % 16, 4)
  {
    hide Bits, Doubled, Pow2;
    SmallSums(n / 16);
    BitsOfSum(n / 16, n % 16, k, 4);
    assert n == 16 * (n / 16) + n % 16;
  }

  lemma CutSix(n: nat, k: nat)
    ensures Bits(n, k + 6) == Bits(n / 64, k) + Bits(n % 64, 6)
  {
    hide Bits, Doubled, Pow2;
    SmallSums(n / 64);
    BitsOfSum(n / 64, n % 64, k, 6);
    assert n == 64 * (n / 64) + n % 64;
  }

  lemma BitsOfFirst(a: byte)
    ensures Bits(a as nat, 8) == Bits(First(a), 6) + Bits(a as nat % 4, 2)
  {
    hide Bits;
    CutTwo(a as nat, 6);
  }

  lemma BitsOfSecond(a: byte, b: byte)
    ensures Bits(a as nat % 4, 2) + Bits(b as nat / 16, 4) == Bits(Second(a, b), 6)
  {
    hide Bits;
    CutFour(Second(a, b), 2);
  }

  lemma BitsOfThird(b: byte, c: byte)
    ensures Bits(b as nat % 16, 4) + Bits(c as nat / 64, 2) == Bits(Third(b, c), 6)
  {
    hide Bits;
    CutTwo(Third(b, c), 4);
  }

  /** Three bytes are four groups of six bits. */
  lemma ThreeBytes(a: byte, b: byte, c: byte)
    ensures Bits(a as nat, 8) + Bits(b as nat, 8) + Bits(c as nat, 8)
      == Bits(First(a), 6) + Bits(Second(a, b), 6) + Bits(Third(b, c), 6) + Bits(Fourth(c), 6)
  {
    hide Bits, First, Second, Third;
    BitsOfFirst(a);
    BitsOfSecond(a, b);
    BitsOfThird(b, c);
    CutFour(b as nat, 4);
    CutSix(c as nat, 2);
  }

  function First(a: byte): sextet { a as nat / 4 }
  function Second(a: byte, b: byte): sextet { a as nat % 4 * 16 + b as nat / 16 }
  function Third(b: byte, c: byte): sextet { b as nat % 16 * 4 + c as nat / 64 }
  function Fourth(c: byte): sextet { c as nat % 64 }

  // ----- groups of three bytes -----

  lemma SpreadFirst(n: nat, rest: seq<nat>, w: nat)
    ensures Spread([n] + rest, w) == Bits(n, w) + Spread(rest, w)
  {
    assert ([n] + rest)[1..] == rest;
  }

  lemma SextetsAre(bytes: seq<byte>, v: seq<nat>)
    requires Below(v, 64) && Spread(v, 6) == Spread(Numbers(bytes), 8) + Zeros(Fill(|bytes|))
    ensures Sextets(bytes) == v
  {
    assert Pow2(6) == 64;
    GroupSpread(v, 6);
    GroupSpread(Sextets(bytes), 6);
  }

  lemma ThreeMore(count: nat)
    ensures Fill(count + 3) == Fill(count) && Padding(count + 3) == Padding(count)
  {
  }

  lemma Regroup(a: seq<bool>, b: seq<bool>, c: seq<bool>, s: seq<bool>, z: seq<bool>)
    ensures (a + (b + (c + s))) + z == (a + b + c) + (s + z)
  {
  }

  lemma RegroupFour(a: seq<bool>, b: seq<bool>, c: seq<bool>, d: seq<bool>, s: seq<bool>)
    ensures a + (b + (c + (d + s))) == (a + b + c + d) + s
  {
  }

  lemma SextetsOfThree(a: byte, b: byte, c: byte, rest: seq<byte>)
    ensures Sextets([a, b, c] + rest) == [First(a)] + ([Second(a, b)] + ([Third(b, c)] + ([Fourth(c)] + Sextets(rest))))
  {
    hide Bits, First, Second, Third, Fourth, Sextets, Fill, Spread, Zeros;
    var bytes := [a, b, c] + rest;
    var v3: seq<nat> := [Fourth(c)] + Sextets(rest);
    var v2: seq<nat> := [Third(b, c)] + v3;
    var v1: seq<nat> := [Second(a, b)] + v2;
    SpreadFirst(First(a), v1, 6);
    SpreadFirst(Second(a, b), v2, 6);
    SpreadFirst(Third(b, c), v3, 6);
    SpreadFirst(Fourth(c), Sextets(rest), 6);
    ThreeBytes(a, b, c);
    var n2 := [c as nat] + Numbers(rest);
    var n1 := [b as nat] + n2;
    assert Numbers(bytes) == [a as nat] + n1;
    SpreadFirst(a as nat, n1, 8);
    SpreadFirst(b as nat, n2, 8);
    SpreadFirst(c as nat, Numbers(rest), 8);
    ThreeMore(|rest|);
    var more := Spread(Numbers(rest), 8);
    Regroup(Bits(a as nat, 8), Bits(b as nat, 8), Bits(c as nat, 8), more, Zeros(Fill(|rest|)));
    RegroupFour(Bits(First(a), 6), Bits(Second(a, b), 6), Bits(Third(b, c), 6), Bits(Fourth(c), 6), Spread(Sextets(rest), 6));
    SextetsAre(bytes, [First(a)] + v1);
  }

  lemma {:induction false} ZeroBits(w: nat)
    ensures Bits(0, w) == Zeros(w)
  {
    if w > 0 {
      ZeroBits(w - 1);
    }
  }

  lemma SextetsOfOne(a: byte)
    ensures Sextets([a]) == [First(a)] + ([Second(a, 0)] + [])
  {
    hide Bits, First, Second, Sextets;
    BitsOfFirst(a);
    BitsOfSecond(a, 0);
    ZeroBits(4);
    SpreadFirst(First(a), [Second(a, 0)] + [], 6);
    SpreadFirst(Second(a, 0), [], 6);
    SpreadFirst(a as nat, [], 8);
    assert Numbers([a]) == [a as nat] + [];
    SextetsAre([a], [First(a)] + ([Second(a, 0)] + []));
  }

  lemma SextetsOfTwo(a: byte, b: byte)
    ensures Sextets([a, b]) == [First(a)] + ([Second(a, b)] + ([Third(b, 0)] + []))
  {
    hide Bits, First, Second, Third, Sextets;
    BitsOfFirst(a);
    BitsOfSecond(a, b);
    BitsOfThird(b, 0);
    CutFour(b as nat, 4);
    ZeroBits(2);
    var v1: seq<nat> := [Third(b, 0)] + [];
    var v: seq<nat> := [Second(a, b)] + v1;
    SpreadFirst(First(a), v, 6);
    SpreadFirst(Second(a, b), v1, 6);
    SpreadFirst(Third(b, 0), [], 6);
    var n1: seq<nat> := [b as nat] + [];
    SpreadFirst(a as nat, n1, 8);
    SpreadFirst(b as nat, [], 8);
    assert Numbers([a, b]) == [a as nat] + n1;
    SextetsAre([a, b], [First(a)] + v);
  }

  /** Table 1: the ends of its runs of symbols, each of which is in the order of its characters. */
  lemma SymbolTable()
    ensures Symbol(0) == 'A' && Symbol(26) == 'a' && Symbol(52) == '0' && Symbol(62) == '+' && Symbol(63) == '/'
    ensures forall v: sextet :: v < 61 && v != 25 && v != 51 ==> Symbol(v + 1) as int == Symbol(v) as int + 1
  {
  }

  lemma SymbolsFirst(n: sextet, rest: seq<nat>)
    requires Below(rest, 64)
    ensures Symbols([n] + rest) == [Symbol(n)] + Symbols(rest)
  {
    assert ([n] + rest)[1..] == rest;
  }

  /** The encoding of section 4 of RFC 4648: three bytes to four symbols, and for one or two bytes at
      the end as many symbols as they need and padding. */
  lemma EncodeByThrees(bytes: seq<byte>)
    ensures Encode([]) == ""
    ensures |bytes| == 1 ==>
      Encode(bytes) == [Symbol(First(bytes[0])), Symbol(Second(bytes[0], 0)), '=', '=']
    ensures |bytes| == 2 ==>
      Encode(bytes) == [Symbol(First(bytes[0])), Symbol(Second(bytes[0], bytes[1])), Symbol(Third(bytes[1], 0)), '=']
    ensures |bytes| >= 3 ==>
      Encode(bytes) == [Symbol(First(bytes[0])), Symbol(Second(bytes[0], bytes[1])),
                        Symbol(Third(bytes[1], bytes[2])), Symbol(Fourth(bytes[2]))] + Encode(bytes[3..])
  {
    hide Symbol, First, Second, Third, Fourth, Sextets;
    if |bytes| == 0 {
      SextetsAre([], []);
    } else if |bytes| == 1 {
      EncodeOne(bytes[0]);
      assert bytes == [bytes[0]];
    } else if |bytes| == 2 {
      EncodeTwo(bytes[0], bytes[1]);
      assert bytes == [bytes[0], bytes[1]];
    } else {
      EncodeThree(bytes[0], bytes[1], bytes[2], bytes[3..]);
      assert bytes == [bytes[0], bytes[1], bytes[2]] + bytes[3..];
    }
  }

  lemma EncodeOne(a: byte)
    ensures Encode([a]) == [Symbol(First(a)), Symbol(Second(a, 0)), '=', '=']
  {
    hide Symbol, First, Second, Sextets;
    SextetsOfOne(a);
    SymbolsFirst(First(a), [Second(a, 0)] + []);
    SymbolsFirst(Second(a, 0), []);
  }

  lemma EncodeTwo(a: byte, b: byte)
    ensures Encode([a, b]) == [Symbol(First(a)), Symbol(Second(a, b)), Symbol(Third(b, 0)), '=']
  {
    hide Symbol, First, Second, Third, Sextets;
    SextetsOfTwo(a, b);
    SymbolsFirst(First(a), [Second(a, b)] + ([Third(b, 0)] + []));
    SymbolsFirst(Second(a, b), [Third(b, 0)] + []);
    SymbolsFirst(Third(b, 0), []);
  }

  lemma EncodeThree(a: byte, b: byte, c: byte, rest: seq<byte>)
    ensures Encode([a, b, c] + rest)
      == [Symbol(First(a)), Symbol(Second(a, b)), Symbol(Third(b, c)), Symbol(Fourth(c))] + Encode(rest)
  {
    hide Symbol, First, Second, Third, Fourth, Sextets, Padding, Symbols;
    SextetsOfThree(a, b, c, rest);
    ThreeMore(|rest|);
    var v: seq<nat> := Sextets(rest);
    SymbolsFirst(First(a), [Second(a, b)] + ([Third(b, c)] + ([Fourth(c)] + v)));
    SymbolsFirst(Second(a, b), [Third(b, c)] + ([Fourth(c)] + v));
    SymbolsFirst(Third(b, c), [Fourth(c)] + v);
    SymbolsFirst(Fourth(c), v);
    RegroupSymbols(Symbol(First(a)), Symbol(Second(a, b)), Symbol(Third(b, c)), Symbol(Fourth(c)), Symbols(v), Padding(|rest|));
  }

  lemma RegroupSymbols(s1: char, s2: char, s3: char, s4: char, rest: string, padding: string)
    ensures ([s1] + ([s2] + ([s3] + ([s4] + rest)))) + padding == [s1, s2, s3, s4] + (rest + padding)
  {
    assert [s1] + ([s2] + ([s3] + ([s4] + rest))) == [s1, s2, s3, s4] + rest;
  }

  // ----- hexadecimal -----

  lemma {:induction false} HexDigitAt(bytes: seq<byte>, i: nat)
    requires i < |bytes|
    ensures Hex.Encode(bytes)[2 * i] == HEX_DIGITS[bytes[i] as nat / 16]
    ensures Hex.Encode(bytes)[2 * i + 1] == HEX_DIGITS[bytes[i] as nat % 16]
  {
    if i > 0 {
      HexDigitAt(bytes[1..], i - 1);
    }
  }

  // ----- UTF-8 -----

  lemma SixBitDigits(n: nat)
    ensures n == n / 64 * 64 + n % 64
    ensures n == n / 4096 * 4096 + n / 64 % 64 * 64 + n % 64
    ensures n == n / 262144 * 262144 + n / 4096 % 64 * 4096 + n / 64 % 64 * 64 + n % 64
  {
    assert n / 64 / 64 == n / 4096 && n / 4096 / 64 == n / 262144;
  }

  /** The value of continuation bytes. */
  function Continued(high: int, b: byte): int {
    high * 64 + (b as int - 0x80)
  }

  predicate IsContinuation(b: byte) {
    0x80 <= b < 0xC0
  }

  /** The bytes of a character (section 3 of RFC 3629): as many as its code point needs, which is
      what their lower bits make up. */
  ghost predicate IsUtf8(n: int, b: seq<byte>) {
    if n < 0x80 then |b| == 1 && b[0] as int == n
    else if n < 0x800 then
      |b| == 2 && 0xC0 <= b[0] < 0xE0 && IsContinuation(b[1]) && Continued(b[0] as int - 0xC0, b[1]) == n
    else if n < 0x1_0000 then
      |b| == 3 && 0xE0 <= b[0] < 0xF0 && IsContinuation(b[1]) && IsContinuation(b[2])
      && Continued(Continued(b[0] as int - 0xE0, b[1]), b[2]) == n
    else
      |b| == 4 && 0xF0 <= b[0] < 0xF8 && IsContinuation(b[1]) && IsContinuation(b[2]) && IsContinuation(b[3])
      && Continued(Continued(Continued(b[0] as int - 0xF0, b[1]), b[2]), b[3]) == n
  }

  lemma Utf8Spells(c: char)
    ensures IsUtf8(c as int, Calls.Utf8Char(c))
  {
    SixBitDigits(c as int);
  }
}
