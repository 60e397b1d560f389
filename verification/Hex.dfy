/** Hexadecimal text (section 8 of RFC 4648): the reader of 32-byte values in payloads and the
    writer of the requester id. */
module Hex {
  import opened Basics
  import opened Json

  datatype HexError = MissingField | NotHex | WrongLength

  function Lower(c: char): char {
    if 'A' <= c <= 'Z' then c - 'A' + 'a' else c
  }

  function LowerCase(s: string): string {
    seq(|s|, i requires 0 <= i < |s| => Lower(s[i]))
  }

  function Nibble(c: char): (v: Option<nat>)
    ensures v.Some? ==> v.value < 16 && Digit(v.value) == Lower(c)
    ensures v.None? ==> forall n: nat :: n < 16 ==> Digit(n) != Lower(c)
  {
    if '0' <= c <= '9' then Some((c - '0') as nat)
    else if 'a' <= c <= 'f' then Some((c - 'a') as nat + 10)
    else if 'A' <= c <= 'F' then Some((c - 'A') as nat + 10)
    else None
  }

  function Digit(v: nat): char
    requires v < 16
  {
    if v < 10 then '0' + v as char else 'a' + (v - 10) as char
  }

  /** Lower-case hex, two digits a byte. */
  function Encode(bytes: seq<byte>): (s: string)
    ensures |s| == 2 * |bytes|
  {
    if bytes == [] then "" else [Digit(bytes[0] as nat / 16), Digit(bytes[0] as nat % 16)] + Encode(bytes[1..])
  }

  /** Both cases are read; an odd number of digits is an error. */
  function Decode(s: string): (r: Option<seq<byte>>)
    ensures r.Some? ==> |s| == 2 * |r.value|
  {
    if s == "" then Some([])
    else if |s| == 1 then None
    else
      match (Nibble(s[0]), Nibble(s[1]), Decode(s[2..]))
      case (Some(h), Some(l), Some(rest)) => Some([(h * 16 + l) as byte] + rest)
      case _ => None
  }

  /** `trim_start_matches("0x")`: the prefix goes as often as it stands there. */
  function TrimPrefix(s: string): string {
    if |s| >= 2 && s[0] == '0' && s[1] == 'x' then TrimPrefix(s[2..]) else s
  }

  function HexTo32(field: Option<Value>): Result<seq<byte>, HexError> {
    match field
    case Some(Str(s)) =>
      (match Decode(TrimPrefix(s))
       case None => Err(NotHex)
       case Some(bytes) => if |bytes| != 32 then Err(WrongLength) else Ok(bytes))
    case _ => Err(MissingField)
  }

  // ----- round trips -----

  lemma {:induction false} DecodeEncode(bytes: seq<byte>)
    ensures Decode(Encode(bytes)) == Some(bytes)
  {
    if bytes != [] {
      DecodeEncode(bytes[1..]);
      assert Encode(bytes)[2..] == Encode(bytes[1..]);
      assert bytes == [bytes[0]] + bytes[1..];
    }
  }

  lemma {:induction false} EncodeDecode(s: string)
    requires Decode(s).Some?
    ensures Encode(Decode(s).value) == LowerCase(s)
  {
    hide Nibble, Digit, Lower;
    if s != "" {
      EncodeDecode(s[2..]);
      var bytes := Decode(s).value;
      assert bytes[1..] == Decode(s[2..]).value;
      assert LowerCase(s) == [Lower(s[0]), Lower(s[1])] + LowerCase(s[2..]);
    }
  }

  predicate AllHex(s: string) {
    forall i :: 0 <= i < |s| ==> Nibble(s[i]).Some?
  }

  lemma {:induction false} DecodeAcceptsIff(s: string)
    ensures Decode(s).Some? <==> |s| % 2 == 0 && AllHex(s)
  {
    hide Nibble, Digit, Lower;
    if |s| >= 2 {
      DecodeAcceptsIff(s[2..]);
      if AllHex(s[2..]) && Nibble(s[0]).Some? && Nibble(s[1]).Some? {
        assert forall i :: 2 <= i < |s| ==> s[i] == s[2..][i - 2];
      }
    } else if |s| == 1 {
      assert |s| % 2 == 1;
    }
  }

  lemma EncodedHasNoPrefix(bytes: seq<byte>)
    ensures TrimPrefix(Encode(bytes)) == Encode(bytes) == TrimPrefix("0x" + Encode(bytes))
  {
    var s := "0x" + Encode(bytes);
    assert s[2..] == Encode(bytes);
    assert forall n: nat :: n < 16 ==> Digit(n) != 'x';
  }

  /** Every 32-byte value survives being written as "0x" and lower-case digits, and also without
      the prefix; a value of any other length is refused. */
  lemma HexRoundTrip(bytes: seq<byte>)
    ensures HexTo32(Some(Str("0x" + Encode(bytes)))) == HexTo32(Some(Str(Encode(bytes))))
      == if |bytes| == 32 then Ok(bytes) else Err(WrongLength)
  {
    DecodeEncode(bytes);
    EncodedHasNoPrefix(bytes);
  }

  /** What is accepted: 64 hex digits of either case after any number of prefixes. It is read as
      the value whose lower-case spelling those digits are. */
  lemma HexAcceptsIff(s: string)
    ensures HexTo32(Some(Str(s))).Ok? <==> |TrimPrefix(s)| == 64 && AllHex(TrimPrefix(s))
    ensures HexTo32(Some(Str(s))).Ok? ==>
      var bytes := HexTo32(Some(Str(s))).value;
      |bytes| == 32 && Encode(bytes) == LowerCase(TrimPrefix(s))
  {
    DecodeAcceptsIff(TrimPrefix(s));
    if Decode(TrimPrefix(s)).Some? {
      EncodeDecode(TrimPrefix(s));
    }
  }

  /** Two accepted spellings name the same value exactly when they differ only in letter case and
      in the number of prefixes. */
  lemma SameValueIff(s: string, t: string)
    requires HexTo32(Some(Str(s))).Ok? && HexTo32(Some(Str(t))).Ok?
    ensures HexTo32(Some(Str(s))) == HexTo32(Some(Str(t))) <==> LowerCase(TrimPrefix(s)) == LowerCase(TrimPrefix(t))
  {
    HexAcceptsIff(s);
    HexAcceptsIff(t);
    DecodeEncode(HexTo32(Some(Str(s))).value);
    DecodeEncode(HexTo32(Some(Str(t))).value);
  }

  /** Trimming takes off whole prefixes and leaves none. */
  lemma {:induction false} TrimPrefixMeaning(s: string) returns (prefixes: nat)
    ensures 2 * prefixes <= |s| && TrimPrefix(s) == s[2 * prefixes..]
    ensures forall k :: 0 <= k < prefixes ==> s[2 * k] == '0' && s[2 * k + 1] == 'x'
    ensures !("0x" <= TrimPrefix(s))
  {
    if |s| >= 2 && s[0] == '0' && s[1] == 'x' {
      var rest := TrimPrefixMeaning(s[2..]);
      prefixes := rest + 1;
      forall k | 0 <= k < prefixes
        ensures s[2 * k] == '0' && s[2 * k + 1] == 'x'
      {
        if k > 0 {
          assert s[2..][2 * (k - 1)] == '0' && s[2..][2 * (k - 1) + 1] == 'x';
        }
      }
    } else {
      prefixes := 0;
    }
  }

  // ----- the requester id -----

  lemma {:induction false} EncodeAppend(bytes: seq<byte>, b: byte)
    ensures Encode(bytes + [b]) == Encode(bytes) + [Digit(b as nat / 16), Digit(b as nat % 16)]
  {
    if bytes == [] {
      assert [b][1..] == [];
      assert bytes + [b] == [b];
    } else {
      EncodeAppend(bytes[1..], b);
      assert (bytes + [b])[1..] == bytes[1..] + [b];
    }
  }

  /** `requester_hex`: the digits are appended byte by byte. */
  method RequesterHex(requester: seq<byte>) returns (text: string)
    ensures text == Encode(requester)
    ensures |requester| == 32 ==> HexTo32(Some(Str(text))) == Ok(requester)
  {
    text := "";
    for k := 0 to |requester|
      invariant text == Encode(requester[..k])
    {
      EncodeAppend(requester[..k], requester[k]);
      assert requester[..k + 1] == requester[..k] + [requester[k]];
      text := text + [Digit(requester[k] as nat / 16), Digit(requester[k] as nat % 16)];
    }
    assert requester[..|requester|] == requester;
    HexRoundTrip(requester);
  }
}
