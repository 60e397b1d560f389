/** Decimal text: printing, the unsigned parser of the Rust standard library, and the cast of
    text to a 64-bit signed integer that Postgres applies in `(... ->> key)::bigint`. */
module Decimal {
  import opened Basics

  predicate IsDigit(c: char) {
    '0' <= c <= '9'
  }

  predicate AllDigits(s: string) {
    forall i :: 0 <= i < |s| ==> IsDigit(s[i])
  }

  function Digit(d: nat): char
    requires d < 10
  {
    '0' + d as char
  }

  /** The decimal text of a number, as the formatting macros write it. */
  function Print(n: nat): string {
    if n < 10 then [Digit(n)] else Print(n / 10) + [Digit(n % 10)]
  }

  function Value(s: string): nat
    requires AllDigits(s)
  {
    if s == [] then 0 else Value(s[..|s| - 1]) * 10 + (s[|s| - 1] - '0') as int
  }

  lemma {:induction false} PrintHasValue(n: nat)
    ensures AllDigits(Print(n)) && Print(n) != [] && Value(Print(n)) == n
  {
    if n >= 10 {
      PrintHasValue(n / 10);
      var s := Print(n);
      assert s[..|s| - 1] == Print(n / 10);
    }
  }

  lemma PrintInjective(m: nat, n: nat)
    requires Print(m) == Print(n)
    ensures m == n
  {
    PrintHasValue(m);
    PrintHasValue(n);
  }

  /** `str::parse::<u64>`: an optional plus sign, at least one digit, no overflow. */
  function ParseU64(s: string): Option<u64> {
    var digits := if s != [] && s[0] == '+' then s[1..] else s;
    if digits == [] || !AllDigits(digits) || Value(digits) >= TWO_64 then None else Some(Value(digits))
  }

  lemma ParsePrinted(n: nat)
    ensures ParseU64(Print(n)) == ParseU64("+" + Print(n))
    ensures ParseU64(Print(n)) == if n < 0x1_0000_0000_0000_0000 then Some(n) else None
  {
    PrintHasValue(n);
    assert IsDigit(Print(n)[0]) && ("+" + Print(n))[1..] == Print(n);
  }

  predicate IsSqlSpace(c: char) {
    c == ' ' || '\t' <= c <= '\r'
  }

  lemma SqlSpaces(c: char)
    ensures IsSqlSpace(c) <==> c as int in {0x09, 0x0A, 0x0B, 0x0C, 0x0D, 0x20}
  {
  }

  function StripLeft(s: string): string {
    if s != [] && IsSqlSpace(s[0]) then StripLeft(s[1..]) else s
  }

  function StripRight(s: string): string {
    if s != [] && IsSqlSpace(s[|s| - 1]) then StripRight(s[..|s| - 1]) else s
  }

  /** `text::bigint`: surrounding blanks, an optional sign, digits, and the range of int8. */
  function ParseBigint(s: string): Option<int> {
    var t := StripRight(StripLeft(s));
    var signed := t != [] && (t[0] == '-' || t[0] == '+');
    var digits := if signed then t[1..] else t;
    if digits == [] || !AllDigits(digits) then None
    else
      var v: int := Value(digits);
      var n := if signed && t[0] == '-' then -v else v;
      if -TWO_63 <= n < TWO_63 then Some(n) else None
  }

  /** A printed number is read again, also with a sign or behind a blank; beyond 63 bits it is an
      error. */
  lemma ParseBigintPrinted(n: int)
    requires n >= 0
    ensures ParseBigint(Print(n)) == ParseBigint("+" + Print(n)) == ParseBigint(" " + Print(n))
    ensures ParseBigint(Print(n)) == if n < 0x8000_0000_0000_0000 then Some(n) else None
    ensures ParseBigint("-" + Print(n)) == if n <= 0x8000_0000_0000_0000 then Some(-n) else None
  {
    hide Value, Print;
    var s := Print(n);
    PrintHasValue(n);
    assert IsDigit(s[0]) && IsDigit(s[|s| - 1]);
    assert (" " + s)[1..] == s && ("+" + s)[1..] == s && ("-" + s)[1..] == s;
    assert StripLeft(" " + s) == StripLeft(s) == s;
    assert StripRight("-" + s) == "-" + s && StripRight("+" + s) == "+" + s;
  }

  /** The decimal digits of a number. */
  lemma PrintSpells(n: nat)
    ensures n < 10 ==> Print(n) == ["0123456789"[n]]
    ensures n >= 10 ==> Print(n) == Print(n / 10) + ["0123456789"[n % 10]]
  {
  }
}
