/** JSON values as the payload columns hold them. Parsing and printing of the text is not part
    of this model: a payload column is the value its text denotes. */
module Json {
  import opened Basics
  import Decimal

  /** `Num` is a number read as an integer, `Frac` one read as floating point; `text` is then the
      plain decimal expansion that Postgres prints for it. */
  datatype Value =
    | Null
    | Bool(b: bool)
    | Num(n: int)
    | Frac(text: string)
    | Str(s: string)
    | Arr(items: seq<Value>)
    | Obj(fields: map<string, Value>)

  function Get(v: Value, key: string): Option<Value> {
    if v.Obj? && key in v.fields then Some(v.fields[key]) else None
  }

  function GetStr(v: Value, key: string): Option<string> {
    match Get(v, key)
    case Some(Str(s)) => Some(s)
    case _ => None
  }

  /** `as_u64`: present only for a non-negative integer of at most 64 bits. */
  function GetU64(v: Value, key: string): Option<u64> {
    match Get(v, key)
    case Some(Num(n)) => if 0 <= n < TWO_64 then Some(n) else None
    case _ => None
  }

  // ----- what Postgres makes of a value when it casts its text to jsonb -----

  /** The character U+0000 stands in some text of the value, as a string or as a key. */
  predicate HasNul(v: Value) {
    match v
    case Str(s) => '\0' in s
    case Arr(items) => exists i :: 0 <= i < |items| && HasNul(items[i])
    case Obj(fields) => exists key :: key in fields && ('\0' in key || HasNul(fields[key]))
    case _ => false
  }

  /** The number of a text that is an optional minus sign and digits. */
  function WholeOf(text: string): Option<int> {
    var digits := if text != [] && text[0] == '-' then text[1..] else text;
    if digits == [] || !Decimal.AllDigits(digits) then None
    else
      var n: int := Decimal.Value(digits);
      Some(if text[0] == '-' then -n else n)
  }

  lemma WholeOfPrinted(n: int)
    requires n >= 0
    ensures WholeOf(Decimal.Print(n)) == Some(n) && WholeOf("-" + Decimal.Print(n)) == Some(-n)
    ensures WholeOf(Decimal.Print(n) + ".5") == None
  {
    Decimal.PrintHasValue(n);
    var s := Decimal.Print(n);
    assert Decimal.IsDigit(s[0]) && ("-" + s)[1..] == s;
    assert (s + ".5")[|s|] == '.';
  }

  /** A value printed as jsonb and read again: a floating-point number with a whole expansion
      comes back as an integer, if that fits 64 bits. */
  function Reread(v: Value): Value {
    match v
    case Frac(text) =>
      (match WholeOf(text)
       case Some(n) => if -TWO_63 <= n < TWO_64 then Num(n) else v
       case None => v)
    case Arr(items) => Arr(seq(|items|, i requires 0 <= i < |items| => Reread(items[i])))
    case Obj(fields) => Obj(map key | key in fields :: Reread(fields[key]))
    case _ => v
  }

  lemma RereadPrinted(n: int)
    requires n >= 0
    ensures Reread(Frac(Decimal.Print(n))) == if n < 0x1_0000_0000_0000_0000 then Num(n) else Frac(Decimal.Print(n))
    ensures Reread(Frac("-" + Decimal.Print(n)))
      == if n <= 0x8000_0000_0000_0000 then Num(-n) else Frac("-" + Decimal.Print(n))
  {
    WholeOfPrinted(n);
  }

  lemma {:induction false} RereadTwice(v: Value)
    ensures Reread(Reread(v)) == Reread(v)
  {
    match v
    case Arr(items) =>
      forall i | 0 <= i < |items|
        ensures Reread(Reread(items[i])) == Reread(items[i])
      {
        RereadTwice(items[i]);
      }
    case Obj(fields) =>
      forall key | key in fields
        ensures Reread(Reread(fields[key])) == Reread(fields[key])
      {
        RereadTwice(fields[key]);
      }
    case _ =>
  }

  lemma {:induction false} RereadKeepsText(v: Value)
    ensures HasNul(Reread(v)) <==> HasNul(v)
  {
    match v
    case Arr(items) =>
      forall i | 0 <= i < |items|
        ensures HasNul(Reread(v).items[i]) <==> HasNul(items[i])
      {
        RereadKeepsText(items[i]);
      }
    case Obj(fields) =>
      forall key | key in fields
        ensures HasNul(Reread(v).fields[key]) <==> HasNul(fields[key])
      {
        RereadKeepsText(fields[key]);
      }
    case _ =>
  }
}
