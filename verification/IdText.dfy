/** The two helpers that read chain ids back out of a logged event payload
    (`extract_first_u64`, `extract_two_u64`). */
module IdText {
  import opened Basics
  import opened Decimal

  /** `char::is_whitespace`. */
  predicate IsWhitespace(c: char) {
    var n := c as int;
    0x09 <= n <= 0x0D || n == 0x20 || n == 0x85 || n == 0xA0 || n == 0x1680 || 0x2000 <= n <= 0x200A
    || n == 0x2028 || n == 0x2029 || n == 0x202F || n == 0x205F || n == 0x3000
  }

  /** The characters with the property White_Space of Unicode. */
  const WHITE_SPACE: set<int> := {
    0x09, 0x0A, 0x0B, 0x0C, 0x0D, 0x20, 0x85, 0xA0, 0x1680, 0x2000, 0x2001, 0x2002, 0x2003, 0x2004, 0x2005, 0x2006,
    0x2007, 0x2008, 0x2009, 0x200A, 0x2028, 0x2029, 0x202F, 0x205F, 0x3000
  }

  lemma WhitespaceChars(c: char)
    ensures IsWhitespace(c) <==> c as int in WHITE_SPACE
  {
  }

  function DropStart(s: string, p: char -> bool): string {
    if s != [] && p(s[0]) then DropStart(s[1..], p) else s
  }

  function DropEnd(s: string, p: char -> bool): string {
    if s != [] && p(s[|s| - 1]) then DropEnd(s[..|s| - 1], p) else s
  }

  function Trim(s: string): string {
    DropEnd(DropStart(s, IsWhitespace), IsWhitespace)
  }

  predicate IsOpen(c: char) {
    c == '['
  }

  predicate IsClose(c: char) {
    c == ']'
  }

  /** The payload without surrounding blanks and without its runs of brackets. */
  function Unbracket(payload: string): string {
    DropEnd(DropStart(Trim(payload), IsOpen), IsClose)
  }

  /** `split(',')`: always at least one piece. */
  function Split(s: string): (parts: seq<string>)
    ensures |parts| >= 1
  {
    if s == [] then [[]]
    else
      var rest := Split(s[1..]);
      if s[0] == ',' then [[]] + rest else [[s[0]] + rest[0]] + rest[1..]
  }

  /** The text before the first comma: what `split(',').next()` yields. */
  function Head(s: string): string {
    if s == [] || s[0] == ',' then [] else [s[0]] + Head(s[1..])
  }

  function ExtractFirst(payload: string): Option<u64> {
    ParseU64(Trim(Head(Unbracket(payload))))
  }

  function ExtractTwo(payload: string): (Option<u64>, Option<u64>) {
    var parts := Split(Unbracket(payload));
    (ParseU64(Trim(parts[0])), if |parts| > 1 then ParseU64(Trim(parts[1])) else None)
  }

  lemma {:induction false} SplitStartsWithHead(s: string)
    ensures Split(s)[0] == Head(s)
  {
    if s != [] && s[0] != ',' {
      SplitStartsWithHead(s[1..]);
    }
  }

  /** On every payload whatsoever the two extractors agree about the first id. */
  lemma ExtractorsAgree(payload: string)
    ensures ExtractTwo(payload).0 == ExtractFirst(payload)
  {
    SplitStartsWithHead(Unbracket(payload));
  }

  function Join(xs: seq<u64>): string
    requires xs != []
  {
    if |xs| == 1 then Print(xs[0]) else Print(xs[0]) + ", " + Join(xs[1..])
  }

  /** A list of ids as the debug formatter prints it: "[a, b, ...]". */
  function PrintList(xs: seq<u64>): string
    requires xs != []
  {
    "[" + Join(xs) + "]"
  }

  lemma TrimDigits(s: string)
    requires AllDigits(s)
    ensures Trim(s) == s
  {
    assert s != [] ==> IsDigit(s[0]) && IsDigit(s[|s| - 1]);
  }

  lemma TrimSpaceThenDigits(s: string)
    requires AllDigits(s) && s != []
    ensures Trim(" " + s) == s
  {
    assert (" " + s)[1..] == s && IsDigit(s[0]) && IsDigit(s[|s| - 1]);
    assert DropStart(" " + s, IsWhitespace) == DropStart(s, IsWhitespace) == s;
  }

  lemma {:induction false} SplitAtComma(digits: string, rest: string)
    requires AllDigits(digits)
    ensures Split(digits) == [digits]
    ensures Split(digits + "," + rest) == [digits] + Split(rest)
    decreases digits
  {
    var whole := digits + "," + rest;
    if digits == [] {
      assert whole[1..] == rest;
    } else {
      SplitAtComma(digits[1..], rest);
      assert IsDigit(digits[0]) && whole[1..] == digits[1..] + "," + rest;
      assert [digits[0]] + digits[1..] == digits;
    }
  }

  lemma SplitSpaced(digits: string)
    requires AllDigits(digits) && digits != []
    ensures Split(" " + digits) == [" " + digits]
    ensures forall rest: string :: Split(" " + digits + "," + rest) == [" " + digits] + Split(rest)
  {
    SplitAtComma(digits, []);
    assert (" " + digits)[1..] == digits;
    forall rest: string
      ensures Split(" " + digits + "," + rest) == [" " + digits] + Split(rest)
    {
      SplitAtComma(digits, rest);
      var whole := " " + digits + "," + rest;
      assert whole[1..] == digits + "," + rest;
    }
  }

  lemma {:induction false} JoinEdges(xs: seq<u64>)
    requires xs != []
    ensures Join(xs) != [] && IsDigit(Join(xs)[0]) && IsDigit(Join(xs)[|Join(xs)| - 1])
  {
    PrintHasValue(xs[0]);
    if |xs| > 1 {
      JoinEdges(xs[1..]);
    }
  }

  lemma UnbracketPrinted(xs: seq<u64>)
    requires xs != []
    ensures Unbracket(PrintList(xs)) == Join(xs)
  {
    JoinEdges(xs);
    var body := Join(xs);
    var s := PrintList(xs);
    assert Trim(s) == s;
    assert s[1..] == body + "]";
    assert DropStart(s, IsOpen) == DropStart(body + "]", IsOpen) == body + "]";
    assert (body + "]")[..|body|] == body;
    assert DropEnd(body + "]", IsClose) == DropEnd(body, IsClose) == body;
  }

  lemma CommaSpace(a: string, b: string)
    ensures a + ", " + b == a + "," + (" " + b)
  {
    assert ", " == "," + " ";
  }

  /** How the printed list falls apart at its first comma. */
  lemma SplitPrinted(xs: seq<u64>)
    requires xs != []
    ensures |xs| == 1 ==> Split(Join(xs)) == [Print(xs[0])]
    ensures |xs| > 1 ==> Split(Join(xs)) == [Print(xs[0])] + Split(" " + Join(xs[1..]))
  {
    PrintHasValue(xs[0]);
    var first := Print(xs[0]);
    if |xs| == 1 {
      SplitAtComma(first, []);
    } else {
      var tail := " " + Join(xs[1..]);
      assert Join(xs) == first + "," + tail by {
        CommaSpace(first, Join(xs[1..]));
      }
      SplitAtComma(first, tail);
    }
  }

  lemma SecondPiece(xs: seq<u64>)
    requires xs != []
    ensures Split(" " + Join(xs))[0] == " " + Print(xs[0])
  {
    PrintHasValue(xs[0]);
    SplitSpaced(Print(xs[0]));
    if |xs| > 1 {
      var rest := " " + Join(xs[1..]);
      assert " " + Join(xs) == " " + Print(xs[0]) + "," + rest;
    }
  }

  /** Extraction inverts printing for every nonempty list of ids. */
  lemma ExtractInvertsPrint(xs: seq<u64>)
    requires xs != []
    ensures ExtractFirst(PrintList(xs)) == Some(xs[0])
    ensures ExtractTwo(PrintList(xs)) == (Some(xs[0]), if |xs| > 1 then Some(xs[1]) else None)
  {
    UnbracketPrinted(xs);
    SplitPrinted(xs);
    PrintHasValue(xs[0]);
    ParsePrinted(xs[0]);
    TrimDigits(Print(xs[0]));
    if |xs| > 1 {
      SecondPiece(xs[1..]);
      PrintHasValue(xs[1]);
      ParsePrinted(xs[1]);
      TrimSpaceThenDigits(Print(xs[1]));
    }
    ExtractorsAgree(PrintList(xs));
  }
}
