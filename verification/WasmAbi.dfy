/** The call between the WASM host and a guest agent: the guest's bounds checks and placement of
    its output, the packing of pointer and length into 64 bits, and the host's unpacking. */
module WasmAbi {
  import opened Basics

  /** The size of the slice of linear memory that the guest works on. In what follows `memory` is
      all of linear memory, as the host sees it, and the slice starts at `base`. */
  const SLICE: int := 65536

  type i32 = n: int | -0x8000_0000 <= n < 0x8000_0000

  datatype HostError = WriteFailed | NegativeReturn | ReadFailed

  // ----- packing; shifts and masks of two's complement numbers, bit by bit -----

  function ShiftLeft(v: nat, w: nat): nat
    decreases w, v
  {
    if w == 0 then v else 2 * ShiftLeft(v, w - 1)
  }

  /** The arithmetic shift: division rounds down, so the sign stays. */
  function ShiftRight(v: int, w: nat): int
    decreases w, v
  {
    if w == 0 then v else ShiftRight(v / 2, w - 1)
  }

  /** The mask of the lowest `w` bits. */
  function LowBits(v: int, w: nat): nat
    decreases w, v
  {
    if w == 0 then 0 else 2 * LowBits(v / 2, w - 1) + v % 2
  }

  function Or(a: nat, b: nat): nat {
    if a == 0 then b
    else if b == 0 then a
    else 2 * Or(a / 2, b / 2) + (if a % 2 == 1 || b % 2 == 1 then 1 else 0)
  }

  /** `n as i32`: the lowest 32 bits, read as a signed number. */
  function ToI32(n: int): i32 {
    AsI32(n % TWO_32)
  }

  /** `((out_len as i64) << 32) | (out_ptr as i64)` */
  function Pack(length: nat, pointer: nat): nat {
    Or(ShiftLeft(length, 32), pointer)
  }

  function UnpackedPointer(ret: int): i32 {
    ToI32(LowBits(ret, 32))
  }

  function UnpackedLength(ret: int): i32 {
    ToI32(ShiftRight(ret, 32))
  }

  lemma {:induction false} OrOfParts(high: nat, low: nat, w: nat)
    requires low < Pow2(w)
    ensures Or(ShiftLeft(high, w), low) == ShiftLeft(high, w) + low
  {
    if w > 0 {
      OrOfParts(high, low / 2, w - 1);
    }
  }

  lemma {:induction false} PartsOfSum(high: nat, low: nat, w: nat)
    requires low < Pow2(w)
    ensures ShiftRight(ShiftLeft(high, w) + low, w) == high
    ensures LowBits(ShiftLeft(high, w) + low, w) == low
  {
    if w > 0 {
      PartsOfSum(high, low / 2, w - 1);
      assert (ShiftLeft(high, w) + low) / 2 == ShiftLeft(high, w - 1) + low / 2;
    }
  }

  lemma {:induction false} ShiftLeftValue(v: nat, w: nat)
    ensures ShiftLeft(v, w) == Pow2(w) * v
  {
    if w > 0 {
      ShiftLeftValue(v, w - 1);
      assert Pow2(w) * v == 2 * (Pow2(w - 1) * v);
    }
  }

  lemma {:induction false} MinusOneBits(w: nat)
    ensures ShiftRight(-1, w) == -1 && LowBits(-1, w) == Pow2(w) - 1
  {
    if w > 0 {
      MinusOneBits(w - 1);
      assert -1 / 2 == -1;
    }
  }

  lemma Powers()
    ensures Pow2(31) == 0x8000_0000 && Pow2(32) == TWO_32 && Pow2(63) == TWO_63
  {
    assert Pow2(7) == 128;
    EightMore(7);
    EightMore(15);
    EightMore(23);
    EightMore(31);
    EightMore(39);
    EightMore(47);
    EightMore(55);
  }

  lemma PackIsSum(length: nat, pointer: nat)
    requires pointer < 0x8000_0000
    ensures Pack(length, pointer) == 0x1_0000_0000 * length + pointer == ShiftLeft(length, 32) + pointer
  {
    Powers();
    OrOfParts(length, pointer, 32);
    ShiftLeftValue(length, 32);
  }

  /** Packing loses nothing, and what it makes is a non-negative 64-bit number: the length above the
      pointer. */
  lemma UnpackPack(length: nat, pointer: nat)
    requires length < 0x8000_0000 && pointer < 0x8000_0000
    ensures Pack(length, pointer) == 0x1_0000_0000 * length + pointer
    ensures UnpackedPointer(Pack(length, pointer)) == pointer
    ensures UnpackedLength(Pack(length, pointer)) == length
    ensures Pack(length, pointer) < TWO_63
  {
    hide Pack, ShiftLeft, ShiftRight, LowBits, Pow2;
    Powers();
    PackIsSum(length, pointer);
    PartsOfSum(length, pointer, 32);
  }

  lemma MinusOneUnpacks()
    ensures UnpackedPointer(-1) == -1 && UnpackedLength(-1) == -1
  {
    Powers();
    MinusOneBits(32);
  }

  // ----- the guest -----

  type Agent = seq<byte> -> Option<seq<byte>>

  /** No vector of the guest is longer than half its address space. */
  ghost predicate FitsVec(agent: Agent) {
    forall x: seq<byte> :: agent(x).Some? ==> |agent(x).value| < 0x8000_0000
  }

  /** Addition of 32-bit `usize` values that stops at the largest. */
  function SaturatingAdd(a: u32, b: u32): u32 {
    if a + b < TWO_32 then a + b else TWO_32 - 1
  }

  /** Where the output goes and what it is; nothing where the guest returns -1. */
  datatype Answer = Answer(pointer: nat, output: seq<byte>)

  function GuestAnswer(slice: seq<byte>, agent: Agent, ptr: i32, len: i32): Option<Answer>
    requires |slice| == SLICE
  {
    var start := AsU32(ptr);
    var end := SaturatingAdd(start, AsU32(len));
    if end > |slice| then None
    else
      match agent(slice[start..end])
      case None => None
      case Some(output) => if (end + |output|) % TWO_32 > |slice| then None else Some(Answer(end, output))
  }

  function GuestReturn(a: Option<Answer>): int {
    match a
    case None => -1
    case Some(answer) => Pack(|answer.output|, answer.pointer)
  }

  function Overwritten(memory: seq<byte>, at: nat, bytes: seq<byte>): (after: seq<byte>)
    requires at + |bytes| <= |memory|
    ensures |after| == |memory| && after[at..at + |bytes|] == bytes
    ensures after[..at] == memory[..at] && after[at + |bytes|..] == memory[at + |bytes|..]
  {
    memory[..at] + bytes + memory[at + |bytes|..]
  }

  function GuestMemory(memory: seq<byte>, base: nat, a: Option<Answer>): seq<byte>
    requires a.Some? ==> base + a.value.pointer + |a.value.output| <= |memory|
  {
    match a
    case None => memory
    case Some(answer) => Overwritten(memory, base + answer.pointer, answer.output)
  }

  /** The guest answers exactly when both arguments are non-negative, the input lies within the
      slice, the agent succeeds and the output fits behind the input; neither the wrap of negative
      arguments nor the saturation lets anything else through. The output then goes to the bytes
      right behind the input, within the slice and apart from the input. */
  lemma AnswersIff(slice: seq<byte>, agent: Agent, ptr: i32, len: i32)
    requires |slice| == SLICE && FitsVec(agent)
    ensures GuestAnswer(slice, agent, ptr, len).Some?
      <==> (
        && 0 <= ptr && 0 <= len && ptr + len <= SLICE
        && agent(slice[ptr..ptr + len]).Some?
        && ptr + len + |agent(slice[ptr..ptr + len]).value| <= SLICE)
    ensures GuestAnswer(slice, agent, ptr, len).Some? ==>
      var a := GuestAnswer(slice, agent, ptr, len).value;
      && a.output == agent(slice[ptr..ptr + len]).value
      && ptr <= ptr + len == a.pointer <= a.pointer + |a.output| <= SLICE
  {
  }

  /** What the host reads out of the 64 bits: after an answer exactly its pointer and length, both
      non-negative; after -1 two negative numbers. */
  lemma HostUnpacks(slice: seq<byte>, agent: Agent, ptr: i32, len: i32)
    requires |slice| == SLICE && FitsVec(agent)
    ensures var a := GuestAnswer(slice, agent, ptr, len);
      var (pointer, length) := (UnpackedPointer(GuestReturn(a)), UnpackedLength(GuestReturn(a)));
      && (a.None? <==> pointer < 0 || length < 0)
      && (a.Some? ==> pointer == a.value.pointer && length == |a.value.output|)
  {
    AnswersIff(slice, agent, ptr, len);
    MinusOneUnpacks();
    var a := GuestAnswer(slice, agent, ptr, len);
    if a.Some? {
      UnpackPack(|a.value.output|, a.value.pointer);
    }
  }

  /** `copy_from_slice` into linear memory. */
  method Write(memory: array<byte>, at: nat, bytes: seq<byte>)
    requires at + |bytes| <= memory.Length
    modifies memory
    ensures memory[..] == Overwritten(old(memory[..]), at, bytes)
  {
    forall i | 0 <= i < |bytes| {
      memory[at + i] := bytes[i];
    }
  }

  /** The guest's `execute` on linear memory. */
  method Execute(memory: array<byte>, base: nat, agent: Agent, ptr: i32, len: i32) returns (ret: int)
    requires base + SLICE <= memory.Length && FitsVec(agent)
    modifies memory
    ensures var a := GuestAnswer(old(memory[base..base + SLICE]), agent, ptr, len);
      && (a.Some? ==> a.value.pointer + |a.value.output| <= SLICE)
      && ret == GuestReturn(a)
      && memory[..] == GuestMemory(old(memory[..]), base, a)
  {
    ghost var slice := memory[base..base + SLICE];
    AnswersIff(slice, agent, ptr, len);
    var start := AsU32(ptr);
    var end := SaturatingAdd(start, AsU32(len));
    if end > SLICE {
      return -1;
    }
    var input := memory[base + start..base + end];
    assert input == slice[start..end];
    var result := agent(input);
    if result.None? {
      return -1;
    }
    var output := result.value;
    var outPtr := end;
    var outLen := |output|;
    if (outPtr + outLen) % TWO_32 > SLICE {
      return -1;
    }
    Write(memory, base + outPtr, output);
    ret := Pack(outLen, outPtr);
  }

  // ----- the host -----

  /** The host reads at the guest's pointer from the start of memory. */
  function HostReads(memory: seq<byte>, a: Option<Answer>): Result<seq<byte>, HostError> {
    match a
    case None => Err(NegativeReturn)
    case Some(answer) =>
      if answer.pointer + |answer.output| > |memory| then Err(ReadFailed)
      else Ok(memory[answer.pointer..answer.pointer + |answer.output|])
  }

  /** `memory.read` behind the test of the two signs. */
  method ReadBack(memory: array<byte>, outPtr: i32, outLen: i32) returns (r: Result<seq<byte>, HostError>)
    ensures r == if outLen < 0 || outPtr < 0 then Err(NegativeReturn)
                 else if outPtr + outLen > memory.Length then Err(ReadFailed)
                 else Ok(memory[outPtr..outPtr + outLen])
  {
    if outLen < 0 || outPtr < 0 {
      return Err(NegativeReturn);
    }
    if outPtr + outLen > memory.Length {
      return Err(ReadFailed);
    }
    r := Ok(memory[outPtr..outPtr + outLen]);
  }

  /** The call, the unpacking and the read. */
  method CallAndRead(memory: array<byte>, base: nat, agent: Agent, len: i32) returns (r: Result<seq<byte>, HostError>)
    requires base + SLICE <= memory.Length && FitsVec(agent)
    modifies memory
    ensures r == CallOutcome(old(memory[..]), base, agent, len)
  {
    hide Pack, UnpackedPointer, UnpackedLength, GuestAnswer, GuestReturn;
    ghost var slice := memory[..][base..base + SLICE];
    assert memory[base..base + SLICE] == slice;
    HostUnpacks(slice, agent, 0, len);
    var ret := Execute(memory, base, agent, 0, len);
    r := ReadBack(memory, UnpackedPointer(ret), UnpackedLength(ret));
    assert r.Ok? ==> r.value == memory[..][UnpackedPointer(ret)..UnpackedPointer(ret) + UnpackedLength(ret)];
  }

  /** The host's `execute`: write the input at offset 0, call, unpack, read. */
  method Run(memory: array<byte>, base: nat, agent: Agent, input: seq<byte>) returns (r: Result<seq<byte>, HostError>)
    requires base + SLICE <= memory.Length <= TWO_32 && FitsVec(agent)
    modifies memory
    ensures r == Outcome(old(memory[..]), base, agent, input)
  {
    hide CallOutcome, Overwritten, ToI32;
    if |input| > memory.Length {
      return Err(WriteFailed);
    }
    Write(memory, 0, input);
    r := CallAndRead(memory, base, agent, ToI32(|input|));
  }

  /** The call and what the host then reads, once the input is in memory. */
  function CallOutcome(before: seq<byte>, base: nat, agent: Agent, len: i32): Result<seq<byte>, HostError>
    requires base + SLICE <= |before| && FitsVec(agent)
  {
    var slice := before[base..base + SLICE];
    var a := GuestAnswer(slice, agent, 0, len);
    AnswersIff(slice, agent, 0, len);
    HostReads(GuestMemory(before, base, a), a)
  }

  function Outcome(memory: seq<byte>, base: nat, agent: Agent, input: seq<byte>): Result<seq<byte>, HostError>
    requires base + SLICE <= |memory| && FitsVec(agent)
  {
    if |input| > |memory| then Err(WriteFailed)
    else CallOutcome(Overwritten(memory, 0, input), base, agent, ToI32(|input|))
  }

  /** With the guest's slice at the start of linear memory the host gets exactly what the agent
      makes of exactly its input, whenever both fit the slice together; otherwise an error. The
      exception is an input of 2^32 bytes, which fills a memory of that size: its length is cut to
      zero and the agent runs on nothing. */
  lemma RunsAgentIff(memory: seq<byte>, agent: Agent, input: seq<byte>)
    requires SLICE <= |memory| <= TWO_32 && FitsVec(agent)
    ensures var seen := if |input| == TWO_32 then [] else input;
      Outcome(memory, 0, agent, input)
        == if |input| > |memory| then Err(WriteFailed)
           else if agent(seen).Some? && |seen| + |agent(seen).value| <= SLICE then Ok(agent(seen).value)
           else Err(NegativeReturn)
  {
    if |input| <= |memory| {
      var before := Overwritten(memory, 0, input);
      var slice := before[0..SLICE];
      AnswersIff(slice, agent, 0, ToI32(|input|));
      if |input| == TWO_32 {
        assert slice[0..0] == [];
      } else if |input| <= SLICE {
        assert slice[0..0 + |input|] == input;
      }
    }
  }

  lemma SameBehind(memory: seq<byte>, other: seq<byte>, at: nat, bytes: seq<byte>, from: nat, to: nat)
    requires |memory| == |other| && at + |bytes| <= |memory| && from <= to <= |memory|
    requires forall i :: from <= i < |memory| ==> memory[i] == other[i]
    ensures Overwritten(memory, at, bytes)[from..to] == Overwritten(other, at, bytes)[from..to]
  {
    var after, after' := Overwritten(memory, at, bytes), Overwritten(other, at, bytes);
    forall i | from <= i < to
      ensures after[i] == after'[i]
    {
      OverwrittenAt(memory, at, bytes, i);
      OverwrittenAt(other, at, bytes, i);
    }
    SameSlice(after, after', from, to);
  }

  lemma OverwrittenAt(memory: seq<byte>, at: nat, bytes: seq<byte>, i: nat)
    requires at + |bytes| <= |memory| && i < |memory|
    ensures Overwritten(memory, at, bytes)[i] == if at <= i < at + |bytes| then bytes[i - at] else memory[i]
  {
  }

  lemma SameSlice(a: seq<byte>, b: seq<byte>, from: nat, to: nat)
    requires |a| == |b| && from <= to <= |a| && forall i :: from <= i < to ==> a[i] == b[i]
    ensures a[from..to] == b[from..to]
  {
  }

  lemma SameCall(before: seq<byte>, other: seq<byte>, base: nat, agent: Agent, len: i32)
    requires base + SLICE <= |before| == |other| && FitsVec(agent) && 0 <= len <= base
    requires forall i :: len <= i < |before| ==> before[i] == other[i]
    ensures CallOutcome(before, base, agent, len) == CallOutcome(other, base, agent, len)
  {
    var slice := before[base..base + SLICE];
    assert slice == other[base..base + SLICE];
    var a := GuestAnswer(slice, agent, 0, len);
    AnswersIff(slice, agent, 0, len);
    if a.Some? {
      var from, output := a.value.pointer, a.value.output;
      SameBehind(before, other, base + from, output, from, from + |output|);
    }
  }

  lemma SameTail(memory: seq<byte>, input: seq<byte>, other: seq<byte>)
    requires |input| == |other| <= |memory|
    ensures forall i :: |input| <= i < |memory| ==> Overwritten(memory, 0, input)[i] == Overwritten(memory, 0, other)[i]
  {
  }

  /** With the slice behind the host's input, the input does not reach the agent: all inputs of one
      length end alike. */
  lemma InputMissed(memory: seq<byte>, base: nat, agent: Agent, input: seq<byte>, other: seq<byte>)
    requires base + SLICE <= |memory| <= TWO_32 && FitsVec(agent)
    requires |input| == |other| <= base
    ensures Outcome(memory, base, agent, input) == Outcome(memory, base, agent, other)
  {
    var before, before' := Overwritten(memory, 0, input), Overwritten(memory, 0, other);
    var len := ToI32(|input|);
    SameTail(memory, input, other);
    if len < 0 {
      assert CallOutcome(before, base, agent, len) == Err(NegativeReturn) == CallOutcome(before', base, agent, len) by {
        AnswersIff(before[base..base + SLICE], agent, 0, len);
        AnswersIff(before'[base..base + SLICE], agent, 0, len);
      }
    } else {
      SameCall(before, before', base, agent, len);
    }
  }
}
