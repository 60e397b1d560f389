/** The calls an outbox row may ask for: the check that a payload passes before it is queued, and
    the arguments built from it when it is submitted. */
module Calls {
  import opened Basics
  import opened Json
  import Hex

  datatype CallError =
    | BadText
    | Missing(key: string)
    | TooLong(key: string)
    | TooLarge(key: string)
    | NotStrings
    | BadLevel
    | BadHex(key: string, error: Hex.HexError)
    | BadAddress
    | Unsupported

  /** The payload column: absent, text that is not JSON, or the value of the text. */
  datatype Payload = Absent | Unreadable | Parsed(value: Value)

  datatype Level = BestEffort | Optimistic | Tee | ZkSnark | Redundant

  datatype Call =
    | RegisterAgent(did: seq<byte>, capabilities: seq<seq<byte>>, metadata: Option<seq<byte>>,
                    attestation: Option<seq<byte>>, level: Level)
    | CreateTask(specHash: seq<byte>, budget: nat, deadline: u32, level: Level)
    | SubmitBid(task: u64, agent: u64, commitment: seq<byte>, duration: u32)
    | RevealBid(task: u64, agent: u64, cost: nat, nonce: seq<byte>)
    | AllocateTask(task: u64)
    | SubmitResult(task: u64, agent: u64, resultHash: seq<byte>, proof: seq<byte>)
    | Transfer(account: seq<byte>, amount: nat)

  const CALLS: set<(string, string)> := {
    ("AgentRegistry", "register_agent"), ("TaskMarket", "create_task"), ("TaskMarket", "submit_bid"),
    ("TaskMarket", "reveal_bid"), ("TaskMarket", "allocate_task"), ("TaskMarket", "submit_result"),
    ("Balances", "transfer_allow_death")
  }

  const MAX_U64: u64 := 0xFFFF_FFFF_FFFF_FFFF
  const MAX_U32: u64 := 0xFFFF_FFFF

  // ----- text as bytes -----

  function Utf8Char(c: char): seq<byte> {
    var n := c as int;
    if n < 0x80 then [n as byte]
    else if n < 0x800 then [(0xC0 + n / 64) as byte, (0x80 + n % 64) as byte]
    else if n < 0x1_0000 then [(0xE0 + n / 4096) as byte, (0x80 + n / 64 % 64) as byte, (0x80 + n % 64) as byte]
    else [(0xF0 + n / 262144) as byte, (0x80 + n / 4096 % 64) as byte, (0x80 + n / 64 % 64) as byte, (0x80 + n % 64) as byte]
  }

  /** `as_bytes`; a length limit on text counts these bytes. */
  function Utf8(s: string): seq<byte> {
    if s == "" then [] else Utf8Char(s[0]) + Utf8(s[1..])
  }

  // ----- fields -----

  function Text(v: Value, key: string, limit: nat): Result<string, CallError> {
    match GetStr(v, key)
    case None => Err(Missing(key))
    case Some(s) => if |Utf8(s)| > limit then Err(TooLong(key)) else Ok(s)
  }

  function Number(v: Value, key: string, limit: u64): Result<u64, CallError> {
    match GetU64(v, key)
    case None => Err(Missing(key))
    case Some(n) => if n > limit then Err(TooLarge(key)) else Ok(n)
  }

  function Hash(v: Value, key: string): Result<seq<byte>, CallError> {
    match Hex.HexTo32(Get(v, key))
    case Err(e) => Err(BadHex(key, e))
    case Ok(b) => Ok(b)
  }

  /** Full Unicode lower-casing, as far as it can lead to the level names: besides the ASCII
      letters only the Kelvin sign becomes a letter of these. */
  function Lower(c: char): char {
    if c == '\U{212A}' then 'k' else Hex.Lower(c)
  }

  function LowerCase(s: string): (t: string)
    ensures |t| == |s|
  {
    seq(|s|, i requires 0 <= i < |s| => Lower(s[i]))
  }

  function ParseLevel(v: Value): Result<Level, CallError> {
    var s := LowerCase(match GetStr(v, "verification_level") case Some(s) => s case None => "best_effort");
    if s == "best_effort" then Ok(BestEffort)
    else if s == "optimistic" then Ok(Optimistic)
    else if s == "tee" then Ok(Tee)
    else if s == "zksnark" then Ok(ZkSnark)
    else if s == "redundant" then Ok(Redundant)
    else Err(BadLevel)
  }

  // ----- the check before queueing -----

  function CapabilityRefusal(items: seq<Value>): Option<CallError> {
    if items == [] then None
    else
      match items[0]
      case Str(s) => if |Utf8(s)| > 256 then Some(TooLong("capability")) else CapabilityRefusal(items[1..])
      case _ => Some(NotStrings)
  }

  function ErrorOf<T>(r: Result<T, CallError>): Option<CallError> {
    match r case Ok(_) => None case Err(e) => Some(e)
  }

  function First(a: Option<CallError>, b: Option<CallError>): Option<CallError> {
    if a.Some? then a else b
  }

  function OptionalRefusal(v: Value, key: string, limit: nat): Option<CallError> {
    match GetStr(v, key)
    case Some(s) => if |Utf8(s)| > limit then Some(TooLong(key)) else None
    case None => None
  }

  function RegisterRefusal(v: Value): Option<CallError> {
    First(ErrorOf(Text(v, "did", 128)),
      match Get(v, "capabilities")
      case Some(Arr(items)) =>
        First(CapabilityRefusal(items), First(OptionalRefusal(v, "metadata", 1024), ErrorOf(ParseLevel(v))))
      case _ => Some(Missing("capabilities")))
  }

  // The outcome of every check of a number is dropped, as the code drops it.

  function CreateRefusal(v: Value): Option<CallError> {
    var _ := Number(v, "budget", MAX_U64);
    var _ := Number(v, "deadline", MAX_U32);
    First(ErrorOf(Hash(v, "spec_hash")), ErrorOf(ParseLevel(v)))
  }

  function BidRefusal(v: Value): Option<CallError> {
    var _ := Number(v, "task_id", MAX_U64);
    var _ := Number(v, "agent_id", MAX_U64);
    var _ := Number(v, "estimated_duration", MAX_U32);
    ErrorOf(Hash(v, "commitment"))
  }

  function RevealRefusal(v: Value): Option<CallError> {
    var _ := Number(v, "task_id", MAX_U64);
    var _ := Number(v, "agent_id", MAX_U64);
    var _ := Number(v, "cost", MAX_U64);
    ErrorOf(Hash(v, "nonce"))
  }

  function AllocateRefusal(v: Value): Option<CallError> {
    var _ := Number(v, "task_id", MAX_U64);
    None
  }

  function ResultRefusal(v: Value): Option<CallError> {
    var _ := Number(v, "task_id", MAX_U64);
    var _ := Number(v, "agent_id", MAX_U64);
    First(ErrorOf(Hash(v, "result_hash")), OptionalRefusal(v, "proof", 4096))
  }

  function TransferRefusal(v: Value): Option<CallError> {
    First(ErrorOf(Text(v, "address", 128)), if GetU64(v, "amount").Some? then None else Some(Missing("amount")))
  }

  /** Why `decode_payload` refuses a value; nothing when it accepts. */
  function Refusal(pallet: string, call: string, v: Value): Option<CallError> {
    match (pallet, call)
    case ("AgentRegistry", "register_agent") => RegisterRefusal(v)
    case ("TaskMarket", "create_task") => CreateRefusal(v)
    case ("TaskMarket", "submit_bid") => BidRefusal(v)
    case ("TaskMarket", "reveal_bid") => RevealRefusal(v)
    case ("TaskMarket", "allocate_task") => AllocateRefusal(v)
    case ("TaskMarket", "submit_result") => ResultRefusal(v)
    case ("Balances", "transfer_allow_death") => TransferRefusal(v)
    case _ => Some(Unsupported)
  }

  // ----- the arguments at submission -----

  function Required(v: Value, key: string): Result<u64, CallError> {
    match GetU64(v, key)
    case Some(n) => Ok(n)
    case None => Err(Missing(key))
  }

  function OptionalBytes(v: Value, key: string): Option<seq<byte>> {
    match GetStr(v, key)
    case Some(s) => Some(Utf8(s))
    case None => None
  }

  function CapabilityBytes(items: seq<Value>): seq<seq<byte>> {
    if items == [] then []
    else [match items[0] case Str(s) => Utf8(s) case _ => []] + CapabilityBytes(items[1..])
  }

  /** `n as u32` */
  function Truncated(n: u64): u32 {
    n % TWO_32
  }

  function BuildRegister(v: Value): Result<Call, CallError> {
    match GetStr(v, "did")
    case None => Err(Missing("did"))
    case Some(did) =>
      match Get(v, "capabilities")
      case Some(Arr(items)) =>
        (match ParseLevel(v)
         case Err(e) => Err(e)
         case Ok(level) =>
           Ok(RegisterAgent(Utf8(did), CapabilityBytes(items), OptionalBytes(v, "metadata"),
                            OptionalBytes(v, "attestation"), level)))
      case _ => Err(Missing("capabilities"))
  }

  function BuildCreate(v: Value): Result<Call, CallError> {
    match (Hash(v, "spec_hash"), Required(v, "budget"), Required(v, "deadline"), ParseLevel(v))
    case (Err(e), _, _, _) => Err(e)
    case (_, Err(e), _, _) => Err(e)
    case (_, _, Err(e), _) => Err(e)
    case (_, _, _, Err(e)) => Err(e)
    case (Ok(hash), Ok(budget), Ok(deadline), Ok(level)) => Ok(CreateTask(hash, budget, Truncated(deadline), level))
  }

  function BuildBid(v: Value): Result<Call, CallError> {
    match (Required(v, "task_id"), Required(v, "agent_id"), Hash(v, "commitment"), Required(v, "estimated_duration"))
    case (Err(e), _, _, _) => Err(e)
    case (_, Err(e), _, _) => Err(e)
    case (_, _, Err(e), _) => Err(e)
    case (_, _, _, Err(e)) => Err(e)
    case (Ok(task), Ok(agent), Ok(commitment), Ok(time)) => Ok(SubmitBid(task, agent, commitment, Truncated(time)))
  }

  function BuildReveal(v: Value): Result<Call, CallError> {
    match (Required(v, "task_id"), Required(v, "agent_id"), Required(v, "cost"), Hash(v, "nonce"))
    case (Err(e), _, _, _) => Err(e)
    case (_, Err(e), _, _) => Err(e)
    case (_, _, Err(e), _) => Err(e)
    case (_, _, _, Err(e)) => Err(e)
    case (Ok(task), Ok(agent), Ok(cost), Ok(nonce)) => Ok(RevealBid(task, agent, cost, nonce))
  }

  function BuildAllocate(v: Value): Result<Call, CallError> {
    match Required(v, "task_id")
    case Ok(task) => Ok(AllocateTask(task))
    case Err(e) => Err(e)
  }

  function BuildResult(v: Value): Result<Call, CallError> {
    match (Required(v, "task_id"), Required(v, "agent_id"), Hash(v, "result_hash"))
    case (Err(e), _, _) => Err(e)
    case (_, Err(e), _) => Err(e)
    case (_, _, Err(e)) => Err(e)
    case (Ok(task), Ok(agent), Ok(hash)) =>
      Ok(SubmitResult(task, agent, hash, match OptionalBytes(v, "proof") case Some(b) => b case None => []))
  }

  /** `ss58` stands for the address parser. */
  function BuildTransfer(v: Value, ss58: string -> Option<seq<byte>>): Result<Call, CallError> {
    match GetStr(v, "address")
    case None => Err(Missing("address"))
    case Some(text) =>
      match (ss58(text), Required(v, "amount"))
      case (None, _) => Err(BadAddress)
      case (_, Err(e)) => Err(e)
      case (Some(account), Ok(amount)) => Ok(Transfer(account, amount))
  }

  function Build(pallet: string, call: string, v: Value, ss58: string -> Option<seq<byte>>): Result<Call, CallError> {
    match (pallet, call)
    case ("AgentRegistry", "register_agent") => BuildRegister(v)
    case ("TaskMarket", "create_task") => BuildCreate(v)
    case ("TaskMarket", "submit_bid") => BuildBid(v)
    case ("TaskMarket", "reveal_bid") => BuildReveal(v)
    case ("TaskMarket", "allocate_task") => BuildAllocate(v)
    case ("TaskMarket", "submit_result") => BuildResult(v)
    case ("Balances", "transfer_allow_death") => BuildTransfer(v, ss58)
    case _ => Err(Unsupported)
  }

  /** `submit_extrinsic` up to signing: read the text, check once more, build. */
  function Prepare(pallet: string, call: string, p: Payload, ss58: string -> Option<seq<byte>>): Result<Call, CallError> {
    if p.Unreadable? then Err(BadText)
    else
      var v := if p.Parsed? then p.value else Obj(map[]);
      match Refusal(pallet, call, v)
      case Some(e) => Err(e)
      case None => Build(pallet, call, v, ss58)
  }

  // ----- agreement of the two -----

  /** The check and the builder know the same calls, whatever the payload. */
  lemma SamePairs(pallet: string, call: string, v: Value, ss58: string -> Option<seq<byte>>)
    ensures Refusal(pallet, call, v) == Some(Unsupported) <==> (pallet, call) !in CALLS
    ensures Build(pallet, call, v, ss58) == Err(Unsupported) <==> (pallet, call) !in CALLS
  {
    RefusalKinds(v);
    BuildKinds(v, ss58);
  }

  lemma RefusalKinds(v: Value)
    ensures Some(Unsupported) !in
      {RegisterRefusal(v), CreateRefusal(v), BidRefusal(v), RevealRefusal(v), AllocateRefusal(v), ResultRefusal(v),
       TransferRefusal(v)}
  {
    if Get(v, "capabilities").Some? && Get(v, "capabilities").value.Arr? {
      CapabilityRefusalKinds(Get(v, "capabilities").value.items);
    }
  }

  lemma BuildKinds(v: Value, ss58: string -> Option<seq<byte>>)
    ensures Err(Unsupported) !in
      {BuildRegister(v), BuildCreate(v), BuildBid(v), BuildReveal(v), BuildAllocate(v), BuildResult(v),
       BuildTransfer(v, ss58)}
  {
  }

  lemma {:induction false} CapabilityRefusalKinds(items: seq<Value>)
    ensures CapabilityRefusal(items) != Some(Unsupported)
    ensures CapabilityRefusal(items).None? <==>
      forall i :: 0 <= i < |items| ==> items[i].Str? && |Utf8(items[i].s)| <= 256
  {
    if items != [] {
      CapabilityRefusalKinds(items[1..]);
      assert forall i :: 1 <= i < |items| ==> items[i] == items[1..][i - 1];
      if CapabilityRefusal(items).None? {
        forall i | 0 <= i < |items|
          ensures items[i].Str? && |Utf8(items[i].s)| <= 256
        {
          if i > 0 {
            assert items[i] == items[1..][i - 1];
          }
        }
      }
    }
  }

  lemma {:induction false} CapabilityBytesAt(items: seq<Value>)
    ensures |CapabilityBytes(items)| == |items|
    ensures forall i :: 0 <= i < |items| && items[i].Str? ==> CapabilityBytes(items)[i] == Utf8(items[i].s)
  {
    if items != [] {
      CapabilityBytesAt(items[1..]);
      forall i | 1 <= i < |items| && items[i].Str?
        ensures CapabilityBytes(items)[i] == Utf8(items[i].s)
      {
        assert items[i] == items[1..][i - 1];
      }
    }
  }

  /** A checked `register_agent` always builds, and every limit the check names holds of what is
      built, capability by capability. */
  lemma CheckedRegisterBuilds(v: Value)
    requires RegisterRefusal(v).None?
    ensures BuildRegister(v).Ok?
    ensures var c := BuildRegister(v).value;
      var items := Get(v, "capabilities").value.items;
      && |c.did| <= 128 && (c.metadata.Some? ==> |c.metadata.value| <= 1024)
      && |c.capabilities| == |items|
      && forall i :: 0 <= i < |items| ==>
        items[i].Str? && c.capabilities[i] == Utf8(items[i].s) && |c.capabilities[i]| <= 256
  {
    CapabilityRefusalKinds(Get(v, "capabilities").value.items);
    CapabilityBytesAt(Get(v, "capabilities").value.items);
  }

  lemma SameRefusal(v: Value, w: Value)
    requires Get(w, "did") == Get(v, "did") && Get(w, "capabilities") == Get(v, "capabilities")
    requires Get(w, "metadata") == Get(v, "metadata") && Get(w, "verification_level") == Get(v, "verification_level")
    ensures RegisterRefusal(w) == RegisterRefusal(v)
  {
  }

  lemma SameRegister(v: Value, w: Value)
    requires Get(w, "did") == Get(v, "did") && Get(w, "capabilities") == Get(v, "capabilities")
    requires Get(w, "metadata") == Get(v, "metadata") && Get(w, "verification_level") == Get(v, "verification_level")
    requires BuildRegister(v).Ok?
    ensures BuildRegister(w) == Ok(BuildRegister(v).value.(attestation := OptionalBytes(w, "attestation")))
  {
  }

  lemma OtherField(v: Value, key: string, added: string, x: Value)
    requires v.Obj? && key != added
    ensures Get(Obj(v.fields[added := x]), key) == Get(v, key)
  {
  }

  /** The one text without a limit: an attestation of any length may be added to a payload that
      passes, and is built as it is. */
  lemma AttestationIsUnbounded(v: Value, text: string)
    requires RegisterRefusal(v).None?
    ensures var longer := Obj(v.fields["attestation" := Str(text)]);
      && RegisterRefusal(longer).None?
      && BuildRegister(v).Ok?
      && BuildRegister(longer) == Ok(BuildRegister(v).value.(attestation := Some(Utf8(text))))
  {
    CheckedRegisterBuilds(v);
    var longer := Obj(v.fields["attestation" := Str(text)]);
    assert "did"[0] != "attestation"[0] && "capabilities"[0] != "attestation"[0];
    assert "metadata"[0] != "attestation"[0] && "verification_level"[0] != "attestation"[0];
    OtherField(v, "did", "attestation", Str(text));
    OtherField(v, "capabilities", "attestation", Str(text));
    OtherField(v, "metadata", "attestation", Str(text));
    OtherField(v, "verification_level", "attestation", Str(text));
    SameRefusal(v, longer);
    SameRegister(v, longer);
  }

  /** The numbers of a call of the task market in the order of its arguments, with the limits of
      the dropped checks. */
  function Numbers(call: string): seq<(string, u64)> {
    match call
    case "create_task" => [("budget", MAX_U64), ("deadline", MAX_U32)]
    case "submit_bid" => [("task_id", MAX_U64), ("agent_id", MAX_U64), ("estimated_duration", MAX_U32)]
    case "reveal_bid" => [("task_id", MAX_U64), ("agent_id", MAX_U64), ("cost", MAX_U64)]
    case "allocate_task" => [("task_id", MAX_U64)]
    case "submit_result" => [("task_id", MAX_U64), ("agent_id", MAX_U64)]
    case _ => []
  }

  /** The numbers a built call carries, in the same order. */
  function Carried(c: Call): seq<int> {
    match c
    case RegisterAgent(_, _, _, _, _) => []
    case CreateTask(_, budget, deadline, _) => [budget, deadline]
    case SubmitBid(task, agent, _, duration) => [task, agent, duration]
    case RevealBid(task, agent, cost, _) => [task, agent, cost]
    case AllocateTask(task) => [task]
    case SubmitResult(task, agent, _, _) => [task, agent]
    case Transfer(_, amount) => [amount]
  }

  ghost predicate Present(v: Value, numbers: seq<(string, u64)>) {
    forall i :: 0 <= i < |numbers| ==> GetU64(v, numbers[i].0).Some?
  }

  /** What the dropped checks would establish. */
  ghost predicate Checked(v: Value, numbers: seq<(string, u64)>) {
    forall i :: 0 <= i < |numbers| ==> Number(v, numbers[i].0, numbers[i].1).Ok?
  }

  ghost predicate CarriesAll(v: Value, numbers: seq<(string, u64)>, carried: seq<int>) {
    |carried| == |numbers| && forall i :: 0 <= i < |numbers| ==> GetU64(v, numbers[i].0) == Some(carried[i])
  }

  lemma OneNumber(v: Value, a: (string, u64), x: int)
    ensures Present(v, [a]) <==> GetU64(v, a.0).Some?
    ensures Checked(v, [a]) <==> Number(v, a.0, a.1).Ok?
    ensures CarriesAll(v, [a], [x]) <==> GetU64(v, a.0) == Some(x)
  {
    assert [a][0] == a;
  }

  lemma MoreNumbers(v: Value, a: (string, u64), x: int, rest: seq<(string, u64)>, carried: seq<int>)
    ensures Present(v, [a] + rest) <==> GetU64(v, a.0).Some? && Present(v, rest)
    ensures Checked(v, [a] + rest) <==> Number(v, a.0, a.1).Ok? && Checked(v, rest)
    ensures CarriesAll(v, [a] + rest, [x] + carried) <==> GetU64(v, a.0) == Some(x) && CarriesAll(v, rest, carried)
  {
    var all := [a] + rest;
    assert all[0] == a;
    assert forall i :: 0 <= i < |rest| ==> rest[i] == all[i + 1];
    MoreCarried(v, a, x, rest, carried);
  }

  lemma MoreCarried(v: Value, a: (string, u64), x: int, rest: seq<(string, u64)>, carried: seq<int>)
    ensures CarriesAll(v, [a] + rest, [x] + carried) <==> GetU64(v, a.0) == Some(x) && CarriesAll(v, rest, carried)
  {
    var all, all' := [a] + rest, [x] + carried;
    assert all[0] == a && all'[0] == x;
    if CarriesAll(v, all, all') {
      forall i | 0 <= i < |rest|
        ensures GetU64(v, rest[i].0) == Some(carried[i])
      {
        assert rest[i] == all[i + 1] && carried[i] == all'[i + 1];
      }
    }
  }

  lemma CreateExactly(v: Value)
    requires CreateRefusal(v).None?
    ensures BuildCreate(v).Ok? <==> Present(v, Numbers("create_task"))
    ensures Checked(v, Numbers("create_task"))
      <==> (BuildCreate(v).Ok? && CarriesAll(v, Numbers("create_task"), Carried(BuildCreate(v).value)))
  {
    var c := if BuildCreate(v).Ok? then BuildCreate(v).value else CreateTask([], 0, 0, BestEffort);
    var rest := [("deadline", MAX_U32)];
    OneNumber(v, ("deadline", MAX_U32), c.deadline);
    MoreNumbers(v, ("budget", MAX_U64), c.budget, rest, [c.deadline]);
    assert Numbers("create_task") == [("budget", MAX_U64)] + rest && Carried(c) == [c.budget] + [c.deadline];
  }

  lemma BidExactly(v: Value)
    requires BidRefusal(v).None?
    ensures BuildBid(v).Ok? <==> Present(v, Numbers("submit_bid"))
    ensures Checked(v, Numbers("submit_bid"))
      <==> (BuildBid(v).Ok? && CarriesAll(v, Numbers("submit_bid"), Carried(BuildBid(v).value)))
  {
    hide Hash;
    var c := if BuildBid(v).Ok? then BuildBid(v).value else SubmitBid(0, 0, [], 0);
    var last := [("estimated_duration", MAX_U32)];
    OneNumber(v, ("estimated_duration", MAX_U32), c.duration);
    MoreNumbers(v, ("agent_id", MAX_U64), c.agent, last, [c.duration]);
    MoreNumbers(v, ("task_id", MAX_U64), c.task, [("agent_id", MAX_U64)] + last, [c.agent] + [c.duration]);
    assert Numbers("submit_bid") == [("task_id", MAX_U64)] + ([("agent_id", MAX_U64)] + last);
    assert Carried(c) == [c.task] + ([c.agent] + [c.duration]);
  }

  lemma RevealExactly(v: Value)
    requires RevealRefusal(v).None?
    ensures BuildReveal(v).Ok? <==> Present(v, Numbers("reveal_bid"))
    ensures Checked(v, Numbers("reveal_bid"))
      <==> (BuildReveal(v).Ok? && CarriesAll(v, Numbers("reveal_bid"), Carried(BuildReveal(v).value)))
  {
    hide Hash;
    var c := if BuildReveal(v).Ok? then BuildReveal(v).value else RevealBid(0, 0, 0, []);
    var last := [("cost", MAX_U64)];
    OneNumber(v, ("cost", MAX_U64), c.cost);
    MoreNumbers(v, ("agent_id", MAX_U64), c.agent, last, [c.cost]);
    MoreNumbers(v, ("task_id", MAX_U64), c.task, [("agent_id", MAX_U64)] + last, [c.agent] + [c.cost]);
    assert Numbers("reveal_bid") == [("task_id", MAX_U64)] + ([("agent_id", MAX_U64)] + last);
    assert Carried(c) == [c.task] + ([c.agent] + [c.cost]);
  }

  lemma AllocateExactly(v: Value)
    ensures BuildAllocate(v).Ok? <==> Present(v, Numbers("allocate_task"))
    ensures Checked(v, Numbers("allocate_task"))
      <==> (BuildAllocate(v).Ok? && CarriesAll(v, Numbers("allocate_task"), Carried(BuildAllocate(v).value)))
  {
    OneNumber(v, ("task_id", MAX_U64), if BuildAllocate(v).Ok? then BuildAllocate(v).value.task else 0);
  }

  lemma ResultExactly(v: Value)
    requires ResultRefusal(v).None?
    ensures BuildResult(v).Ok? <==> Present(v, Numbers("submit_result"))
    ensures Checked(v, Numbers("submit_result"))
      <==> (BuildResult(v).Ok? && CarriesAll(v, Numbers("submit_result"), Carried(BuildResult(v).value)))
  {
    var c := if BuildResult(v).Ok? then BuildResult(v).value else SubmitResult(0, 0, [], []);
    var rest := [("agent_id", MAX_U64)];
    OneNumber(v, ("agent_id", MAX_U64), c.agent);
    MoreNumbers(v, ("task_id", MAX_U64), c.task, rest, [c.agent]);
    assert Numbers("submit_result") == [("task_id", MAX_U64)] + rest && Carried(c) == [c.task] + [c.agent];
  }

  /** A checked call of the task market builds exactly when its numbers are there as unsigned
      64-bit integers, which the check does not establish. It builds with the very numbers of the
      payload exactly when the dropped checks would have passed: a deadline or a duration of more
      than 32 bits is cut, not refused. */
  lemma BuiltExactlyIff(call: string, v: Value, ss58: string -> Option<seq<byte>>)
    requires ("TaskMarket", call) in CALLS && Refusal("TaskMarket", call, v).None?
    ensures Build("TaskMarket", call, v, ss58).Ok? <==> Present(v, Numbers(call))
    ensures Checked(v, Numbers(call))
      <==> (
        && Build("TaskMarket", call, v, ss58).Ok?
        && CarriesAll(v, Numbers(call), Carried(Build("TaskMarket", call, v, ss58).value)))
  {
    match call
    case "create_task" => CreateExactly(v);
    case "submit_bid" => BidExactly(v);
    case "reveal_bid" => RevealExactly(v);
    case "allocate_task" => AllocateExactly(v);
    case _ => ResultExactly(v);
  }

  /** A checked transfer builds exactly when its address parses, and is then one to that account of the
      amount in the payload. */
  lemma CheckedTransferIff(v: Value, ss58: string -> Option<seq<byte>>)
    requires Refusal("Balances", "transfer_allow_death", v).None?
    ensures Build("Balances", "transfer_allow_death", v, ss58).Ok? <==> ss58(GetStr(v, "address").value).Some?
    ensures forall account :: ss58(GetStr(v, "address").value) == Some(account) ==>
      Build("Balances", "transfer_allow_death", v, ss58) == Ok(Transfer(account, Get(v, "amount").value.n))
  {
  }

  function LevelName(level: Level): string {
    match level
    case BestEffort => "best_effort"
    case Optimistic => "optimistic"
    case Tee => "tee"
    case ZkSnark => "zksnark"
    case Redundant => "redundant"
  }

  /** Every level is named by its text in any letter case, and by nothing else; only best effort
      is also meant by a missing field or one that is not text. */
  lemma LevelIff(v: Value, level: Level)
    ensures ParseLevel(v) == Ok(level) <==>
      match GetStr(v, "verification_level")
      case Some(s) => LowerCase(s) == LevelName(level)
      case None => level == BestEffort
  {
    assert LowerCase("best_effort") == "best_effort";
  }

  // ----- the payloads of the request handlers -----

  /** Nothing for a budget beyond 64 bits: building the JSON value then aborts the request. */
  function TaskPayload(specHash: seq<byte>, budget: nat, deadline: u64): Option<Value> {
    if budget >= TWO_64 then None
    else
      Some(Obj(map["spec_hash" := Str("0x" + Hex.Encode(specHash)), "budget" := Num(budget), "deadline" := Num(deadline),
                   "verification_level" := Str("best_effort")]))
  }

  function BidPayload(taskId: int, agentId: int, commitment: seq<byte>, time: u64): Value {
    Obj(map["task_id" := Num(taskId), "agent_id" := Num(agentId),
            "commitment" := Str("0x" + Hex.Encode(commitment)), "estimated_duration" := Num(time)])
  }

  function ResultPayload(taskId: int, agentId: int, resultHash: seq<byte>): Value {
    Obj(map["task_id" := Num(taskId), "agent_id" := Num(agentId),
            "result_hash" := Str("0x" + Hex.Encode(resultHash)), "proof" := Str("")])
  }

  lemma TaskFields(specHash: seq<byte>, budget: nat, deadline: u64)
    requires |specHash| == 32 && budget < TWO_64
    ensures var v := TaskPayload(specHash, budget, deadline).value;
      && Hex.HexTo32(Get(v, "spec_hash")) == Ok(specHash)
      && Get(v, "budget") == Some(Num(budget)) && Get(v, "deadline") == Some(Num(deadline))
      && Get(v, "verification_level") == Some(Str("best_effort"))
  {
    Hex.HexRoundTrip(specHash);
  }

  lemma TaskBuilds(v: Value, specHash: seq<byte>, budget: u64, deadline: u64, ss58: string -> Option<seq<byte>>)
    requires Hex.HexTo32(Get(v, "spec_hash")) == Ok(specHash)
    requires Get(v, "budget") == Some(Num(budget)) && Get(v, "deadline") == Some(Num(deadline))
    requires Get(v, "verification_level") == Some(Str("best_effort"))
    ensures CreateRefusal(v).None?
    ensures Prepare("TaskMarket", "create_task", Parsed(v), ss58)
      == Ok(CreateTask(specHash, budget, Truncated(deadline), BestEffort))
  {
    assert LowerCase("best_effort") == "best_effort";
    assert CreateRefusal(v).None?;
  }

  /** A task's payload exists exactly when its budget fits 64 bits. It is then always queued and
      always builds, with its hash, its budget and the best effort level; its deadline arrives
      unchanged exactly when it fits 32 bits. */
  lemma TaskPayloadBuilds(specHash: seq<byte>, budget: nat, deadline: u64, ss58: string -> Option<seq<byte>>)
    requires |specHash| == 32
    ensures TaskPayload(specHash, budget, deadline).Some? <==> budget <= MAX_U64
    ensures budget <= MAX_U64 ==>
      var v := TaskPayload(specHash, budget, deadline).value;
      var r := Prepare("TaskMarket", "create_task", Parsed(v), ss58);
      && Refusal("TaskMarket", "create_task", v).None?
      && r.Ok? && r.value.CreateTask? && r.value.specHash == specHash && r.value.budget == budget
      && r.value.level == BestEffort && (r.value.deadline == deadline <==> deadline <= MAX_U32)
  {
    hide Prepare, CreateRefusal;
    if budget < TWO_64 {
      TaskFields(specHash, budget, deadline);
      TaskBuilds(TaskPayload(specHash, budget, deadline).value, specHash, budget, deadline, ss58);
    }
  }

  /** A bid's payload is always queued. It builds exactly when the chain ids are not negative,
      which they are when an id of 2^63 or more was stored as a signed number. */
  lemma BidPayloadBuildsIff(taskId: int, agentId: int, hash: seq<byte>, time: u64, ss58: string -> Option<seq<byte>>)
    requires |hash| == 32 && -TWO_63 <= taskId < TWO_63 && -TWO_63 <= agentId < TWO_63
    ensures var v := BidPayload(taskId, agentId, hash, time);
      && Refusal("TaskMarket", "submit_bid", v).None?
      && (Prepare("TaskMarket", "submit_bid", Parsed(v), ss58).Ok? <==> taskId >= 0 && agentId >= 0)
      && (taskId >= 0 && agentId >= 0 ==>
            Prepare("TaskMarket", "submit_bid", Parsed(v), ss58)
              == Ok(SubmitBid(taskId, agentId, hash, Truncated(time))))
  {
    Hex.HexRoundTrip(hash);
  }

  /** The same for a result, whose proof is always empty. */
  lemma ResultPayloadBuildsIff(taskId: int, agentId: int, hash: seq<byte>, ss58: string -> Option<seq<byte>>)
    requires |hash| == 32 && -TWO_63 <= taskId < TWO_63 && -TWO_63 <= agentId < TWO_63
    ensures var v := ResultPayload(taskId, agentId, hash);
      && Refusal("TaskMarket", "submit_result", v).None?
      && (Prepare("TaskMarket", "submit_result", Parsed(v), ss58).Ok? <==> taskId >= 0 && agentId >= 0)
      && (taskId >= 0 && agentId >= 0 ==>
            Prepare("TaskMarket", "submit_result", Parsed(v), ss58) == Ok(SubmitResult(taskId, agentId, hash, [])))
  {
    Hex.HexRoundTrip(hash);
  }
}
