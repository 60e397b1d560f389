/** Which call a payload asks for, argument by argument: for every payload and every call, the one is
    built from the other exactly under the stated conditions on its fields. */
module CallMeanings {
  import opened Basics
  import opened Json
  import opened Calls
  import Hex

  /** The field is an integer of at most 64 bits, and this one. */
  predicate IsNumber(v: Value, key: string, n: int) {
    Get(v, key) == Some(Num(n)) && 0 <= n < 0x1_0000_0000_0000_0000
  }

  /** The field is an integer of at most 64 bits, of which these are the lower 32. */
  predicate IsCutNumber(v: Value, key: string, n: int) {
    match Get(v, key)
    case Some(Num(m)) => IsNumber(v, key, m) && n == m % 0x1_0000_0000
    case _ => false
  }

  /** The field is a text of at most so many bytes, and these. */
  predicate IsText(v: Value, key: string, limit: nat, bytes: seq<byte>) {
    match Get(v, key)
    case Some(Str(s)) => bytes == Utf8(s) && |bytes| <= limit
    case _ => false
  }

  /** The field is 32 bytes in hexadecimal digits of either case, after any number of prefixes. */
  predicate IsHash(v: Value, key: string, bytes: seq<byte>) {
    |bytes| == 32
    && match Get(v, key)
       case Some(Str(s)) => Hex.LowerCase(Hex.TrimPrefix(s)) == Hex.Encode(bytes)
       case _ => false
  }

  /** The text names the level in any case of its letters; any other field means best effort. */
  predicate IsLevel(v: Value, level: Level) {
    match Get(v, "verification_level")
    case Some(Str(s)) =>
      LowerCase(s) ==
        (match level
         case BestEffort => "best_effort"
         case Optimistic => "optimistic"
         case Tee => "tee"
         case ZkSnark => "zksnark"
         case Redundant => "redundant")
    case _ => level == BestEffort
  }

  lemma HexOf(s: string, bytes: seq<byte>)
    ensures Hex.Decode(s) == Some(bytes) <==> Hex.LowerCase(s) == Hex.Encode(bytes)
  {
    if Hex.Decode(s).Some? {
      Hex.EncodeDecode(s);
      Hex.DecodeEncode(Hex.Decode(s).value);
    }
    DecodeLower(s);
    Hex.DecodeEncode(bytes);
  }

  lemma {:induction false} DecodeLower(s: string)
    ensures Hex.Decode(Hex.LowerCase(s)) == Hex.Decode(s)
  {
    if |s| >= 2 {
      assert Hex.LowerCase(s)[2..] == Hex.LowerCase(s[2..]);
      DecodeLower(s[2..]);
    }
  }

  lemma HashExactly(v: Value, key: string, bytes: seq<byte>)
    ensures Hash(v, key) == Ok(bytes) <==> IsHash(v, key, bytes)
  {
    match Get(v, key)
    case Some(Str(s)) => HexOf(Hex.TrimPrefix(s), bytes);
    case _ =>
  }

  lemma LevelExactly(v: Value, level: Level)
    ensures ParseLevel(v) == Ok(level) <==> IsLevel(v, level)
  {
    LevelIff(v, level);
  }

  // ----- the calls -----

  lemma CreateMeaning(v: Value, specHash: seq<byte>, budget: nat, deadline: u32, level: Level, ss58: string -> Option<seq<byte>>)
    ensures Prepare("TaskMarket", "create_task", Parsed(v), ss58) == Ok(CreateTask(specHash, budget, deadline, level))
      <==> (
        && IsHash(v, "spec_hash", specHash) && IsNumber(v, "budget", budget) && IsLevel(v, level)
        && IsCutNumber(v, "deadline", deadline))
  {
    hide Hash, ParseLevel, IsHash, IsLevel;
    HashExactly(v, "spec_hash", specHash);
    LevelExactly(v, level);
  }

  lemma BidMeaning(v: Value, task: u64, agent: u64, commitment: seq<byte>, duration: u32, ss58: string -> Option<seq<byte>>)
    ensures Prepare("TaskMarket", "submit_bid", Parsed(v), ss58) == Ok(SubmitBid(task, agent, commitment, duration))
      <==> (
        && IsNumber(v, "task_id", task) && IsNumber(v, "agent_id", agent) && IsHash(v, "commitment", commitment)
        && IsCutNumber(v, "estimated_duration", duration))
  {
    hide Hash, IsHash;
    HashExactly(v, "commitment", commitment);
  }

  lemma RevealMeaning(v: Value, task: u64, agent: u64, cost: nat, nonce: seq<byte>, ss58: string -> Option<seq<byte>>)
    ensures Prepare("TaskMarket", "reveal_bid", Parsed(v), ss58) == Ok(RevealBid(task, agent, cost, nonce))
      <==> (
        && IsNumber(v, "task_id", task) && IsNumber(v, "agent_id", agent)
        && IsNumber(v, "cost", cost) && IsHash(v, "nonce", nonce))
  {
    hide Hash, IsHash;
    HashExactly(v, "nonce", nonce);
  }

  lemma AllocateMeaning(v: Value, task: u64, ss58: string -> Option<seq<byte>>)
    ensures Prepare("TaskMarket", "allocate_task", Parsed(v), ss58) == Ok(AllocateTask(task)) <==> IsNumber(v, "task_id", task)
  {
  }

  /** The proof is optional, and so is its being a text. */
  lemma ResultMeaning(v: Value, task: u64, agent: u64, resultHash: seq<byte>, proof: seq<byte>, ss58: string -> Option<seq<byte>>)
    ensures Prepare("TaskMarket", "submit_result", Parsed(v), ss58) == Ok(SubmitResult(task, agent, resultHash, proof))
      <==> (
        && IsNumber(v, "task_id", task) && IsNumber(v, "agent_id", agent) && IsHash(v, "result_hash", resultHash)
        && if GetStr(v, "proof").Some? then IsText(v, "proof", 4096, proof) else proof == [])
  {
    hide Hash, IsHash;
    HashExactly(v, "result_hash", resultHash);
  }

  lemma TransferMeaning(v: Value, account: seq<byte>, amount: nat, ss58: string -> Option<seq<byte>>)
    ensures Prepare("Balances", "transfer_allow_death", Parsed(v), ss58) == Ok(Transfer(account, amount))
      <==> (
        && IsNumber(v, "amount", amount)
        && exists s :: Get(v, "address") == Some(Str(s)) && |Utf8(s)| <= 128 && ss58(s) == Some(account))
  {
    hide Utf8;
  }

  predicate IsOptional(v: Value, key: string, bytes: Option<seq<byte>>) {
    match Get(v, key)
    case Some(Str(s)) => bytes == Some(Utf8(s))
    case _ => bytes == None
  }

  lemma RegisterMeaning(v: Value, did: seq<byte>, capabilities: seq<seq<byte>>, metadata: Option<seq<byte>>,
                        attestation: Option<seq<byte>>, level: Level, ss58: string -> Option<seq<byte>>)
    ensures Prepare("AgentRegistry", "register_agent", Parsed(v), ss58)
        == Ok(RegisterAgent(did, capabilities, metadata, attestation, level))
      <==> (
        && IsText(v, "did", 128, did) && IsLevel(v, level)
        && IsOptional(v, "metadata", metadata) && (metadata.Some? ==> |metadata.value| <= 1024)
        && IsOptional(v, "attestation", attestation)
        && match Get(v, "capabilities")
           case Some(Arr(items)) =>
             |capabilities| == |items|
             && forall i :: 0 <= i < |items| ==>
               items[i].Str? && capabilities[i] == Utf8(items[i].s) && |capabilities[i]| <= 256
           case _ => false)
  {
    hide ParseLevel, IsLevel, Utf8, CapabilityRefusal, CapabilityBytes;
    LevelExactly(v, level);
    match Get(v, "capabilities")
    case Some(Arr(items)) =>
      CapabilityRefusalKinds(items);
      if CapabilityRefusal(items).None? {
        SameCapabilities(items, capabilities);
      }
    case _ =>
  }

  lemma SameCapabilities(items: seq<Value>, capabilities: seq<seq<byte>>)
    requires forall i :: 0 <= i < |items| ==> items[i].Str?
    ensures capabilities == CapabilityBytes(items)
      <==> |capabilities| == |items| && forall i :: 0 <= i < |items| ==> capabilities[i] == Utf8(items[i].s)
  {
    CapabilityBytesAt(items);
  }

  /** A row without a payload never builds, nor does one whose payload is not JSON. */
  lemma NothingToBuild(pallet: string, call: string, ss58: string -> Option<seq<byte>>)
    ensures Prepare(pallet, call, Absent, ss58).Err?
    ensures Prepare(pallet, call, Unreadable, ss58) == Err(BadText)
  {
    assert GetStr(Obj(map[]), "did") == None;
  }

  // ----- the faucet -----

  /** What `request_faucet` queues: the address of the request and its amount, or 10^12. */
  function FaucetPayload(body: Value): Option<Value> {
    match GetStr(body, "address")
    case None => None
    case Some(address) =>
      var amount := match GetU64(body, "amount") case Some(n) => n case None => 1_000_000_000_000;
      Some(Obj(map["address" := Str(address), "amount" := Num(amount)]))
  }

  /** The amount of a request: 10^12 unless there is one of at most 64 bits. */
  function Asked(body: Value): int {
    match Get(body, "amount")
    case Some(Num(n)) => if IsNumber(body, "amount", n) then n else 1_000_000_000_000
    case _ => 1_000_000_000_000
  }

  /** A request with an address of at most 128 bytes is queued, and submitted as a transfer to the
      account the address stands for, if any, of the amount asked for. */
  lemma FaucetTransfers(body: Value, ss58: string -> Option<seq<byte>>)
    ensures FaucetPayload(body).Some? <==> exists s :: Get(body, "address") == Some(Str(s))
    ensures FaucetPayload(body).Some? ==>
      var v := FaucetPayload(body).value;
      var address := GetStr(body, "address").value;
      && (Refusal("Balances", "transfer_allow_death", v).None? <==> |Utf8(address)| <= 128)
      && forall account, amount: nat ::
           Prepare("Balances", "transfer_allow_death", Parsed(v), ss58) == Ok(Transfer(account, amount))
           <==> |Utf8(address)| <= 128 && ss58(address) == Some(account) && amount == Asked(body)
  {
    hide Utf8, Prepare;
    if FaucetPayload(body).Some? {
      var v := FaucetPayload(body).value;
      var address := GetStr(body, "address").value;
      assert Get(v, "address") == Some(Str(address)) && Get(v, "amount").value == v.fields["amount"];
      FaucetAmount(body);
      forall account, amount: nat
        ensures Prepare("Balances", "transfer_allow_death", Parsed(v), ss58) == Ok(Transfer(account, amount))
          <==> |Utf8(address)| <= 128 && ss58(address) == Some(account) && IsNumber(v, "amount", amount)
      {
        TransferMeaning(v, account, amount, ss58);
      }
    }
  }

  lemma FaucetAmount(body: Value)
    requires FaucetPayload(body).Some?
    ensures forall amount :: IsNumber(FaucetPayload(body).value, "amount", amount) <==> amount == Asked(body)
  {
  }
}
