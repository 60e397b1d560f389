/** What the replay worker writes for one chain event: the database, the single SQL statements
    issued against it, and the list of statements each event expands to. */
module Projection {
  import opened Basics
  import Decimal
  import opened OutboxRows

  // ----- tables -----

  datatype AgentRow = AgentRow(title: string, chainId: Option<int>, account: Option<string>)

  /** The stub kept in `tasks.stored_json`; its id is generated anew by every execution. */
  datatype TaskJson = TaskJson(id: nat, requester: string, description: string, budget: nat)

  datatype TaskRow = TaskRow(
    id: nat,
    requester: string,
    description: string,
    maxBudget: int,
    completed: bool,
    resultHash: Option<string>,
    json: TaskJson)

  datatype BidRow = BidRow(id: nat, agentDid: string, block: nat)

  datatype ResultJson = ResultJson(id: nat, agentDid: string, executor: seq<byte>, output: string, block: nat)

  datatype ResultRow = ResultRow(id: nat, agent: seq<byte>, output: string, completedAt: nat, json: ResultJson)

  datatype LogRow = LogRow(pallet: string, variant: string, payload: string, correlation: Option<string>)

  /** The tables the worker writes. Task rows are those that carry a chain id, by that id;
      `next` is the supply of generated row ids, never reused. */
  datatype Db = Db(
    agents: map<string, AgentRow>,
    tasks: map<int, TaskRow>,
    bids: map<(int, seq<byte>), BidRow>,
    results: map<int, ResultRow>,
    outbox: Table,
    log: map<(nat, nat), LogRow>,
    next: nat)

  // ----- events -----

  datatype Fields =
    | AgentRegistered(agent: u64, owner: string)
    | TaskCreated(task: u64, requester: string, budget: nat)
    | BidSubmitted(task: u64, agent: u64)
    | TaskCompleted(task: u64, agent: u64, resultHash: string)
    | Undecoded

  /** `correlation` is the hash of the extrinsic the event belongs to, if any. */
  datatype Event = Event(pallet: string, variant: string, fields: Fields, payload: string, correlation: Option<string>)

  const SUPPORTED: map<string, seq<string>> := map[
    "AgentRegistry" := ["AgentRegistered", "AgentUpdated", "AgentRetired", "AgentStatusForced"],
    "TaskMarket" := ["TaskCreated", "BidSubmitted", "BidRevealed", "TaskAllocated", "TaskCompleted", "TaskFailed"],
    "Commitments" := ["CommitmentProposed", "CommitmentSigned", "CommitmentFinalized", "CommitmentDisputed",
                      "CommitmentCancelled"]]

  predicate IsSupported(pallet: string, variant: string) {
    pallet in SUPPORTED && variant in SUPPORTED[pallet]
  }

  // ----- statements -----

  /** The row a `LIMIT 1` without ORDER BY returns is left to the database: any function of
      the matching rows. */
  type Pick = set<string> -> string

  datatype Op =
    | PutAgent(agent: u64, owner: string)
    | FillAgents(agent: u64, owner: string)
    | PutTask(task: u64, requester: string, budget: nat)
    | PutBid(task: u64, agent: u64, block: nat, pick: Pick)
    | PutResult(task: u64, agent: u64, block: nat)
    | CompleteTask(task: u64, hash: string)
    | Finalize(need: Option<u64>, tx: string, setTask: Option<u64>, setAgent: Option<u64>)
    | PatchPending(need: Option<u64>, key: IdKey, id: u64)
    | WriteLog(at: (nat, nat), row: LogRow)

  function Did(agent: u64): string {
    "did:ainur:" + Decimal.Print(agent)
  }

  function RequesterDid(requester: string): string {
    "did:ainur:" + requester
  }

  function Description(task: u64): string {
    "chain task " + Decimal.Print(task)
  }

  function LittleEndian(n: nat, width: nat): (bytes: seq<byte>)
    ensures |bytes| == width
  {
    if width == 0 then [] else [(n % 256) as byte] + LittleEndian(n / 256, width - 1)
  }

  /** `agent_bytes_from_chain_id`: eight little-endian bytes, then zeros. */
  function AgentBytes(agent: u64): seq<byte> {
    LittleEndian(agent, 8) + seq(24, _ => 0 as byte)
  }

  function FromLittleEndian(bytes: seq<byte>): nat {
    if bytes == [] then 0 else bytes[0] as nat + 256 * FromLittleEndian(bytes[1..])
  }

  lemma {:induction false} LittleEndianValue(n: nat, width: nat)
    requires n < Pow2(8 * width)
    ensures FromLittleEndian(LittleEndian(n, width)) == n
  {
    if width > 0 {
      EightMore(8 * (width - 1));
      LittleEndianValue(n / 256, width - 1);
      assert LittleEndian(n, width)[1..] == LittleEndian(n / 256, width - 1);
    }
  }

  /** Different chain ids never share an agent key. */
  lemma AgentBytesDiffer(agent: u64, other: u64)
    requires AgentBytes(agent) == AgentBytes(other)
    ensures agent == other
  {
    assert Pow2(64) == TWO_64 by {
      assert Pow2(8) == 256;
      EightMore(8);
      EightMore(16);
      EightMore(24);
      EightMore(32);
      EightMore(40);
      EightMore(48);
      EightMore(56);
    }
    LittleEndianValue(agent, 8);
    LittleEndianValue(other, 8);
    assert LittleEndian(agent, 8) == AgentBytes(agent)[..8] == LittleEndian(other, 8);
  }

  function OptI64(x: Option<u64>): Option<int> {
    if x.Some? then Some(AsI64(x.value)) else None
  }

  /** The did a bid is recorded under: that of a known agent, else one made from the id. */
  function BidDid(agents: map<string, AgentRow>, agent: u64, pick: Pick): string {
    var known := set d | d in agents && agents[d].chainId == Some(AsI64(agent));
    if known == {} then Did(agent) else pick(known)
  }

  function FillRow(row: AgentRow, agent: u64, owner: string): AgentRow {
    if row.account == Some(owner) && row.chainId.None? then row.(chainId := Some(AsI64(agent))) else row
  }

  function UpsertTask(db: Db, task: u64, requester: string, budget: nat): Db {
    var t := AsI64(task);
    var json := TaskJson(db.next, RequesterDid(requester), Description(task), budget);
    var row :=
      if t in db.tasks
      then db.tasks[t].(requester := RequesterDid(requester), description := Description(task), completed := false, json := json)
      else TaskRow(db.next, RequesterDid(requester), Description(task), AsI64(budget % TWO_64), false, None, json);
    db.(tasks := db.tasks[t := row], next := db.next + 1)
  }

  function Completed(row: TaskRow, hash: string): TaskRow {
    row.(completed := true, resultHash := Some(hash))
  }

  function InsertBid(db: Db, task: u64, agent: u64, block: nat, pick: Pick): Db {
    var key := (AsI64(task), AgentBytes(agent));
    if key in db.bids then db.(next := db.next + 1)
    else db.(bids := db.bids[key := BidRow(db.next, BidDid(db.agents, agent, pick), block)], next := db.next + 1)
  }

  function UpsertResult(db: Db, task: u64, agent: u64, block: nat): Db {
    var t := AsI64(task);
    var json := ResultJson(db.next, Did(agent), AgentBytes(agent), "", block);
    var row :=
      if t in db.results then db.results[t].(output := "", completedAt := block, json := json)
      else ResultRow(db.next, AgentBytes(agent), "", block, json);
    db.(results := db.results[t := row], next := db.next + 1)
  }

  /** The chain task id whose row a statement depends on, if it depends on one. */
  function Need(op: Op): Option<int> {
    match op
    case PutBid(task, _, _, _) => Some(AsI64(task))
    case PutResult(task, _, _) => Some(AsI64(task))
    case CompleteTask(task, _) => Some(AsI64(task))
    case Finalize(need, _, _, _) => OptI64(need)
    case PatchPending(need, _, _) => OptI64(need)
    case _ => None
  }

  predicate Ready(op: Op, tasks: set<int>) {
    Need(op).Some? ==> Need(op).value in tasks
  }

  function Apply(op: Op, db: Db): Db {
    if !Ready(op, db.tasks.Keys) then db else
    match op
    case PutAgent(agent, owner) =>
      db.(agents := db.agents[Did(agent) := AgentRow(Did(agent), Some(AsI64(agent)), Some(owner))])
    case FillAgents(agent, owner) =>
      db.(agents := map d | d in db.agents :: FillRow(db.agents[d], agent, owner))
    case PutTask(task, requester, budget) => UpsertTask(db, task, requester, budget)
    case PutBid(task, agent, block, pick) => InsertBid(db, task, agent, block, pick)
    case PutResult(task, agent, block) => UpsertResult(db, task, agent, block)
    case CompleteTask(task, hash) =>
      var t := AsI64(task);
      db.(tasks := db.tasks[t := Completed(db.tasks[t], hash)])
    case Finalize(_, tx, setTask, setAgent) =>
      db.(outbox := FinalizeByHash(db.outbox, tx, OptI64(setTask), OptI64(setAgent)))
    case PatchPending(_, key, id) => db.(outbox := Patch(db.outbox, key, AsI64(id)))
    case WriteLog(at, row) => if at in db.log then db else db.(log := db.log[at := row])
  }

  function Run(ops: seq<Op>, db: Db): Db {
    if ops == [] then db else Apply(ops[|ops| - 1], Run(ops[..|ops| - 1], db))
  }

  // ----- the statements of one event -----

  function FinalizeOps(e: Event, need: Option<u64>, task: Option<u64>, agent: Option<u64>): seq<Op> {
    if e.correlation.Some? then [Finalize(need, e.correlation.value, task, agent)] else []
  }

  function ProjectOps(e: Event, block: nat, pick: Pick): seq<Op> {
    match e.fields
    case AgentRegistered(a, owner) =>
      if e.pallet == "AgentRegistry" && e.variant == "AgentRegistered" then
        [PutAgent(a, owner)] + FinalizeOps(e, None, None, Some(a)) + [FillAgents(a, owner)]
      else []
    case TaskCreated(t, requester, budget) =>
      if e.pallet == "TaskMarket" && e.variant == "TaskCreated" then
        [PutTask(t, requester, budget)] + FinalizeOps(e, None, Some(t), None) + [PatchPending(None, TaskKey, t)]
      else []
    case BidSubmitted(t, a) =>
      if e.pallet == "TaskMarket" && e.variant == "BidSubmitted" then
        [PutBid(t, a, block, pick)] + FinalizeOps(e, Some(t), Some(t), Some(a))
      else []
    case TaskCompleted(t, a, hash) =>
      if e.pallet == "TaskMarket" && e.variant == "TaskCompleted" then
        [PutResult(t, a, block), CompleteTask(t, hash)] + FinalizeOps(e, Some(t), Some(t), Some(a))
        + [PatchPending(Some(t), TaskKey, t), PatchPending(Some(t), AgentKey, a)]
      else []
    case Undecoded => []
  }

  /** Projections first, the log entry last. */
  function EventOps(e: Event, block: nat, index: nat, pick: Pick): seq<Op> {
    ProjectOps(e, block, pick) + [WriteLog((block, index), LogRow(e.pallet, e.variant, e.payload, e.correlation))]
  }

  // ----- the statements of one block -----

  type Cursor = (nat, nat)

  /** Strictly after the cursor, block first and index second. */
  predicate Beyond(block: nat, index: nat, cursor: Cursor) {
    block > cursor.0 || (block == cursor.0 && index > cursor.1)
  }

  predicate Wanted(e: Event, block: nat, index: nat, cursor: Cursor) {
    Beyond(block, index, cursor) && IsSupported(e.pallet, e.variant)
  }

  /** All statements for the first `count` events of a block, given the cursor before it. */
  function BlockOps(events: seq<Event>, block: nat, cursor: Cursor, pick: Pick, count: nat): seq<Op>
    requires count <= |events|
  {
    if count == 0 then []
    else
      var e := events[count - 1];
      BlockOps(events, block, cursor, pick, count - 1)
      + if Wanted(e, block, count - 1, cursor) then EventOps(e, block, count - 1, pick) else []
  }

  /** The cursor a completed block leaves behind: its last wanted event, if it has one. */
  function NextCursor(events: seq<Event>, block: nat, cursor: Cursor, count: nat): Cursor
    requires count <= |events|
  {
    if count == 0 then cursor
    else if Wanted(events[count - 1], block, count - 1, cursor) then (block, count - 1)
    else NextCursor(events, block, cursor, count - 1)
  }
}
