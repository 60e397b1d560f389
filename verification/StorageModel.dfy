/** The two backends behind the storage interface, as functions on values: what each call answers
    and what it leaves behind. */
module StorageModel {
  import opened Basics

  /** A textual id: the canonical spelling of a UUID, another spelling of one, or neither. */
  datatype IdText = Canonical(uuid: nat) | Respelled(uuid: nat, text: string) | NoUuid(text: string)

  function ParseUuid(id: IdText): Option<nat> {
    if id.NoUuid? then None else Some(id.uuid)
  }

  datatype Agent = Agent(id: string, title: string)

  /** `body` stands for the texts that are only ever stored and returned. */
  datatype Task = Task(id: IdText, maxCost: nat, deadline: u64, completed: bool, body: string)
  datatype Bid = Bid(id: IdText, taskId: IdText, agentHash: seq<byte>, value: nat, body: string)
  datatype Outcome = Outcome(id: IdText, taskId: IdText, agentHash: seq<byte>, body: string)

  datatype Error = BadRequest | NotFound | Internal

  datatype Call =
    | RegisterAgent(agent: Agent)
    | GetAgent(agentId: string)
    | ListAgents
    | InsertTask(task: Task)
    | UpsertTask(task: Task)
    | GetTask(id: IdText)
    | ListTasks
    | InsertBid(bid: Bid)
    | GetBids(id: IdText)
    | InsertResult(result: Outcome)
    | GetResult(id: IdText)
    | DashboardCounts

  /** Lists are unordered; their members are distinct since each carries its own id. */
  datatype Answer =
    | Unit
    | OneAgent(agent: Agent)
    | Agents(agents: set<Agent>)
    | OneTask(task: Task)
    | Tasks(tasks: set<Task>)
    | Bids(bids: set<Bid>)
    | OneResult(result: Outcome)
    | Counts(agentCount: nat, taskCount: nat, completedCount: nat, pendingCount: nat)
    | Failed(error: Error)

  // ----- InMemoryStorage -----

  datatype Mem = Mem(
    agents: map<string, Agent>,
    tasks: map<IdText, Task>,
    bids: map<IdText, Bid>,
    results: map<IdText, Outcome>)

  function CompletedIn(tasks: map<IdText, Task>): set<IdText> {
    set id | id in tasks && tasks[id].completed
  }

  function BidsOf(bids: map<IdText, Bid>, taskId: IdText): set<Bid> {
    set id | id in bids && bids[id].taskId == taskId :: bids[id]
  }

  function SaturatingSub(a: nat, b: nat): nat {
    if a >= b then a - b else 0
  }

  function MemCounts(m: Mem): Answer {
    var completed := |CompletedIn(m.tasks)|;
    Counts(|m.agents|, |m.tasks|, completed, SaturatingSub(|m.tasks|, completed))
  }

  /** What `find` over the result map may return. */
  ghost predicate MayFind(results: map<IdText, Outcome>, taskId: IdText, a: Answer) {
    if exists id :: id in results && results[id].taskId == taskId
    then a.OneResult? && exists id :: id in results && results[id].taskId == taskId && results[id] == a.result
    else a == Failed(NotFound)
  }

  /** The answers the hash maps may give; only the lookup of a result leaves a choice. */
  ghost predicate MayAnswer(m: Mem, c: Call, a: Answer) {
    match c
    case GetAgent(id) => a == if id in m.agents then OneAgent(m.agents[id]) else Failed(NotFound)
    case ListAgents => a == Agents(set id | id in m.agents :: m.agents[id])
    case GetTask(id) => a == if id in m.tasks then OneTask(m.tasks[id]) else Failed(NotFound)
    case ListTasks => a == Tasks(set id | id in m.tasks :: m.tasks[id])
    case GetBids(id) => a == Bids(BidsOf(m.bids, id))
    case GetResult(id) => MayFind(m.results, id, a)
    case DashboardCounts => a == MemCounts(m)
    case _ => a == Unit
  }

  function MemNext(m: Mem, c: Call): Mem {
    match c
    case RegisterAgent(a) => m.(agents := m.agents[a.id := a])
    case InsertTask(t) => m.(tasks := m.tasks[t.id := t])
    case UpsertTask(t) => m.(tasks := m.tasks[t.id := t])
    case InsertBid(b) => m.(bids := m.bids[b.id := b])
    case InsertResult(r) => m.(results := m.results[r.id := r])
    case _ => m
  }

  // ----- PostgresStorage -----

  /** The status column is authoritative; `json` is the value as it was stored. */
  datatype TaskRow = TaskRow(completed: bool, json: Task)
  datatype BidRow = BidRow(task: nat, agentHash: seq<byte>, json: Bid)
  datatype ResultRow = ResultRow(id: nat, agentHash: seq<byte>, json: Outcome)

  /** Tasks and bids by primary key, results by their unique task id. */
  datatype Pg = Pg(
    agents: map<string, string>,
    tasks: map<nat, TaskRow>,
    bids: map<nat, BidRow>,
    results: map<nat, ResultRow>)

  /** Neither a TEXT nor a JSONB column takes U+0000. */
  predicate Storable(text: string) {
    '\0' !in text
  }

  function AgentError(a: Agent): Option<Error> {
    if Storable(a.id) && Storable(a.title) then None else Some(Internal)
  }

  /** What `to_timestamp` accepts, in seconds since 1970. */
  predicate IsTimestamp(seconds: int) {
    -210_866_803_200 <= seconds < 9_224_318_016_000
  }

  function Decode(row: TaskRow): Task {
    row.json.(completed := row.completed)
  }

  /** What keeps a task out of the table, checked in the order of the code. */
  function TaskError(t: Task): Option<Error> {
    if ParseUuid(t.id).None? then Some(BadRequest)
    else if t.maxCost >= TWO_63 then Some(BadRequest)
    else if !Storable(t.body) || !IsTimestamp(AsI64(t.deadline)) then Some(Internal)
    else None
  }

  /** UNIQUE (task_id, agent_id). */
  predicate BidTaken(p: Pg, task: nat, agentHash: seq<byte>) {
    exists n :: n in p.bids && p.bids[n].task == task && p.bids[n].agentHash == agentHash
  }

  function BidError(p: Pg, b: Bid): Option<Error> {
    if ParseUuid(b.id).None? || ParseUuid(b.taskId).None? then Some(BadRequest)
    else if b.value >= TWO_63 then Some(BadRequest)
    else if !Storable(b.body) then Some(Internal)
    else if ParseUuid(b.id).value in p.bids then None
    else if ParseUuid(b.taskId).value !in p.tasks then Some(Internal)
    else if BidTaken(p, ParseUuid(b.taskId).value, b.agentHash) then Some(Internal)
    else None
  }

  /** The primary key, already used by the result of another task. */
  predicate ResultIdTaken(p: Pg, id: nat, task: nat) {
    exists t :: t in p.results && t != task && p.results[t].id == id
  }

  function ResultError(p: Pg, r: Outcome): Option<Error> {
    if ParseUuid(r.id).None? || ParseUuid(r.taskId).None? then Some(BadRequest)
    else if !Storable(r.body) || ParseUuid(r.taskId).value !in p.tasks then Some(Internal)
    else if ResultIdTaken(p, ParseUuid(r.id).value, ParseUuid(r.taskId).value) then Some(Internal)
    else None
  }

  function Verdict(e: Option<Error>): Answer {
    if e.Some? then Failed(e.value) else Unit
  }

  function CompletedRows(tasks: map<nat, TaskRow>): set<nat> {
    set n | n in tasks && tasks[n].completed
  }

  function PendingRows(tasks: map<nat, TaskRow>): set<nat> {
    set n | n in tasks && !tasks[n].completed
  }

  function RowsOf(bids: map<nat, BidRow>, task: nat): set<Bid> {
    set n | n in bids && bids[n].task == task :: bids[n].json
  }

  /** ON CONFLICT (id) DO NOTHING. */
  function PutIfAbsent(tasks: map<nat, TaskRow>, t: Task): map<nat, TaskRow>
    requires !t.id.NoUuid?
  {
    if t.id.uuid in tasks then tasks else tasks[t.id.uuid := TaskRow(t.completed, t)]
  }

  function PutBidIfAbsent(bids: map<nat, BidRow>, b: Bid): map<nat, BidRow>
    requires !b.id.NoUuid? && !b.taskId.NoUuid?
  {
    if b.id.uuid in bids then bids else bids[b.id.uuid := BidRow(b.taskId.uuid, b.agentHash, b)]
  }

  /** ON CONFLICT (task_id) DO UPDATE of every column. */
  function PutResult(results: map<nat, ResultRow>, r: Outcome): map<nat, ResultRow>
    requires !r.id.NoUuid? && !r.taskId.NoUuid?
  {
    results[r.taskId.uuid := ResultRow(r.id.uuid, r.agentHash, r)]
  }

  function PgAnswer(p: Pg, c: Call): Answer {
    match c
    case RegisterAgent(a) => Verdict(AgentError(a))
    case GetAgent(id) =>
      if !Storable(id) then Failed(Internal)
      else if id in p.agents then OneAgent(Agent(id, p.agents[id])) else Failed(NotFound)
    case ListAgents => Agents(set id | id in p.agents :: Agent(id, p.agents[id]))
    case InsertTask(t) => Verdict(TaskError(t))
    case UpsertTask(t) => Verdict(TaskError(t))
    case GetTask(id) =>
      if ParseUuid(id).None? then Failed(BadRequest)
      else if id.uuid in p.tasks then OneTask(Decode(p.tasks[id.uuid])) else Failed(NotFound)
    case ListTasks => Tasks(set n | n in p.tasks :: Decode(p.tasks[n]))
    case InsertBid(b) => Verdict(BidError(p, b))
    case GetBids(id) =>
      if ParseUuid(id).None? then Failed(BadRequest)
      else Bids(RowsOf(p.bids, id.uuid))
    case InsertResult(r) => Verdict(ResultError(p, r))
    case GetResult(id) =>
      if ParseUuid(id).None? then Failed(BadRequest)
      else if id.uuid in p.results then OneResult(p.results[id.uuid].json) else Failed(NotFound)
    case DashboardCounts =>
      Counts(|p.agents|, |p.tasks|, |CompletedRows(p.tasks)|, |PendingRows(p.tasks)|)
  }

  function PgNext(p: Pg, c: Call): Pg {
    match c
    case RegisterAgent(a) => if AgentError(a).Some? then p else p.(agents := p.agents[a.id := a.title])
    case InsertTask(t) =>
      if TaskError(t).Some? then p else p.(tasks := PutIfAbsent(p.tasks, t))
    case UpsertTask(t) =>
      if TaskError(t).Some? then p else p.(tasks := p.tasks[t.id.uuid := TaskRow(t.completed, t)])
    case InsertBid(b) =>
      if BidError(p, b).Some? then p else p.(bids := PutBidIfAbsent(p.bids, b))
    case InsertResult(r) =>
      if ResultError(p, r).Some? then p
      else p.(results := PutResult(p.results, r))
    case _ => p
  }
}
