/** What a lookup finds after any run of calls: which of the earlier writes it shows. */
module StorageHistory {
  import opened Basics
  import opened StorageModel
  import opened StorageRefinement

  /** The writes that matter to one lookup. */
  datatype Write =
    | MemAgent(agentId: string) | MemTask(id: IdText) | MemBid(id: IdText) | MemResult(id: IdText)
    | PgAgent(agentId: string) | PgInsert(uuid: nat) | PgUpsert(uuid: nat)

  /** The call is such a write, and for Postgres one that is not refused. */
  predicate Hits(c: Call, w: Write) {
    match w
    case MemAgent(id) => c.RegisterAgent? && c.agent.id == id
    case MemTask(id) => (c.InsertTask? || c.UpsertTask?) && c.task.id == id
    case MemBid(id) => c.InsertBid? && c.bid.id == id
    case MemResult(id) => c.InsertResult? && c.result.id == id
    case PgAgent(id) => c.RegisterAgent? && c.agent.id == id && AgentError(c.agent).None?
    case PgInsert(n) => c.InsertTask? && ParseUuid(c.task.id) == Some(n) && TaskError(c.task).None?
    case PgUpsert(n) => c.UpsertTask? && ParseUuid(c.task.id) == Some(n) && TaskError(c.task).None?
  }

  function Last(calls: seq<Call>, w: Write): (j: Option<nat>)
    ensures j.Some? ==> j.value < |calls| && Hits(calls[j.value], w)
    ensures forall k :: (if j.Some? then j.value + 1 else 0) <= k < |calls| ==> !Hits(calls[k], w)
  {
    if calls == [] then None
    else if Hits(calls[|calls| - 1], w) then Some(|calls| - 1)
    else
      assert forall k :: 0 <= k < |calls| - 1 ==> calls[..|calls| - 1][k] == calls[k];
      Last(calls[..|calls| - 1], w)
  }

  function First(calls: seq<Call>, w: Write): (j: Option<nat>)
    ensures j.Some? ==> j.value < |calls| && Hits(calls[j.value], w)
    ensures forall k :: 0 <= k < (if j.Some? then j.value else |calls|) ==> !Hits(calls[k], w)
  {
    if calls == [] then None
    else
      var front := calls[..|calls| - 1];
      assert forall k :: 0 <= k < |front| ==> front[k] == calls[k];
      if First(front, w).Some? then First(front, w)
      else if Hits(calls[|calls| - 1], w) then Some(|calls| - 1)
      else None
  }

  /** At this key the map holds what was written, or what it held before. */
  predicate Shows<K(==), V(==)>(after: map<K, V>, before: map<K, V>, key: K, written: Option<V>) {
    if written.Some? then key in after && after[key] == written.value
    else (key in after <==> key in before) && (key in before ==> after[key] == before[key])
  }

  function LastAgent(calls: seq<Call>, id: string): Option<Agent> {
    match Last(calls, MemAgent(id)) case Some(j) => Some(calls[j].agent) case None => None
  }

  function LastTask(calls: seq<Call>, id: IdText): Option<Task> {
    match Last(calls, MemTask(id)) case Some(j) => Some(calls[j].task) case None => None
  }

  function LastBid(calls: seq<Call>, id: IdText): Option<Bid> {
    match Last(calls, MemBid(id)) case Some(j) => Some(calls[j].bid) case None => None
  }

  function LastResult(calls: seq<Call>, id: IdText): Option<Outcome> {
    match Last(calls, MemResult(id)) case Some(j) => Some(calls[j].result) case None => None
  }

  /** In memory an agent or a task is found as its last write under that very id text left it. */
  lemma {:induction false} MemShowsLast(m: Mem, calls: seq<Call>, agentId: string, id: IdText)
    ensures Shows(MemRun(m, calls).agents, m.agents, agentId, LastAgent(calls, agentId))
    ensures Shows(MemRun(m, calls).tasks, m.tasks, id, LastTask(calls, id))
  {
    if calls != [] {
      MemShowsLast(m, calls[..|calls| - 1], agentId, id);
    }
  }

  /** The same for bids and results. */
  lemma {:induction false} MemShowsLastAnswer(m: Mem, calls: seq<Call>, id: IdText)
    ensures Shows(MemRun(m, calls).bids, m.bids, id, LastBid(calls, id))
    ensures Shows(MemRun(m, calls).results, m.results, id, LastResult(calls, id))
  {
    if calls != [] {
      MemShowsLastAnswer(m, calls[..|calls| - 1], id);
    }
  }

  function LastTitle(calls: seq<Call>, id: string): Option<string> {
    match Last(calls, PgAgent(id)) case Some(j) => Some(calls[j].agent.title) case None => None
  }

  /** In Postgres an agent is found as its last registration that was not refused left it. */
  lemma {:induction false} PgShowsLastAgent(p: Pg, calls: seq<Call>, id: string)
    ensures Shows(PgRun(p, calls).agents, p.agents, id, LastTitle(calls, id))
  {
    if calls != [] {
      PgShowsLastAgent(p, calls[..|calls| - 1], id);
    }
  }

  lemma PgTaskStep(p: Pg, c: Call, n: nat)
    ensures var after := PgNext(p, c).tasks;
      if Hits(c, PgUpsert(n)) || (Hits(c, PgInsert(n)) && n !in p.tasks)
      then n in after && after[n] == TaskRow(c.task.completed, c.task)
      else (n in after <==> n in p.tasks) && (n in p.tasks ==> after[n] == p.tasks[n])
  {
  }

  function RowOf(c: Call): TaskRow
    requires c.InsertTask? || c.UpsertTask?
  {
    TaskRow(c.task.completed, c.task)
  }

  /** The row its last upsert made; without one that was there before, or that its first insert
      made. */
  function TaskWritten(p: Pg, calls: seq<Call>, n: nat): Option<TaskRow> {
    match Last(calls, PgUpsert(n))
    case Some(j) => Some(RowOf(calls[j]))
    case None =>
      if n in p.tasks then None
      else match First(calls, PgInsert(n)) case Some(j) => Some(RowOf(calls[j])) case None => None
  }

  /** In Postgres a task is found as its last upsert left it; without one, as it was before or as
      its first insert made it. */
  lemma {:induction false} PgShowsTask(p: Pg, calls: seq<Call>, n: nat)
    ensures Shows(PgRun(p, calls).tasks, p.tasks, n, TaskWritten(p, calls, n))
  {
    hide PgNext, TaskError, ParseUuid, AgentError, BidError, ResultError;
    if calls != [] {
      PgShowsTask(p, calls[..|calls| - 1], n);
      PgTaskStep(PgRun(p, calls[..|calls| - 1]), calls[|calls| - 1], n);
    }
  }

  // ----- which writes Postgres refuses, and with which error -----

  /** The caller is to blame for an id that is no UUID and for a cost beyond 63 bits; for a text with
      U+0000 and for a deadline that is no timestamp it is the statement that fails. */
  lemma TaskVerdict(p: Pg, t: Task)
    ensures PgAnswer(p, UpsertTask(t)) == PgAnswer(p, InsertTask(t))
    ensures PgAnswer(p, InsertTask(t)) == Failed(BadRequest) <==> t.id.NoUuid? || t.maxCost >= 0x8000_0000_0000_0000
    ensures PgAnswer(p, InsertTask(t)) == Unit <==>
      && !t.id.NoUuid? && t.maxCost < 0x8000_0000_0000_0000 && '\0' !in t.body
      && (t.deadline < 9_224_318_016_000 || t.deadline >= 0x1_0000_0000_0000_0000 - 210_866_803_200)
    ensures PgAnswer(p, InsertTask(t)) in {Unit, Failed(BadRequest), Failed(Internal)}
    ensures PgAnswer(p, InsertTask(t)) != Unit ==> PgNext(p, InsertTask(t)) == p == PgNext(p, UpsertTask(t))
  {
  }

  /** A bid needs its task and must be its agent's only one, unless its own id is there already: then
      nothing is written. */
  lemma BidVerdict(p: Pg, b: Bid)
    ensures PgAnswer(p, InsertBid(b)) == Failed(BadRequest)
      <==> b.id.NoUuid? || b.taskId.NoUuid? || b.value >= 0x8000_0000_0000_0000
    ensures PgAnswer(p, InsertBid(b)) == Unit <==>
      && !b.id.NoUuid? && !b.taskId.NoUuid? && b.value < 0x8000_0000_0000_0000 && '\0' !in b.body
      && (b.id.uuid in p.bids
          || (b.taskId.uuid in p.tasks
              && forall n :: n in p.bids ==> p.bids[n].task != b.taskId.uuid || p.bids[n].agentHash != b.agentHash))
    ensures PgAnswer(p, InsertBid(b)) in {Unit, Failed(BadRequest), Failed(Internal)}
    ensures PgAnswer(p, InsertBid(b)) != Unit ==> PgNext(p, InsertBid(b)) == p
    ensures PgAnswer(p, InsertBid(b)) == Unit ==> PgNext(p, InsertBid(b)) == p.(bids := PgNext(p, InsertBid(b)).bids)
    ensures PgAnswer(p, InsertBid(b)) == Unit ==>
      var after := PgNext(p, InsertBid(b)).bids;
      after - {b.id.uuid} == p.bids - {b.id.uuid} && b.id.uuid in after
      && after[b.id.uuid] == if b.id.uuid in p.bids then p.bids[b.id.uuid] else BidRow(b.taskId.uuid, b.agentHash, b)
  {
  }

  /** A result needs its task, and an id that no other task's result has. It replaces the one
      the task had. */
  lemma ResultVerdict(p: Pg, r: Outcome)
    ensures PgAnswer(p, InsertResult(r)) == Failed(BadRequest) <==> r.id.NoUuid? || r.taskId.NoUuid?
    ensures PgAnswer(p, InsertResult(r)) == Unit <==>
      && !r.id.NoUuid? && !r.taskId.NoUuid? && '\0' !in r.body && r.taskId.uuid in p.tasks
      && forall t :: t in p.results && p.results[t].id == r.id.uuid ==> t == r.taskId.uuid
    ensures PgAnswer(p, InsertResult(r)) in {Unit, Failed(BadRequest), Failed(Internal)}
    ensures PgAnswer(p, InsertResult(r)) != Unit ==> PgNext(p, InsertResult(r)) == p
    ensures PgAnswer(p, InsertResult(r)) == Unit ==> PgNext(p, InsertResult(r)) == p.(results := PgNext(p, InsertResult(r)).results)
    ensures PgAnswer(p, InsertResult(r)) == Unit ==>
      var after := PgNext(p, InsertResult(r)).results;
      after - {r.taskId.uuid} == p.results - {r.taskId.uuid} && r.taskId.uuid in after
      && after[r.taskId.uuid] == ResultRow(r.id.uuid, r.agentHash, r)
  {
  }
}
