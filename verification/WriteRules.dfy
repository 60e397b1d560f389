/** Who wins when statements write the same row: tasks and registered agents go to the last writer,
    bids to the first, results keep their first agent and take the last block, outbox rows are
    finalized by their own hash. Over any list of statements, with those that fall away for want of
    their task taken out. */
module WriteRules {
  import opened Basics
  import Decimal
  import opened OutboxRows
  import opened Projection
  import opened Convergence

  /** The statement was executed on some row: the task it depends on was there at its point. */
  predicate Counts(ops: seq<Op>, j: nat, db: Db)
    requires j < |ops|
  {
    Ready(ops[j], Run(ops[..j], db).tasks.Keys)
  }

  datatype Target =
    | BidOf(key: (int, seq<byte>)) | ResultOf(task: int) | TaskOf(task: int) | AgentOf(did: string)
    | CreationOf(task: int) | SentUnder(hash: string) | TaskIdFor(hash: string) | AgentIdFor(hash: string)

  predicate Writes(op: Op, target: Target) {
    match target
    case BidOf(key) => op.PutBid? && (AsI64(op.task), AgentBytes(op.agent)) == key
    case ResultOf(t) => op.PutResult? && AsI64(op.task) == t
    case CreationOf(t) => op.PutTask? && AsI64(op.task) == t
    case AgentOf(did) => op.PutAgent? && Did(op.agent) == did
    case SentUnder(hash) => op.Finalize? && op.tx == hash
    case TaskIdFor(hash) => op.Finalize? && op.tx == hash && op.setTask.Some?
    case AgentIdFor(hash) => op.Finalize? && op.tx == hash && op.setAgent.Some?
    case TaskOf(t) => (op.PutTask? || op.CompleteTask?) && AsI64(op.task) == t
  }

  // ----- the first and the last of them -----

  lemma CountsPrefix(ops: seq<Op>, j: nat, db: Db)
    requires j < |ops| - 1
    ensures Counts(ops, j, db) <==> Counts(ops[..|ops| - 1], j, db)
  {
    assert ops[..|ops| - 1][..j] == ops[..j];
  }

  function FirstOf(ops: seq<Op>, db: Db, target: Target): (j: Option<nat>)
    ensures j.Some? ==> j.value < |ops| && Writes(ops[j.value], target) && Counts(ops, j.value, db)
  {
    if ops == [] then None
    else
      var earlier := FirstOf(ops[..|ops| - 1], db, target);
      if earlier.Some? then CountsPrefix(ops, earlier.value, db); earlier
      else if Writes(ops[|ops| - 1], target) && Counts(ops, |ops| - 1, db) then Some(|ops| - 1)
      else None
  }

  function LastOf(ops: seq<Op>, db: Db, target: Target): (j: Option<nat>)
    ensures j.Some? ==> j.value < |ops| && Writes(ops[j.value], target) && Counts(ops, j.value, db)
  {
    if ops == [] then None
    else if Writes(ops[|ops| - 1], target) && Counts(ops, |ops| - 1, db) then Some(|ops| - 1)
    else
      var earlier := LastOf(ops[..|ops| - 1], db, target);
      if earlier.Some? then CountsPrefix(ops, earlier.value, db); earlier
      else None
  }

  /** There is one exactly if there is the other. */
  lemma {:induction false} EndsCount(ops: seq<Op>, db: Db, target: Target)
    ensures FirstOf(ops, db, target).Some? <==> LastOf(ops, db, target).Some?
  {
    if ops != [] {
      EndsCount(ops[..|ops| - 1], db, target);
    }
  }

  /** Every statement that writes the target and counts lies between them. */
  lemma {:induction false} BetweenEnds(ops: seq<Op>, db: Db, target: Target, k: nat)
    requires k < |ops| && Writes(ops[k], target) && Counts(ops, k, db)
    ensures FirstOf(ops, db, target).Some? && LastOf(ops, db, target).Some?
    ensures FirstOf(ops, db, target).value <= k <= LastOf(ops, db, target).value
  {
    var n := |ops| - 1;
    if k < n {
      CountsPrefix(ops, k, db);
      BetweenEnds(ops[..n], db, target, k);
    } else {
      EndsCount(ops, db, target);
    }
  }

  /** Before the first and after the last no statement for the row counts. */
  lemma NothingOutside(ops: seq<Op>, db: Db, target: Target)
    ensures var first, last := FirstOf(ops, db, target), LastOf(ops, db, target);
      forall k :: 0 <= k < |ops| && Writes(ops[k], target) && Counts(ops, k, db) ==>
        first.Some? && last.Some? && first.value <= k <= last.value
  {
    hide *;
    forall k | 0 <= k < |ops| && Writes(ops[k], target) && Counts(ops, k, db)
      ensures FirstOf(ops, db, target).Some? && LastOf(ops, db, target).Some?
      ensures FirstOf(ops, db, target).value <= k <= LastOf(ops, db, target).value
    {
      BetweenEnds(ops, db, target, k);
    }
  }

  lemma EndsOfNothing(db: Db)
    ensures forall target :: FirstOf([], db, target) == None && LastOf([], db, target) == None
  {
  }

  /** One statement more. */
  lemma EndsStep(ops: seq<Op>, db: Db, target: Target)
    requires ops != []
    ensures var n := |ops| - 1;
      var now := Writes(ops[n], target) && Ready(ops[n], Run(ops[..n], db).tasks.Keys);
      && LastOf(ops, db, target) == (if now then Some(n) else LastOf(ops[..n], db, target))
      && (FirstOf(ops, db, target).Some? <==> FirstOf(ops[..n], db, target).Some? || now)
  {
    hide Ready, Run, Writes;
  }

  // ----- one statement -----

  /** Other statements leave a bid alone; its own leaves one alone that is there. */
  lemma BidStep(op: Op, db: Db, key: (int, seq<byte>))
    ensures var after := Apply(op, db);
      if key in db.bids then key in after.bids && after.bids[key] == db.bids[key]
      else if Writes(op, BidOf(key)) && Ready(op, db.tasks.Keys)
      then key in after.bids && after.bids[key] == BidRow(db.next, BidDid(db.agents, op.agent, op.pick), op.block)
      else key !in after.bids
  {
    match op
    case PutBid(task, agent, block, pick) => InsertBidFrame(db, task, agent, block, pick);
    case PutTask(_, _, _) => TaskStepFrame(op, db);
    case CompleteTask(_, _) => TaskStepFrame(op, db);
    case _ =>
  }

  /** Row and stub of a result show the block of its completion; the stub shows its agent. */
  ghost predicate ShowsResult(row: ResultRow, op: Op)
    requires op.PutResult?
  {
    && row.completedAt == op.block && row.output == "" && row.json.block == op.block && row.json.output == ""
    && row.json.agentDid == "did:ainur:" + Decimal.Print(op.agent) && row.json.executor == AgentBytes(op.agent)
  }

  lemma ResultStep(op: Op, db: Db, t: int)
    ensures var after := Apply(op, db);
      if Writes(op, ResultOf(t)) && Ready(op, db.tasks.Keys) then
        t in after.results && ShowsResult(after.results[t], op)
        && after.results[t].agent == if t in db.results then db.results[t].agent else AgentBytes(op.agent)
      else (t in after.results <==> t in db.results) && (t in db.results ==> after.results[t] == db.results[t])
  {
    match op
    case PutBid(task, agent, block, pick) => InsertBidFrame(db, task, agent, block, pick);
    case PutTask(_, _, _) => TaskStepFrame(op, db);
    case CompleteTask(_, _) => TaskStepFrame(op, db);
    case _ =>
  }

  lemma TaskStep(op: Op, db: Db, t: int)
    ensures var after := Apply(op, db);
      if Writes(op, TaskOf(t)) && Ready(op, db.tasks.Keys) then
        t in after.tasks && after.tasks[t].completed == op.CompleteTask?
        && (op.CompleteTask? ==> after.tasks[t].resultHash == Some(op.hash))
        && (t in db.tasks ==> after.tasks[t].id == db.tasks[t].id && after.tasks[t].maxBudget == db.tasks[t].maxBudget)
      else (t in after.tasks <==> t in db.tasks) && (t in db.tasks ==> after.tasks[t] == db.tasks[t])
  {
    match op
    case PutBid(task, agent, block, pick) => InsertBidFrame(db, task, agent, block, pick);
    case PutTask(_, _, _) => TaskStepFrame(op, db);
    case CompleteTask(_, _) => TaskStepFrame(op, db);
    case _ =>
  }

  /** Row and stub of a created task show who asked for it and which task of the chain it is. */
  ghost predicate ShowsCreation(row: TaskRow, op: Op)
    requires op.PutTask?
  {
    && row.requester == "did:ainur:" + op.requester && row.json.requester == "did:ainur:" + op.requester
    && row.description == "chain task " + Decimal.Print(op.task)
    && row.json.description == "chain task " + Decimal.Print(op.task)
    && row.json.budget == op.budget
  }

  lemma CreationStep(op: Op, db: Db, t: int)
    ensures var after := Apply(op, db).tasks;
      if Writes(op, CreationOf(t)) then
        && t in after && ShowsCreation(after[t], op) && after[t].json.id == db.next
        && after[t].maxBudget == (if t in db.tasks then db.tasks[t].maxBudget else AsI64(op.budget % TWO_64))
      else
        && (t in after <==> t in db.tasks)
        && (t in db.tasks ==>
              after[t].(completed := db.tasks[t].completed, resultHash := db.tasks[t].resultHash) == db.tasks[t])
  {
    hide Patch, FinalizeByHash, FillRow, InsertBid, UpsertResult;
    match op
    case PutBid(task, agent, block, pick) => InsertBidFrame(db, task, agent, block, pick);
    case PutResult(_, _, _) => ResultFrame(op, db);
    case _ =>
  }

  // ----- any list of statements -----

  /** A bid that is there stays; otherwise it is made by the first statement for it that counts,
      and as that statement found the agents. */
  lemma {:induction false} FirstBidWins(ops: seq<Op>, db: Db, key: (int, seq<byte>))
    ensures var after, first := Run(ops, db).bids, FirstOf(ops, db, BidOf(key));
      && (key in after <==> key in db.bids || first.Some?)
      && (key in db.bids ==> after[key] == db.bids[key])
      && (key !in db.bids && first.Some? ==>
            var op := ops[first.value];
            after[key].block == op.block
            && after[key].agentDid == BidDid(Run(ops[..first.value], db).agents, op.agent, op.pick))
  {
    hide Apply;
    if ops != [] {
      var n := |ops| - 1;
      FirstBidWins(ops[..n], db, key);
      BidStep(ops[n], Run(ops[..n], db), key);
      var first := FirstOf(ops[..n], db, BidOf(key));
      if first.Some? {
        assert ops[..n][..first.value] == ops[..first.value];
      }
    }
  }

  /** A result keeps the agent it had, or else that of the first statement for it that counts; and
      row and stub show the last one. */
  lemma {:induction false} FirstAgentLastBlock(ops: seq<Op>, db: Db, t: int)
    ensures var after, first, last := Run(ops, db).results, FirstOf(ops, db, ResultOf(t)), LastOf(ops, db, ResultOf(t));
      && (t in after <==> t in db.results || first.Some?)
      && (t in db.results ==> after[t].agent == db.results[t].agent)
      && (t !in db.results && first.Some? ==> after[t].agent == AgentBytes(ops[first.value].agent))
      && (last.Some? ==> t in after && ShowsResult(after[t], ops[last.value]))
      && (last.None? && t in db.results ==> after[t] == db.results[t])
  {
    hide Apply;
    if ops != [] {
      var n := |ops| - 1;
      FirstAgentLastBlock(ops[..n], db, t);
      ResultStep(ops[n], Run(ops[..n], db), t);
    }
  }

  /** A task's status is what the last statement for it that counts made it: completed, with its
      hash, by a completion, and pending by a creation. Its id and its budget never change. */
  lemma {:induction false} LastStatusShows(ops: seq<Op>, db: Db, t: int)
    ensures var after, last := Run(ops, db).tasks, LastOf(ops, db, TaskOf(t));
      && (t in after <==> t in db.tasks || last.Some?)
      && (last.Some? ==> after[t].completed == ops[last.value].CompleteTask?)
      && (last.Some? && ops[last.value].CompleteTask? ==> after[t].resultHash == Some(ops[last.value].hash))
      && (last.None? && t in db.tasks ==> after[t] == db.tasks[t])
      && (t in db.tasks ==> after[t].id == db.tasks[t].id && after[t].maxBudget == db.tasks[t].maxBudget)
  {
    hide Apply;
    if ops != [] {
      var n := |ops| - 1;
      LastStatusShows(ops[..n], db, t);
      TaskStep(ops[n], Run(ops[..n], db), t);
    }
  }

  // ----- agents -----

  /** The first id offered to agents of an account that have none. */
  function FirstFill(ops: seq<Op>, account: Option<string>): Option<int> {
    if ops == [] then None
    else
      var earlier := FirstFill(ops[..|ops| - 1], account);
      var op := ops[|ops| - 1];
      if earlier.Some? then earlier
      else if op.FillAgents? && account == Some(op.owner) then Some(AsI64(op.agent))
      else None
  }

  lemma AgentStep(op: Op, db: Db, did: string)
    ensures var after := Apply(op, db).agents;
      if Writes(op, AgentOf(did)) then did in after && after[did] == AgentRow(did, Some(AsI64(op.agent)), Some(op.owner))
      else
        && (did in after <==> did in db.agents)
        && (did in db.agents ==> after[did] == if op.FillAgents? then FillRow(db.agents[did], op.agent, op.owner) else db.agents[did])
  {
    hide Patch, FinalizeByHash;
    match op
    case PutTask(_, _, _) => TaskStepFrame(op, db);
    case CompleteTask(_, _) => TaskStepFrame(op, db);
    case PutBid(task, agent, block, pick) => InsertBidFrame(db, task, agent, block, pick);
    case _ =>
  }

  /** A task's row and stub show the last creation for it; the budget column keeps the first one. A
      task without a creation among the statements keeps all but its status and hash. */
  lemma {:induction false} LastCreationShows(ops: seq<Op>, db: Db, t: int)
    ensures var after := Run(ops, db).tasks;
      var first, last := FirstOf(ops, db, CreationOf(t)), LastOf(ops, db, CreationOf(t));
      && (t in after <==> t in db.tasks || last.Some?)
      && (last.Some? ==> ShowsCreation(after[t], ops[last.value])
                         && after[t].json.id == Run(ops[..last.value], db).next)
      && (t !in db.tasks && first.Some? && last.Some? ==> after[t].maxBudget == AsI64(ops[first.value].budget % TWO_64))
      && (t in db.tasks ==> after[t].maxBudget == db.tasks[t].maxBudget)
      && (last.None? && t in db.tasks ==>
            after[t].(completed := db.tasks[t].completed, resultHash := db.tasks[t].resultHash) == db.tasks[t])
  {
    hide Apply;
    if ops != [] {
      var n := |ops| - 1;
      LastCreationShows(ops[..n], db, t);
      EndsCount(ops[..n], db, CreationOf(t));
      CreationStep(ops[n], Run(ops[..n], db), t);
      var last := LastOf(ops[..n], db, CreationOf(t));
      if last.Some? {
        assert ops[..n][..last.value] == ops[..last.value];
      }
    }
  }

  /** An agent that is registered shows its last registration, chain id and account. Any other keeps
      its title and its account, and its chain id if it has one; otherwise it gets the first one
      offered to its account. */
  lemma {:induction false} LastRegistrationShows(ops: seq<Op>, db: Db, did: string)
    ensures var after, last := Run(ops, db).agents, LastOf(ops, db, AgentOf(did));
      && (did in after <==> did in db.agents || last.Some?)
      && (last.Some? ==> after[did] == AgentRow(did, Some(AsI64(ops[last.value].agent)), Some(ops[last.value].owner)))
      && (last.None? && did in db.agents ==>
            var row := db.agents[did];
            after[did] == row.(chainId := if row.chainId.Some? then row.chainId else FirstFill(ops, row.account)))
  {
    hide Apply;
    if ops != [] {
      var n := |ops| - 1;
      LastRegistrationShows(ops[..n], db, did);
      AgentStep(ops[n], Run(ops[..n], db), did);
    }
  }

  // ----- outbox rows -----

  lemma RowStep(op: Op, db: Db, id: string)
    requires id in db.outbox
    ensures id in Apply(op, db).outbox
    ensures var before, after := db.outbox[id], Apply(op, db).outbox[id];
      if op.Finalize? && before.txHash == Some(op.tx) && Ready(op, db.tasks.Keys)
      then after == FinalizeRow(before, OptI64(op.setTask), OptI64(op.setAgent))
      else after.(payload := before.payload) == before
  {
    hide Patch, UpsertTask, InsertBid, UpsertResult;
    match op
    case PatchPending(_, key, n) => PatchClearsPlaceholders(db.outbox, key, AsI64(n));
    case PutTask(_, _, _) => assert Apply(op, db).outbox == db.outbox by { TaskStepFrame(op, db); }
    case CompleteTask(_, _) => assert Apply(op, db).outbox == db.outbox by { TaskStepFrame(op, db); }
    case PutBid(task, agent, block, pick) => InsertBidFrame(db, task, agent, block, pick);
    case PutResult(_, _, _) => ResultFrame(op, db);
    case _ =>
  }

  lemma ResultFrame(op: Op, db: Db)
    requires op.PutResult?
    ensures Apply(op, db) == db.(results := Apply(op, db).results, next := Apply(op, db).next)
  {
  }

  /** Finalized if some statement names the hash, with the last ids that such statements bring. */
  ghost predicate FinalizedAs(ops: seq<Op>, db: Db, hash: string, before: Row, after: Row) {
    var task, agent := LastOf(ops, db, TaskIdFor(hash)), LastOf(ops, db, AgentIdFor(hash));
    && after.status == (if FirstOf(ops, db, SentUnder(hash)).Some? then Finalized else before.status)
    && after.chainTask == (if task.Some? then OptI64(ops[task.value].setTask) else before.chainTask)
    && after.chainAgent == (if agent.Some? then OptI64(ops[agent.value].setAgent) else before.chainAgent)
    && after.(payload := before.payload, status := before.status, chainTask := before.chainTask,
              chainAgent := before.chainAgent) == before
  }

  /** A row becomes finalized exactly by an event of an extrinsic with the row's own hash, and takes
      the last ids that such events bring; otherwise only its payload may change. */
  lemma {:induction false} FinalizedByHash(ops: seq<Op>, db: Db, id: string, hash: string)
    requires id in db.outbox && db.outbox[id].txHash == Some(hash)
    ensures id in Run(ops, db).outbox
    ensures FinalizedAs(ops, db, hash, db.outbox[id], Run(ops, db).outbox[id])
  {
    hide Apply, LastOf, FirstOf, Ready;
    if ops == [] {
      EndsOfNothing(db);
    } else {
      var n := |ops| - 1;
      FinalizedByHash(ops[..n], db, id, hash);
      EndsStep(ops, db, SentUnder(hash));
      EndsStep(ops, db, TaskIdFor(hash));
      EndsStep(ops, db, AgentIdFor(hash));
      RowStep(ops[n], Run(ops[..n], db), id);
    }
  }

  /** A row without a hash is out of reach of finalizations. */
  lemma {:induction false} UnsentStays(ops: seq<Op>, db: Db, id: string)
    requires id in db.outbox && db.outbox[id].txHash.None?
    ensures id in Run(ops, db).outbox && Run(ops, db).outbox[id].(payload := db.outbox[id].payload) == db.outbox[id]
  {
    hide Apply;
    if ops != [] {
      UnsentStays(ops[..|ops| - 1], db, id);
      RowStep(ops[|ops| - 1], Run(ops[..|ops| - 1], db), id);
    }
  }
}
