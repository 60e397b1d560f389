/** The replay worker as it is written: tables updated in place, one block at a time, one event
    at a time, one statement at a time. Each piece is tied to the statement lists of Projection. */
module ReplayWorker {
  import opened Basics
  import opened OutboxRows
  import opened Projection
  import opened Convergence
  import ReplayMachine

  class ChainStore {
    var agents: map<string, AgentRow>
    var tasks: map<int, TaskRow>
    var bids: map<(int, seq<byte>), BidRow>
    var results: map<int, ResultRow>
    var outbox: Table
    var log: map<(nat, nat), LogRow>
    var next: nat
    /** The single `chain_cursors` row: a BIGINT and an INTEGER, both signed. */
    var cursorRow: Option<(int, int)>

    ghost function Snapshot(): Db
      reads this
    {
      Db(agents, tasks, bids, results, outbox, log, next)
    }

    ghost predicate Valid()
      reads this
    {
      cursorRow.Some? ==>
        -TWO_63 <= cursorRow.value.0 < TWO_63 && -0x8000_0000 <= cursorRow.value.1 < 0x8000_0000
    }

    ghost function StoredCursor(): Option<(u64, u32)>
      reads this
      requires Valid()
    {
      if cursorRow.Some? then Some((AsU64(cursorRow.value.0), AsU32(cursorRow.value.1))) else None
    }

    constructor ()
      ensures Valid() && StoredCursor() == None
      ensures Snapshot() == Db(map[], map[], map[], map[], map[], map[], 0)
    {
      agents, tasks, bids, results := map[], map[], map[], map[];
      outbox, log, next, cursorRow := map[], map[], 0, None;
    }

    // ----- the cursor -----

    /** Saving a cursor and loading it returns the same pair, whatever its size. */
    method UpdateChainCursor(block: u64, index: u32)
      requires Valid()
      modifies this`cursorRow
      ensures Valid() && StoredCursor() == Some((block, index))
    {
      cursorRow := Some((AsI64(block), AsI32(index)));
    }

    method LastChainCursor() returns (cursor: Option<(u64, u32)>)
      requires Valid()
      ensures cursor == StoredCursor()
    {
      cursor := None;
      if cursorRow.Some? {
        cursor := Some((AsU64(cursorRow.value.0), AsU32(cursorRow.value.1)));
      }
    }

    // ----- single statements -----

    method UpsertAgent(agent: u64, owner: string)
      modifies this`agents
      ensures Snapshot() == Apply(PutAgent(agent, owner), old(Snapshot()))
    {
      var did := Did(agent);
      agents := agents[did := AgentRow(did, Some(AsI64(agent)), Some(owner))];
    }

    method BackfillAgents(agent: u64, owner: string)
      modifies this`agents
      ensures Snapshot() == Apply(FillAgents(agent, owner), old(Snapshot()))
    {
      agents := map d | d in agents :: FillRow(agents[d], agent, owner);
    }

    method UpsertStub(task: u64, requester: string, budget: nat)
      modifies this`tasks, this`next
      ensures Snapshot() == Apply(PutTask(task, requester, budget), old(Snapshot()))
    {
      var t := AsI64(task);
      var json := TaskJson(next, RequesterDid(requester), Description(task), budget);
      var row := TaskRow(next, RequesterDid(requester), Description(task), AsI64(budget % TWO_64), false, None, json);
      if t in tasks {
        row := tasks[t].(requester := row.requester, description := row.description, completed := false, json := json);
      }
      tasks := tasks[t := row];
      next := next + 1;
    }

    method InsertStubBid(task: u64, agent: u64, block: nat, pick: Pick)
      requires AsI64(task) in tasks
      modifies this`bids, this`next
      ensures Snapshot() == Apply(PutBid(task, agent, block, pick), old(Snapshot()))
    {
      var did := BidDid(agents, agent, pick);
      var key := (AsI64(task), AgentBytes(agent));
      if key !in bids {
        bids := bids[key := BidRow(next, did, block)];
      }
      next := next + 1;
    }

    method UpsertStubResult(task: u64, agent: u64, block: nat)
      requires AsI64(task) in tasks
      modifies this`results, this`next
      ensures Snapshot() == Apply(PutResult(task, agent, block), old(Snapshot()))
    {
      var t := AsI64(task);
      var json := ResultJson(next, Did(agent), AgentBytes(agent), "", block);
      var row := ResultRow(next, AgentBytes(agent), "", block, json);
      if t in results {
        row := results[t].(output := "", completedAt := block, json := json);
      }
      results := results[t := row];
      next := next + 1;
    }

    method MarkCompleted(task: u64, hash: string)
      modifies this`tasks
      ensures Snapshot() == Apply(CompleteTask(task, hash), old(Snapshot()))
    {
      var t := AsI64(task);
      if t in tasks {
        tasks := tasks[t := Completed(tasks[t], hash)];
      }
    }

    /** `need` is the task whose row the caller has just looked up, if it depends on one. */
    method FinalizeOutbox(ghost need: Option<u64>, tx: string, task: Option<u64>, agent: Option<u64>)
      requires need.Some? ==> AsI64(need.value) in tasks
      modifies this`outbox
      ensures Snapshot() == Apply(Finalize(need, tx, task, agent), old(Snapshot()))
    {
      outbox := FinalizeByHash(outbox, tx, OptI64(task), OptI64(agent));
    }

    method PatchOutbox(ghost need: Option<u64>, key: IdKey, id: u64)
      requires need.Some? ==> AsI64(need.value) in tasks
      modifies this`outbox
      ensures Snapshot() == Apply(PatchPending(need, key, id), old(Snapshot()))
    {
      outbox := Patch(outbox, key, AsI64(id));
    }

    method RecordChainEvent(block: nat, index: nat, row: LogRow)
      modifies this`log
      ensures Snapshot() == Apply(WriteLog((block, index), row), old(Snapshot()))
    {
      if (block, index) !in log {
        log := log[(block, index) := row];
      }
    }

    // ----- one event -----

    method ProjectAgentRegistered(e: Event, block: nat, pick: Pick)
      requires e.fields.AgentRegistered? && e.pallet == "AgentRegistry" && e.variant == "AgentRegistered"
      modifies this`agents, this`outbox
      ensures Snapshot() == Run(ProjectOps(e, block, pick), old(Snapshot()))
    {
      var a, owner := e.fields.agent, e.fields.owner;
      ghost var ops, start := [PutAgent(a, owner)], Snapshot();
      RunAppend([], PutAgent(a, owner), start);
      UpsertAgent(a, owner);
      if e.correlation.Some? {
        FinalizeOutbox(None, e.correlation.value, None, Some(a));
        RunAppend(ops, Finalize(None, e.correlation.value, None, Some(a)), start);
        ops := ops + [Finalize(None, e.correlation.value, None, Some(a))];
      }
      BackfillAgents(a, owner);
      RunAppend(ops, FillAgents(a, owner), start);
    }

    method ProjectTaskCreated(e: Event, block: nat, pick: Pick)
      requires e.fields.TaskCreated? && e.pallet == "TaskMarket" && e.variant == "TaskCreated"
      modifies this`tasks, this`outbox, this`next
      ensures Snapshot() == Run(ProjectOps(e, block, pick), old(Snapshot()))
    {
      var t, put := e.fields.task, PutTask(e.fields.task, e.fields.requester, e.fields.budget);
      ghost var ops, start := [put], Snapshot();
      RunAppend([], put, start);
      UpsertStub(t, e.fields.requester, e.fields.budget);
      if e.correlation.Some? {
        FinalizeOutbox(None, e.correlation.value, Some(t), None);
        RunAppend(ops, Finalize(None, e.correlation.value, Some(t), None), start);
        ops := ops + [Finalize(None, e.correlation.value, Some(t), None)];
      }
      PatchOutbox(None, TaskKey, t);
      RunAppend(ops, PatchPending(None, TaskKey, t), start);
    }

    method ProjectBidSubmitted(e: Event, block: nat, pick: Pick)
      requires e.fields.BidSubmitted? && e.pallet == "TaskMarket" && e.variant == "BidSubmitted"
      modifies this`bids, this`outbox, this`next
      ensures Snapshot() == Run(ProjectOps(e, block, pick), old(Snapshot()))
    {
      var t, a := e.fields.task, e.fields.agent;
      ghost var start := Snapshot();
      if AsI64(t) in tasks {
        ghost var ops := [PutBid(t, a, block, pick)];
        RunAppend([], PutBid(t, a, block, pick), start);
        InsertStubBid(t, a, block, pick);
        if e.correlation.Some? {
          FinalizeOutbox(Some(t), e.correlation.value, Some(t), Some(a));
          RunAppend(ops, Finalize(Some(t), e.correlation.value, Some(t), Some(a)), start);
        }
      } else {
        NothingReady(ProjectOps(e, block, pick), AsI64(t), start);
      }
    }

    /** `patch_pending_with_ids` for a completed task. */
    method PatchBoth(task: u64, agent: u64)
      requires AsI64(task) in tasks
      modifies this`outbox
      ensures Snapshot()
           == Run([PatchPending(Some(task), TaskKey, task), PatchPending(Some(task), AgentKey, agent)], old(Snapshot()))
    {
      ghost var start := Snapshot();
      var first, second := PatchPending(Some(task), TaskKey, task), PatchPending(Some(task), AgentKey, agent);
      PatchOutbox(Some(task), TaskKey, task);
      RunAppend([], first, start);
      PatchOutbox(Some(task), AgentKey, agent);
      RunAppend([first], second, start);
      assert [first] + [second] == [first, second];
    }

    method RecordResult(task: u64, agent: u64, block: nat, hash: string)
      requires AsI64(task) in tasks
      modifies this`tasks, this`results, this`next
      ensures AsI64(task) in tasks
      ensures Snapshot() == Run([PutResult(task, agent, block), CompleteTask(task, hash)], old(Snapshot()))
    {
      ghost var start := Snapshot();
      UpsertStubResult(task, agent, block);
      RunAppend([], PutResult(task, agent, block), start);
      MarkCompleted(task, hash);
      RunAppend([PutResult(task, agent, block)], CompleteTask(task, hash), start);
      assert [PutResult(task, agent, block)] + [CompleteTask(task, hash)]
          == [PutResult(task, agent, block), CompleteTask(task, hash)];
    }

    /** The outbox update an event's extrinsic asks for, if the event has one. */
    method FinalizeEvent(e: Event, task: u64, agent: u64)
      requires AsI64(task) in tasks
      modifies this`outbox
      ensures Snapshot() == Run(FinalizeOps(e, Some(task), Some(task), Some(agent)), old(Snapshot()))
    {
      ghost var start := Snapshot();
      if e.correlation.Some? {
        FinalizeOutbox(Some(task), e.correlation.value, Some(task), Some(agent));
        RunAppend([], Finalize(Some(task), e.correlation.value, Some(task), Some(agent)), start);
      }
    }

    method ProjectTaskCompleted(e: Event, block: nat, pick: Pick)
      requires e.fields.TaskCompleted? && e.pallet == "TaskMarket" && e.variant == "TaskCompleted"
      modifies this`tasks, this`results, this`outbox, this`next
      ensures Snapshot() == Run(ProjectOps(e, block, pick), old(Snapshot()))
    {
      var t, a, hash := e.fields.task, e.fields.agent, e.fields.resultHash;
      ghost var start := Snapshot();
      if AsI64(t) in tasks {
        RecordResult(t, a, block, hash);
        FinalizeEvent(e, t, a);
        PatchBoth(t, a);
        ghost var result := [PutResult(t, a, block), CompleteTask(t, hash)];
        ghost var finalize := FinalizeOps(e, Some(t), Some(t), Some(a));
        ghost var patch := [PatchPending(Some(t), TaskKey, t), PatchPending(Some(t), AgentKey, a)];
        RunConcat(result, finalize, start);
        RunConcat(result + finalize, patch, start);
        assert ProjectOps(e, block, pick) == result + finalize + patch;
      } else {
        NothingReady(ProjectOps(e, block, pick), AsI64(t), start);
      }
    }

    method ProjectEvent(e: Event, block: nat, pick: Pick)
      modifies this`agents, this`tasks, this`bids, this`results, this`outbox, this`next
      ensures Snapshot() == Run(ProjectOps(e, block, pick), old(Snapshot()))
    {
      if e.pallet == "AgentRegistry" && e.variant == "AgentRegistered" && e.fields.AgentRegistered? {
        ProjectAgentRegistered(e, block, pick);
      } else if e.pallet == "TaskMarket" && e.variant == "TaskCreated" && e.fields.TaskCreated? {
        ProjectTaskCreated(e, block, pick);
      } else if e.pallet == "TaskMarket" && e.variant == "BidSubmitted" && e.fields.BidSubmitted? {
        ProjectBidSubmitted(e, block, pick);
      } else if e.pallet == "TaskMarket" && e.variant == "TaskCompleted" && e.fields.TaskCompleted? {
        ProjectTaskCompleted(e, block, pick);
      } else {
        assert ProjectOps(e, block, pick) == [];
      }
    }

    /** Project, then log. A failed log insert ends the worker. */
    method IngestEvent(e: Event, block: nat, index: nat, pick: Pick, fails: bool)
      modifies this`agents, this`tasks, this`bids, this`results, this`outbox, this`next, this`log
      ensures Snapshot() == Run(if fails then ProjectOps(e, block, pick) else EventOps(e, block, index, pick), old(Snapshot()))
    {
      ghost var start := Snapshot();
      ProjectEvent(e, block, pick);
      if !fails {
        var row := LogRow(e.pallet, e.variant, e.payload, e.correlation);
        RecordChainEvent(block, index, row);
        RunAppend(ProjectOps(e, block, pick), WriteLog((block, index), row), start);
      }
    }

    // ----- one block -----

    /** Ingest one block. The log insert of the event numbered `failsAt`, if there is one, reports
        an error: the worker then ends with the cursor where it was, part of the statements
        done. Otherwise all of them are done and the cursor stands at the last wanted event. */
    method IngestBlock(block: u32, events: seq<Event>, last: (u64, u32), pick: Pick, failsAt: Option<nat>)
      returns (r: Result<(u64, u32), string>)
      requires Valid() && |events| <= TWO_32
      modifies this
      ensures Valid()
      ensures r.Ok? ==>
        var next := NextCursor(events, block, last, |events|);
        && Snapshot() == Run(BlockOps(events, block, last, pick, |events|), old(Snapshot()))
        && r.value == next
        && StoredCursor() == if ReplayMachine.Later(next, last) then Some(r.value) else old(StoredCursor())
      ensures r.Err? ==>
        && StoredCursor() == old(StoredCursor())
        && exists k: nat :: k <= |BlockOps(events, block, last, pick, |events|)|
             && Snapshot() == Run(BlockOps(events, block, last, pick, |events|)[..k], old(Snapshot()))
    {
      hide Apply, ProjectOps;
      var maxCursor: (u64, u32) := last;
      var i := 0;
      while i < |events|
        invariant i <= |events| && cursorRow == old(cursorRow)
        invariant Snapshot() == Run(BlockOps(events, block, last, pick, i), old(Snapshot()))
        invariant maxCursor == NextCursor(events, block, last, i)
      {
        var e := events[i];
        i := i + 1;
        NextEventOps(events, block, last, pick, i);
        if !Beyond(block, i - 1, last) {
          continue;
        }
        if !IsSupported(e.pallet, e.variant) {
          continue;
        }
        ghost var front := BlockOps(events, block, last, pick, i - 1);
        IngestEvent(e, block, i - 1, pick, failsAt == Some(i - 1));
        if failsAt == Some(i - 1) {
          RunConcat(front, ProjectOps(e, block, pick), old(Snapshot()));
          CutShort(events, block, last, pick, i);
          return Err("failed to record chain event");
        }
        RunConcat(front, EventOps(e, block, i - 1, pick), old(Snapshot()));
        maxCursor := (block, i - 1);
      }
      if maxCursor.0 > last.0 || (maxCursor.0 == last.0 && maxCursor.1 > last.1) {
        UpdateChainCursor(maxCursor.0, maxCursor.1);
      }
      return Ok(maxCursor);
    }
  }

  lemma NextEventOps(events: seq<Event>, block: nat, cursor: Cursor, pick: Pick, i: nat)
    requires 0 < i <= |events|
    ensures BlockOps(events, block, cursor, pick, i)
         == if Wanted(events[i - 1], block, i - 1, cursor)
            then BlockOps(events, block, cursor, pick, i - 1) + EventOps(events[i - 1], block, i - 1, pick)
            else BlockOps(events, block, cursor, pick, i - 1)
  {
  }

  /** Stopping before a log insert leaves a prefix of the block's statements. */
  lemma CutShort(events: seq<Event>, block: nat, cursor: Cursor, pick: Pick, i: nat)
    requires 0 < i <= |events| && Wanted(events[i - 1], block, i - 1, cursor)
    ensures var ops := BlockOps(events, block, cursor, pick, |events|);
      var done := BlockOps(events, block, cursor, pick, i - 1) + ProjectOps(events[i - 1], block, pick);
      |done| <= |ops| && ops[..|done|] == done
  {
    BlockOpsGrow(events, block, cursor, pick, i, |events|);
    var done := BlockOps(events, block, cursor, pick, i - 1) + ProjectOps(events[i - 1], block, pick);
    assert done <= BlockOps(events, block, cursor, pick, i);
  }

  lemma RunAppend(ops: seq<Op>, op: Op, db: Db)
    ensures Run(ops + [op], db) == Apply(op, Run(ops, db))
    ensures ops == [] ==> Run([op], db) == Apply(op, db)
  {
    assert (ops + [op])[..|ops|] == ops;
    assert ops == [] ==> ops + [op] == [op];
  }

  /** Without its task an event's projections all fall away. */
  lemma {:induction false} NothingReady(ops: seq<Op>, t: int, db: Db)
    requires t !in db.tasks && forall j :: 0 <= j < |ops| ==> Need(ops[j]) == Some(t)
    ensures Run(ops, db) == db
  {
    if ops != [] {
      NothingReady(ops[..|ops| - 1], t, db);
    }
  }

  lemma {:induction false} BlockOpsGrow(events: seq<Event>, block: nat, cursor: Cursor, pick: Pick, i: nat, n: nat)
    requires i <= n <= |events|
    ensures BlockOps(events, block, cursor, pick, i) <= BlockOps(events, block, cursor, pick, n)
    decreases n
  {
    if i < n {
      BlockOpsGrow(events, block, cursor, pick, i, n - 1);
    }
  }

  // ----- what repeated projection does to a task stub -----

  function Creations(ops: seq<Op>, t: int): nat {
    if ops == [] then 0
    else Creations(ops[..|ops| - 1], t) + if CreatesTask(ops[|ops| - 1], t) then 1 else 0
  }

  /** The stub in `stored_json` carries the id of its own row exactly as long as the creation
      was executed once: every further execution generates a new id for the stub alone. */
  lemma {:induction false} StubIdDrifts(ops: seq<Op>, db: Db, t: int)
    requires t !in db.tasks
    ensures t in Run(ops, db).tasks <==> Creations(ops, t) > 0
    ensures t in Run(ops, db).tasks ==>
      var row := Run(ops, db).tasks[t];
      row.id <= row.json.id < Run(ops, db).next && (row.json.id == row.id <==> Creations(ops, t) == 1)
  {
    if ops != [] {
      StubIdDrifts(ops[..|ops| - 1], db, t);
      StubStep(ops[|ops| - 1], Run(ops[..|ops| - 1], db), t);
    }
  }

  lemma StubStep(op: Op, db: Db, t: int)
    ensures Apply(op, db).next >= db.next
    ensures CreatesTask(op, t) ==>
      t in Apply(op, db).tasks && Apply(op, db).next == db.next + 1 && Apply(op, db).tasks[t].json.id == db.next
      && Apply(op, db).tasks[t].id == if t in db.tasks then db.tasks[t].id else db.next
    ensures !CreatesTask(op, t) ==>
      (t in Apply(op, db).tasks <==> t in db.tasks)
      && (t in db.tasks ==> Apply(op, db).tasks[t].id == db.tasks[t].id && Apply(op, db).tasks[t].json == db.tasks[t].json)
  {
    match op
    case PutTask(_, _, _) => TaskStepFrame(op, db);
    case CompleteTask(_, _) => TaskStepFrame(op, db);
    case PutBid(task, agent, block, pick) => InsertBidFrame(db, task, agent, block, pick);
    case _ =>
  }

  /** A completed task goes back to pending exactly when its creation is projected again, so a
      block that creates and completes a task regresses its status while it is replayed. */
  lemma StatusRegressesIff(op: Op, db: Db, t: int)
    requires t in db.tasks && db.tasks[t].completed
    ensures t in Apply(op, db).tasks
    ensures !Apply(op, db).tasks[t].completed <==> CreatesTask(op, t)
  {
    StubStep(op, db, t);
    if op.PutTask? {
      TaskStepFrame(op, db);
    }
  }
}
