/** What the projection of one event does to the tables, for each of the four kinds and for all
    others. The tables are described directly; the statements are only what gets there. */
module EventEffects {
  import opened Basics
  import opened Json
  import Decimal
  import opened OutboxRows
  import opened Projection
  import opened Convergence
  import opened ReplayWorker

  /** Rows with the event's extrinsic hash are finalized and take the ids; all others stay. */
  ghost predicate Finalizes(rows: Table, after: Table, hash: Option<string>, task: Option<int>, agent: Option<int>) {
    && after.Keys == rows.Keys
    && forall id :: id in rows ==>
         after[id] ==
           if hash.Some? && rows[id].txHash == hash
           then rows[id].(status := Finalized,
                          chainTask := if task.Some? then task else rows[id].chainTask,
                          chainAgent := if agent.Some? then agent else rows[id].chainAgent)
           else rows[id]
  }

  /** A pending row whose payload shows zero under the key shows the id instead, and is otherwise the
      same; all others stay, and all of them if some pending payload cannot be cast. */
  ghost predicate Patches(rows: Table, after: Table, k: IdKey, key: string, v: int) {
    && after.Keys == rows.Keys
    && forall id :: id in rows ==>
         if Poisoned(rows, k) || !Placeholder(rows[id], k) then after[id] == rows[id]
         else
           && after[id].(payload := rows[id].payload) == rows[id]
           && SameBut(rows[id].payload, after[id].payload, key)
           && Get(after[id].payload.value, key) == Some(Num(v))
  }

  lemma FinalizeEffect(rows: Table, hash: string, task: Option<int>, agent: Option<int>)
    ensures Finalizes(rows, FinalizeByHash(rows, hash, task, agent), Some(hash), task, agent)
  {
  }

  lemma FinalizesNothing(rows: Table, task: Option<int>, agent: Option<int>)
    ensures Finalizes(rows, rows, None, task, agent)
  {
  }

  lemma PatchStatement(db: Db, need: u64, k: IdKey, id: u64)
    requires AsI64(need) in db.tasks
    ensures Apply(PatchPending(Some(need), k, id), db) == db.(outbox := Patch(db.outbox, k, AsI64(id)))
  {
  }

  lemma PatchEffect(rows: Table, k: IdKey, v: int)
    requires -TWO_63 <= v < TWO_63
    ensures Patches(rows, Patch(rows, k, v), k, if k.TaskKey? then "task_id" else "agent_id", v)
  {
    if !Poisoned(rows, k) {
      forall id | id in rows && Placeholder(rows[id], k)
        ensures SameBut(rows[id].payload, PatchRow(rows[id], k, v).payload, if k.TaskKey? then "task_id" else "agent_id")
      {
        PatchRowFrame(rows[id], k, v);
      }
    }
  }

  /** The statement an event's extrinsic asks for, after others. */
  lemma FinalizeOpsEffect(e: Event, need: Option<u64>, task: Option<u64>, agent: Option<u64>, db: Db)
    requires need.Some? ==> AsI64(need.value) in db.tasks
    ensures var after := Run(FinalizeOps(e, need, task, agent), db);
      && after == db.(outbox := after.outbox)
      && Finalizes(db.outbox, after.outbox, e.correlation, OptI64(task), OptI64(agent))
  {
    hide FinalizeByHash, Finalizes, Patch, FillRow, UpsertTask, InsertBid, UpsertResult;
    FinalizesNothing(db.outbox, OptI64(task), OptI64(agent));
    if e.correlation.Some? {
      RunAppend([], Finalize(need, e.correlation.value, task, agent), db);
      FinalizeEffect(db.outbox, e.correlation.value, OptI64(task), OptI64(agent));
    }
  }

  // ----- a registration -----

  lemma RegistrationRuns(e: Event, db: Db, block: nat, pick: Pick)
    requires e.pallet == "AgentRegistry" && e.variant == "AgentRegistered" && e.fields.AgentRegistered?
    ensures var a, owner := e.fields.agent, e.fields.owner;
      Run(ProjectOps(e, block, pick), db)
      == Apply(FillAgents(a, owner), Run(FinalizeOps(e, None, None, Some(a)), Apply(PutAgent(a, owner), db)))
  {
    hide Apply, FinalizeOps;
    var a, owner := e.fields.agent, e.fields.owner;
    var finalize := FinalizeOps(e, None, None, Some(a));
    RunAppend([], PutAgent(a, owner), db);
    RunConcat([PutAgent(a, owner)], finalize, db);
    RunAppend([PutAgent(a, owner)] + finalize, FillAgents(a, owner), db);
  }

  /** The agent is there under its did with id and account, agents of the account without an id get
      this one, and the outbox row that asked for the registration is finalized with the id. */
  lemma RegistrationEffect(e: Event, db: Db, block: nat, pick: Pick)
    requires e.pallet == "AgentRegistry" && e.variant == "AgentRegistered" && e.fields.AgentRegistered?
    ensures var after := Run(ProjectOps(e, block, pick), db);
      var id, owner := AsI64(e.fields.agent), e.fields.owner;
      var did := "did:ainur:" + Decimal.Print(e.fields.agent);
      && after == db.(agents := after.agents, outbox := after.outbox)
      && Finalizes(db.outbox, after.outbox, e.correlation, None, Some(id))
      && after.agents.Keys == db.agents.Keys + {did}
      && after.agents[did] == AgentRow(did, Some(id), Some(owner))
      && forall d :: d in db.agents && d != did ==>
           after.agents[d] == if db.agents[d].account == Some(owner) && db.agents[d].chainId.None?
                              then db.agents[d].(chainId := Some(id)) else db.agents[d]
  {
    hide FinalizeOps, Finalizes, ProjectOps, FinalizeByHash, Patch;
    var a, owner := e.fields.agent, e.fields.owner;
    RegistrationRuns(e, db, block, pick);
    FinalizeOpsEffect(e, None, None, Some(a), Apply(PutAgent(a, owner), db));
  }

  // ----- a creation -----

  lemma CreationRuns(e: Event, db: Db, block: nat, pick: Pick)
    requires e.pallet == "TaskMarket" && e.variant == "TaskCreated" && e.fields.TaskCreated?
    ensures var t, put := e.fields.task, PutTask(e.fields.task, e.fields.requester, e.fields.budget);
      Run(ProjectOps(e, block, pick), db)
      == Apply(PatchPending(None, TaskKey, t), Run(FinalizeOps(e, None, Some(t), None), Apply(put, db)))
  {
    hide Apply, FinalizeOps;
    var t, put := e.fields.task, PutTask(e.fields.task, e.fields.requester, e.fields.budget);
    var finalize := FinalizeOps(e, None, Some(t), None);
    RunAppend([], put, db);
    RunConcat([put], finalize, db);
    RunAppend([put] + finalize, PatchPending(None, TaskKey, t), db);
  }

  lemma StubEffect(db: Db, task: u64, requester: string, budget: nat)
    ensures var after := Apply(PutTask(task, requester, budget), db);
      var t, who, what := AsI64(task), "did:ainur:" + requester, "chain task " + Decimal.Print(task);
      && after == db.(tasks := after.tasks, next := db.next + 1)
      && after.tasks.Keys == db.tasks.Keys + {t}
      && (forall u :: u in db.tasks && u != t ==> after.tasks[u] == db.tasks[u])
      && after.tasks[t] == TaskRow(
           if t in db.tasks then db.tasks[t].id else db.next, who, what,
           if t in db.tasks then db.tasks[t].maxBudget else AsI64(budget % TWO_64), false,
           if t in db.tasks then db.tasks[t].resultHash else None,
           TaskJson(db.next, who, what, budget))
  {
  }

  /** The task is there and pending, with requester and description in row and stub; an inserted row
      has the budget, a row already there keeps id, budget and hash. The outbox row that asked for
      the creation is finalized with the id, and then pending placeholders take it. */
  lemma CreationEffect(e: Event, db: Db, block: nat, pick: Pick)
    requires e.pallet == "TaskMarket" && e.variant == "TaskCreated" && e.fields.TaskCreated?
    ensures var after := Run(ProjectOps(e, block, pick), db);
      var t, budget := AsI64(e.fields.task), e.fields.budget;
      var who, what := "did:ainur:" + e.fields.requester, "chain task " + Decimal.Print(e.fields.task);
      && after == db.(tasks := after.tasks, outbox := after.outbox, next := db.next + 1)
      && after.tasks.Keys == db.tasks.Keys + {t}
      && (forall u :: u in db.tasks && u != t ==> after.tasks[u] == db.tasks[u])
      && after.tasks[t] == TaskRow(
           if t in db.tasks then db.tasks[t].id else db.next, who, what,
           if t in db.tasks then db.tasks[t].maxBudget else AsI64(budget % TWO_64), false,
           if t in db.tasks then db.tasks[t].resultHash else None,
           TaskJson(db.next, who, what, budget))
    ensures var after := Run(ProjectOps(e, block, pick), db).outbox;
      exists mid :: Finalizes(db.outbox, mid, e.correlation, Some(AsI64(e.fields.task)), None)
        && Patches(mid, after, TaskKey, "task_id", AsI64(e.fields.task))
  {
    hide FinalizeOps, Finalizes, Patches, ProjectOps, FinalizeByHash, Patch, UpsertTask;
    var t := e.fields.task;
    CreationRuns(e, db, block, pick);
    StubEffect(db, t, e.fields.requester, e.fields.budget);
    var put := Apply(PutTask(t, e.fields.requester, e.fields.budget), db);
    FinalizeOpsEffect(e, None, Some(t), None, put);
    PatchEffect(Run(FinalizeOps(e, None, Some(t), None), put).outbox, TaskKey, AsI64(t));
  }

  // ----- a bid -----

  /** Without its task a bid leaves everything as it is. With it, the first bid of the agent on the
      task is recorded under the did of the agent, and the outbox row that asked for the bid is
      finalized with both ids. */
  lemma BidEffect(e: Event, db: Db, block: nat, pick: Pick)
    requires e.pallet == "TaskMarket" && e.variant == "BidSubmitted" && e.fields.BidSubmitted?
    ensures var after := Run(ProjectOps(e, block, pick), db);
      var t, a := AsI64(e.fields.task), AsI64(e.fields.agent);
      var key := (t, AgentBytes(e.fields.agent));
      var known := set d | d in db.agents && db.agents[d].chainId == Some(a);
      var did := if known == {} then "did:ainur:" + Decimal.Print(e.fields.agent) else pick(known);
      if t !in db.tasks then after == db
      else
        && after == db.(bids := after.bids, outbox := after.outbox, next := db.next + 1)
        && after.bids == (if key in db.bids then db.bids else db.bids[key := BidRow(db.next, did, block)])
        && Finalizes(db.outbox, after.outbox, e.correlation, Some(t), Some(a))
  {
    hide FinalizeOps, Finalizes, FinalizeByHash, Patch, AgentBytes;
    var t, a := e.fields.task, e.fields.agent;
    if AsI64(t) in db.tasks {
      var put := PutBid(t, a, block, pick);
      RunAppend([], put, db);
      RunConcat([put], FinalizeOps(e, Some(t), Some(t), Some(a)), db);
      FinalizeOpsEffect(e, Some(t), Some(t), Some(a), Apply(put, db));
    } else {
      FinalizeOpsNeed(e, t, Some(t), Some(a));
      NothingReady(ProjectOps(e, block, pick), AsI64(t), db);
    }
  }

  lemma FinalizeOpsNeed(e: Event, need: u64, task: Option<u64>, agent: Option<u64>)
    ensures forall j :: 0 <= j < |FinalizeOps(e, Some(need), task, agent)| ==>
      Need(FinalizeOps(e, Some(need), task, agent)[j]) == Some(AsI64(need))
  {
  }

  // ----- a completion -----

  lemma CompletionRuns(e: Event, db: Db, block: nat, pick: Pick)
    requires e.pallet == "TaskMarket" && e.variant == "TaskCompleted" && e.fields.TaskCompleted?
    ensures var t, a, hash := e.fields.task, e.fields.agent, e.fields.resultHash;
      var recorded := Apply(CompleteTask(t, hash), Apply(PutResult(t, a, block), db));
      Run(ProjectOps(e, block, pick), db)
      == Apply(PatchPending(Some(t), AgentKey, a), Apply(PatchPending(Some(t), TaskKey, t),
           Run(FinalizeOps(e, Some(t), Some(t), Some(a)), recorded)))
  {
    hide Apply, FinalizeOps;
    var t, a, hash := e.fields.task, e.fields.agent, e.fields.resultHash;
    var put, complete := PutResult(t, a, block), CompleteTask(t, hash);
    var first, second := PatchPending(Some(t), TaskKey, t), PatchPending(Some(t), AgentKey, a);
    var finalize := FinalizeOps(e, Some(t), Some(t), Some(a));
    RunAppend([], put, db);
    RunAppend([put], complete, db);
    assert [put] + [complete] == [put, complete];
    RunConcat([put, complete], finalize, db);
    RunAppend([put, complete] + finalize, first, db);
    RunAppend([put, complete] + finalize + [first], second, db);
    assert ProjectOps(e, block, pick) == [put, complete] + finalize + [first] + [second];
  }

  lemma RecordEffect(db: Db, task: u64, agent: u64, block: nat, hash: string)
    requires AsI64(task) in db.tasks
    ensures var after := Apply(CompleteTask(task, hash), Apply(PutResult(task, agent, block), db));
      var t, bytes := AsI64(task), AgentBytes(agent);
      var json := ResultJson(db.next, "did:ainur:" + Decimal.Print(agent), bytes, "", block);
      after == db.(tasks := db.tasks[t := db.tasks[t].(completed := true, resultHash := Some(hash))],
                   results := db.results[t :=
                     if t in db.results then db.results[t].(output := "", completedAt := block, json := json)
                     else ResultRow(db.next, bytes, "", block, json)],
                   next := db.next + 1)
  {
    hide AgentBytes, Patch, FinalizeByHash, InsertBid, UpsertTask, FillRow;
  }

  /** Without its task a completion leaves everything as it is. With it, the task is completed with
      the hash, and the result shows this block: a first one with this agent, a further one with the
      agent it had. The outbox row that asked for it is finalized with both ids, and then pending
      placeholders of either kind take them. */
  lemma CompletionEffect(e: Event, db: Db, block: nat, pick: Pick)
    requires e.pallet == "TaskMarket" && e.variant == "TaskCompleted" && e.fields.TaskCompleted?
    ensures var after := Run(ProjectOps(e, block, pick), db);
      var t, bytes := AsI64(e.fields.task), AgentBytes(e.fields.agent);
      var json := ResultJson(db.next, "did:ainur:" + Decimal.Print(e.fields.agent), bytes, "", block);
      if t !in db.tasks then after == db
      else
        after.(outbox := db.outbox)
        == db.(tasks := db.tasks[t := db.tasks[t].(completed := true, resultHash := Some(e.fields.resultHash))],
               results := db.results[t :=
                 if t in db.results then db.results[t].(output := "", completedAt := block, json := json)
                 else ResultRow(db.next, bytes, "", block, json)],
               next := db.next + 1)
    ensures var after := Run(ProjectOps(e, block, pick), db).outbox;
      var t, a := AsI64(e.fields.task), AsI64(e.fields.agent);
      t in db.tasks ==>
        exists first, second :: Finalizes(db.outbox, first, e.correlation, Some(t), Some(a))
          && Patches(first, second, TaskKey, "task_id", t) && Patches(second, after, AgentKey, "agent_id", a)
  {
    hide Apply, FinalizeOps, Finalizes, Patches, ProjectOps, AgentBytes, Run, Patch;
    var t, a := e.fields.task, e.fields.agent;
    if AsI64(t) in db.tasks {
      CompletionRuns(e, db, block, pick);
      RecordEffect(db, t, a, block, e.fields.resultHash);
      var recorded := Apply(CompleteTask(t, e.fields.resultHash), Apply(PutResult(t, a, block), db));
      FinalizeOpsEffect(e, Some(t), Some(t), Some(a), recorded);
      var finalized := Run(FinalizeOps(e, Some(t), Some(t), Some(a)), recorded);
      var second := Patch(finalized.outbox, TaskKey, AsI64(t));
      PatchStatement(finalized, t, TaskKey, t);
      PatchStatement(finalized.(outbox := second), t, AgentKey, a);
      PatchEffect(finalized.outbox, TaskKey, AsI64(t));
      PatchEffect(second, AgentKey, AsI64(a));
    } else {
      CompletionNeeds(e, block, pick);
      NothingReady(ProjectOps(e, block, pick), AsI64(t), db);
    }
  }

  lemma CompletionNeeds(e: Event, block: nat, pick: Pick)
    requires e.pallet == "TaskMarket" && e.variant == "TaskCompleted" && e.fields.TaskCompleted?
    ensures forall j :: 0 <= j < |ProjectOps(e, block, pick)| ==> Need(ProjectOps(e, block, pick)[j]) == Some(AsI64(e.fields.task))
  {
  }

  // ----- any other event -----

  predicate IsProjected(e: Event) {
    || (e.pallet == "AgentRegistry" && e.variant == "AgentRegistered" && e.fields.AgentRegistered?)
    || (e.pallet == "TaskMarket" && e.variant == "TaskCreated" && e.fields.TaskCreated?)
    || (e.pallet == "TaskMarket" && e.variant == "BidSubmitted" && e.fields.BidSubmitted?)
    || (e.pallet == "TaskMarket" && e.variant == "TaskCompleted" && e.fields.TaskCompleted?)
  }

  /** Every other event, also one that cannot be decoded, leaves the tables as they are. */
  lemma OtherEffect(e: Event, db: Db, block: nat, pick: Pick)
    requires !IsProjected(e)
    ensures Run(ProjectOps(e, block, pick), db) == db
  {
  }

  /** The events that are logged, and no others. */
  lemma LoggedKinds(pallet: string, variant: string)
    ensures IsSupported(pallet, variant) <==>
      match pallet
      case "AgentRegistry" => variant in {"AgentRegistered", "AgentUpdated", "AgentRetired", "AgentStatusForced"}
      case "TaskMarket" =>
        variant in {"TaskCreated", "BidSubmitted", "BidRevealed", "TaskAllocated", "TaskCompleted", "TaskFailed"}
      case "Commitments" =>
        variant in {"CommitmentProposed", "CommitmentSigned", "CommitmentFinalized", "CommitmentDisputed", "CommitmentCancelled"}
      case _ => false
  {
  }

  /** Beyond the cursor means later in the order of blocks and then of events within a block. */
  lemma BeyondOrders(block: nat, index: u32, cursor: Cursor)
    requires cursor.1 < TWO_32
    ensures Beyond(block, index, cursor) <==> TWO_32 * block + index > TWO_32 * cursor.0 + cursor.1
  {
  }

  /** The key of an agent is its id in 32 little-endian bytes. */
  lemma AgentBytesSpell(agent: u64)
    ensures |AgentBytes(agent)| == 32 && FromLittleEndian(AgentBytes(agent)) == agent
  {
    assert Pow2(256) > agent by {
      PowersGrow(64, 192);
      U64Bound();
    }
    PaddedLittleEndian(agent, 8, 24);
    LittleEndianOfU64(agent);
  }

  lemma U64Bound()
    ensures Pow2(64) == TWO_64
  {
    assert Pow2(8) == 256;
    EightMore(8);
    EightMore(16);
    EightMore(24);
    EightMore(32);
    EightMore(40);
    EightMore(48);
    EightMore(56);
  }

  lemma LittleEndianOfU64(agent: u64)
    ensures FromLittleEndian(LittleEndian(agent, 8)) == agent
  {
    U64Bound();
    LittleEndianValue(agent, 8);
  }

  lemma PowersGrow(w: nat, more: nat)
    ensures Pow2(w + more) >= Pow2(w)
  {
    if more > 0 {
      PowersGrow(w, more - 1);
    }
  }

  /** Zeros behind do not change the number. */
  lemma {:induction false} PaddedLittleEndian(n: nat, width: nat, zeros: nat)
    ensures FromLittleEndian(LittleEndian(n, width) + seq(zeros, _ => 0 as byte)) == FromLittleEndian(LittleEndian(n, width))
    decreases width, zeros
  {
    var bytes := LittleEndian(n, width) + seq(zeros, _ => 0 as byte);
    if width > 0 {
      PaddedLittleEndian(n / 256, width - 1, zeros);
      assert bytes[1..] == LittleEndian(n / 256, width - 1) + seq(zeros, _ => 0 as byte);
    } else if zeros > 0 {
      PaddedLittleEndian(n, 0, zeros - 1);
      assert bytes[1..] == LittleEndian(n, 0) + seq(zeros - 1, _ => 0 as byte);
    }
  }
}
