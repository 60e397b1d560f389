/** Replaying a half-applied block is safe. A pass over a list of statements may be cut off after
    any statement, any number of times; one complete pass afterwards leaves the same tables as
    one clean pass, up to generated row ids.

    The argument: the state after a pass is a fixed point of that pass. Run the pass again
    from there and compare it, statement by statement, with the first one; every cell then
    holds either what the first pass had at that point or its final value already. */
module Convergence {
  import opened Basics
  import Decimal
  import opened OutboxRows
  import opened PatchCalm
  import opened Projection

  // ----- equality up to generated ids -----

  function AnonTask(row: TaskRow): TaskRow {
    row.(id := 0, json := row.json.(id := 0))
  }

  function AnonResult(row: ResultRow): ResultRow {
    row.(id := 0, json := row.json.(id := 0))
  }

  ghost predicate TasksAlike(a: map<int, TaskRow>, b: map<int, TaskRow>) {
    a.Keys == b.Keys && forall t :: t in a ==> AnonTask(a[t]) == AnonTask(b[t])
  }

  ghost predicate BidsAlike(a: map<(int, seq<byte>), BidRow>, b: map<(int, seq<byte>), BidRow>) {
    a.Keys == b.Keys && forall k :: k in a ==> a[k].(id := 0) == b[k].(id := 0)
  }

  ghost predicate ResultsAlike(a: map<int, ResultRow>, b: map<int, ResultRow>) {
    a.Keys == b.Keys && forall t :: t in a ==> AnonResult(a[t]) == AnonResult(b[t])
  }

  ghost predicate Alike(a: Db, b: Db) {
    && a.agents == b.agents && a.outbox == b.outbox && a.log == b.log
    && TasksAlike(a.tasks, b.tasks) && BidsAlike(a.bids, b.bids) && ResultsAlike(a.results, b.results)
  }

  lemma UpsertTaskAlike(a: Db, b: Db, task: u64, requester: string, budget: nat)
    requires Alike(a, b)
    ensures Alike(UpsertTask(a, task, requester, budget), UpsertTask(b, task, requester, budget))
  {
    var t := AsI64(task);
    assert t in a.tasks ==> AnonTask(a.tasks[t]) == AnonTask(b.tasks[t]);
  }

  lemma AddBidAlike(a: map<(int, seq<byte>), BidRow>, b: map<(int, seq<byte>), BidRow>, key: (int, seq<byte>), x: BidRow, y: BidRow)
    requires BidsAlike(a, b) && x.(id := 0) == y.(id := 0)
    ensures BidsAlike(a[key := x], b[key := y])
  {
  }

  lemma InsertBidAlike(a: Db, b: Db, task: u64, agent: u64, block: nat, pick: Pick)
    requires Alike(a, b)
    ensures Alike(InsertBid(a, task, agent, block, pick), InsertBid(b, task, agent, block, pick))
  {
    var key := (AsI64(task), AgentBytes(agent));
    var did := BidDid(a.agents, agent, pick);
    AddBidAlike(a.bids, b.bids, key, BidRow(a.next, did, block), BidRow(b.next, did, block));
    assert key in a.bids <==> key in b.bids;
  }

  lemma UpsertResultAlike(a: Db, b: Db, task: u64, agent: u64, block: nat)
    requires Alike(a, b)
    ensures Alike(UpsertResult(a, task, agent, block), UpsertResult(b, task, agent, block))
  {
    var t := AsI64(task);
    assert t in a.results ==> AnonResult(a.results[t]) == AnonResult(b.results[t]);
  }

  lemma ApplyAlike(op: Op, a: Db, b: Db)
    requires Alike(a, b)
    ensures Alike(Apply(op, a), Apply(op, b))
  {
    hide Patch, FinalizeByHash;
    if Ready(op, a.tasks.Keys) {
      match op
      case PutTask(task, requester, budget) => UpsertTaskAlike(a, b, task, requester, budget);
      case PutBid(task, agent, block, pick) => InsertBidAlike(a, b, task, agent, block, pick);
      case PutResult(task, agent, block) => UpsertResultAlike(a, b, task, agent, block);
      case CompleteTask(task, _) => assert AnonTask(a.tasks[AsI64(task)]) == AnonTask(b.tasks[AsI64(task)]);
      case _ =>
    }
  }

  lemma {:induction false} RunAlike(ops: seq<Op>, a: Db, b: Db)
    requires Alike(a, b)
    ensures Alike(Run(ops, a), Run(ops, b))
  {
    if ops != [] {
      var front := ops[..|ops| - 1];
      RunAlike(front, a, b);
      ApplyAlike(ops[|ops| - 1], Run(front, a), Run(front, b));
    }
  }

  lemma {:induction false} RunConcat(first: seq<Op>, second: seq<Op>, db: Db)
    ensures Run(first + second, db) == Run(second, Run(first, db))
  {
    if second == [] {
      assert first + second == first;
    } else {
      var front := second[..|second| - 1];
      RunConcat(first, front, db);
      assert (first + second)[..|first + second| - 1] == first + front;
    }
  }

  lemma RunSplit(ops: seq<Op>, k: nat, db: Db)
    requires k <= |ops|
    ensures Run(ops, db) == Run(ops[k..], Run(ops[..k], db))
  {
    assert ops == ops[..k] + ops[k..];
    RunConcat(ops[..k], ops[k..], db);
  }

  lemma RunStep(ops: seq<Op>, i: nat, db: Db)
    requires i < |ops|
    ensures Run(ops[..i + 1], db) == Apply(ops[i], Run(ops[..i], db))
  {
    assert ops[..i + 1][..i] == ops[..i];
  }

  // ----- causal order -----

  predicate CreatesTask(op: Op, t: int) {
    op.PutTask? && AsI64(op.task) == t
  }

  predicate Creates(ops: seq<Op>, t: int) {
    exists i :: 0 <= i < |ops| && CreatesTask(ops[i], t)
  }

  /** No statement depends on a task that only a later statement creates. */
  ghost predicate Causal(known: set<int>, ops: seq<Op>) {
    forall j :: 0 <= j < |ops| && Need(ops[j]).Some? ==>
      var t := Need(ops[j]).value;
      t in known || Creates(ops[..j], t) || !Creates(ops[j..], t)
  }

  lemma TasksAfterApply(op: Op, db: Db)
    ensures forall t :: t in Apply(op, db).tasks <==> t in db.tasks || CreatesTask(op, t)
  {
    match op
    case PutTask(_, _, _) =>
    case CompleteTask(_, _) =>
    case _ => assert Apply(op, db).tasks == db.tasks;
  }

  lemma CreatesSnoc(ops: seq<Op>, t: int)
    requires ops != []
    ensures Creates(ops, t) <==> Creates(ops[..|ops| - 1], t) || CreatesTask(ops[|ops| - 1], t)
  {
    var front := ops[..|ops| - 1];
    if Creates(front, t) {
      var i :| 0 <= i < |front| && CreatesTask(front[i], t);
      assert CreatesTask(ops[i], t);
    }
    if Creates(ops, t) && !CreatesTask(ops[|ops| - 1], t) {
      var i :| 0 <= i < |ops| && CreatesTask(ops[i], t);
      assert CreatesTask(front[i], t);
    }
  }

  lemma {:induction false} TasksAfterRun(ops: seq<Op>, db: Db)
    ensures forall t :: t in Run(ops, db).tasks <==> t in db.tasks || Creates(ops, t)
  {
    if ops != [] {
      var front := ops[..|ops| - 1];
      TasksAfterRun(front, db);
      TasksAfterApply(ops[|ops| - 1], Run(front, db));
      forall t
        ensures Creates(ops, t) <==> Creates(front, t) || CreatesTask(ops[|ops| - 1], t)
      {
        CreatesSnoc(ops, t);
      }
    }
  }

  /** Along a causal pass a dependency is met at its own point as soon as it is met at the end. */
  lemma DependencyKnown(ops: seq<Op>, j: nat, db: Db)
    requires Causal(db.tasks.Keys, ops) && j < |ops|
    ensures Ready(ops[j], Run(ops, db).tasks.Keys) ==> Ready(ops[j], Run(ops[..j], db).tasks.Keys)
  {
    hide Apply;
    if Need(ops[j]).Some? && Need(ops[j]).value in Run(ops, db).tasks {
      var t := Need(ops[j]).value;
      TasksAfterRun(ops, db);
      TasksAfterRun(ops[..j], db);
      if t !in db.tasks {
        var i :| 0 <= i < |ops| && CreatesTask(ops[i], t);
        if i < j {
          assert CreatesTask(ops[..j][i], t);
        } else {
          assert CreatesTask(ops[j..][i - j], t);
        }
      }
    }
  }

  lemma CausalPrefix(known: set<int>, ops: seq<Op>, k: nat)
    requires Causal(known, ops) && k <= |ops|
    ensures Causal(known, ops[..k])
  {
    forall j | 0 <= j < k && Need(ops[..k][j]).Some?
      ensures var t := Need(ops[..k][j]).value;
        t in known || Creates(ops[..k][..j], t) || !Creates(ops[..k][j..], t)
    {
      var t := Need(ops[j]).value;
      assert ops[..k][..j] == ops[..j];
      if Creates(ops[..k][j..], t) {
        var i :| 0 <= i < |ops[..k][j..]| && CreatesTask(ops[..k][j..][i], t);
        assert CreatesTask(ops[j..][i], t);
      }
    }
  }

  lemma CausalGrows(known: set<int>, more: set<int>, ops: seq<Op>)
    requires Causal(known, ops) && known <= more
    ensures Causal(more, ops)
  {
  }

  // ----- a statement that has had its lasting effect -----

  ghost predicate Calmed(rows: Table) {
    Calm(rows, TaskKey) && Calm(rows, AgentKey)
  }

  /** Everything of the statement's effect that later statements never take back. */
  ghost predicate Done(op: Op, x: Db) {
    Ready(op, x.tasks.Keys) ==>
      match op
      case PutAgent(agent, _) => Did(agent) in x.agents && x.agents[Did(agent)].chainId == Some(AsI64(agent))
      case FillAgents(_, owner) =>
        forall d :: d in x.agents && x.agents[d].chainId.None? ==> x.agents[d].account != Some(owner)
      case PutTask(task, _, _) => AsI64(task) in x.tasks
      case PutBid(task, agent, _, _) => (AsI64(task), AgentBytes(agent)) in x.bids
      case PutResult(task, _, _) => AsI64(task) in x.results
      case CompleteTask(_, _) => true
      case Finalize(_, tx, _, _) =>
        forall id :: id in x.outbox && x.outbox[id].txHash == Some(tx) ==> x.outbox[id].status.Finalized?
      case PatchPending(_, key, id) => Patched(x.outbox, key, AsI64(id))
      case WriteLog(at, _) => at in x.log
  }

  lemma AgentDoneAfterApply(op: Op, db: Db)
    requires op.PutAgent? || op.FillAgents?
    ensures Done(op, Apply(op, db))
  {
    hide Did, Patch, FinalizeByHash;
  }

  lemma TaskDoneAfterApply(op: Op, db: Db)
    requires op.PutTask? || op.PutBid? || op.PutResult? || op.CompleteTask?
    ensures Done(op, Apply(op, db))
  {
    hide AgentBytes, BidDid, Patch, FinalizeByHash;
  }

  lemma DoneAfterApply(op: Op, db: Db)
    requires Calmed(db.outbox)
    ensures Done(op, Apply(op, db))
  {
    hide Patch, Patched, Did, AgentBytes, BidDid, UpsertTask, InsertBid, UpsertResult, FillRow;
    match op
    case PutAgent(_, _) => AgentDoneAfterApply(op, db);
    case FillAgents(_, _) => AgentDoneAfterApply(op, db);
    case PatchPending(_, key, id) => PatchedAfterPatch(db.outbox, key, AsI64(id));
    case Finalize(_, _, _, _) =>
    case WriteLog(_, _) =>
    case _ => TaskDoneAfterApply(op, db);
  }

  lemma CalmedStays(op: Op, db: Db)
    requires Calmed(db.outbox)
    ensures Calmed(Apply(op, db).outbox)
  {
    hide Patch, FinalizeByHash;
    if Ready(op, db.tasks.Keys) {
      match op
      case PatchPending(_, key, id) =>
        PatchAdvances(db.outbox, key, AsI64(id), TaskKey);
        PatchAdvances(db.outbox, key, AsI64(id), AgentKey);
        CalmStays(db.outbox, Apply(op, db).outbox, TaskKey);
        CalmStays(db.outbox, Apply(op, db).outbox, AgentKey);
      case Finalize(_, tx, task, agent) =>
        FinalizeAdvances(db.outbox, tx, OptI64(task), OptI64(agent), TaskKey);
        FinalizeAdvances(db.outbox, tx, OptI64(task), OptI64(agent), AgentKey);
        CalmStays(db.outbox, Apply(op, db).outbox, TaskKey);
        CalmStays(db.outbox, Apply(op, db).outbox, AgentKey);
      case _ =>
    }
  }

  /** A task statement leaves every other table alone. */
  lemma TaskStepFrame(op: Op, db: Db)
    requires op.PutTask? || op.CompleteTask?
    ensures Apply(op, db) == db.(tasks := Apply(op, db).tasks, next := Apply(op, db).next)
  {
  }

  lemma InsertBidFrame(db: Db, task: u64, agent: u64, block: nat, pick: Pick)
    ensures var after := InsertBid(db, task, agent, block, pick);
      after == db.(bids := after.bids, next := after.next)
    ensures (AsI64(task), AgentBytes(agent)) in db.bids ==> InsertBid(db, task, agent, block, pick).bids == db.bids
  {
  }

  lemma AgentDoneStays(first: Op, op: Op, db: Db)
    requires first.PutAgent? || first.FillAgents?
    requires Done(first, db)
    ensures Done(first, Apply(op, db))
  {
    hide Patch, FinalizeByHash;
    if first.PutAgent? {
      DidInjective(first.agent, op);
    }
    if !op.PutAgent? && !op.FillAgents? {
      assert Apply(op, db).agents == db.agents;
    }
  }

  lemma OutboxDoneStays(first: Op, op: Op, db: Db)
    requires first.Finalize? || first.PatchPending?
    requires Ready(first, db.tasks.Keys) && Done(first, db)
    ensures Done(first, Apply(op, db))
  {
    hide Did, AgentBytes, BidDid, SetId;
    match op
    case PatchPending(_, key', id') =>
      if first.PatchPending? {
        PatchedStaysUnderPatch(db.outbox, first.key, AsI64(first.id), key', AsI64(id'));
      }
    case Finalize(_, tx, task, agent) =>
      if first.PatchPending? {
        PatchedStaysUnderFinalize(db.outbox, first.key, AsI64(first.id), tx, OptI64(task), OptI64(agent));
      }
    case _ => assert Apply(op, db).outbox == db.outbox;
  }

  lemma RowsGrow(op: Op, db: Db)
    ensures db.tasks.Keys <= Apply(op, db).tasks.Keys && db.bids.Keys <= Apply(op, db).bids.Keys
    ensures db.results.Keys <= Apply(op, db).results.Keys && db.log.Keys <= Apply(op, db).log.Keys
  {
    match op
    case PutTask(_, _, _) => TaskStepFrame(op, db);
    case CompleteTask(_, _) => TaskStepFrame(op, db);
    case PutBid(task, agent, block, pick) => InsertBidFrame(db, task, agent, block, pick);
    case PutResult(_, _, _) =>
    case _ =>
  }

  /** No later statement undoes it, unless it creates the task the first one had been waiting for. */
  lemma DoneStays(first: Op, op: Op, db: Db)
    requires Done(first, db)
    requires Ready(first, Apply(op, db).tasks.Keys) ==> Ready(first, db.tasks.Keys)
    ensures Done(first, Apply(op, db))
  {
    if Ready(first, db.tasks.Keys) {
      match first
      case PutAgent(_, _) => AgentDoneStays(first, op, db);
      case FillAgents(_, _) => AgentDoneStays(first, op, db);
      case Finalize(_, _, _, _) => OutboxDoneStays(first, op, db);
      case PatchPending(_, _, _) => OutboxDoneStays(first, op, db);
      case _ => RowsGrow(op, db);
    }
  }

  lemma DidInjective(agent: u64, op: Op)
    ensures op.PutAgent? && Did(op.agent) == Did(agent) ==> op.agent == agent
  {
    if op.PutAgent? && Did(op.agent) == Did(agent) {
      var prefix := "did:ainur:";
      assert Did(agent)[|prefix|..] == Decimal.Print(agent) && Did(op.agent)[|prefix|..] == Decimal.Print(op.agent);
      Decimal.PrintInjective(agent, op.agent);
    }
  }

  lemma CalmedAfterRun(ops: seq<Op>, db: Db)
    requires Calmed(db.outbox)
    ensures Calmed(Run(ops, db).outbox)
  {
    if ops != [] {
      CalmedAfterRun(ops[..|ops| - 1], db);
      CalmedStays(ops[|ops| - 1], Run(ops[..|ops| - 1], db));
    }
  }

  /** What a statement of the pass depends on does not appear after the statement has run. */
  lemma NoLateDependency(ops: seq<Op>, j: nat, m: nat, n: nat, db: Db)
    requires Causal(db.tasks.Keys, ops) && j <= m <= n <= |ops| && j < n
    ensures Ready(ops[j], Run(ops[..n], db).tasks.Keys) ==> Ready(ops[j], Run(ops[..m], db).tasks.Keys)
  {
    CausalPrefix(db.tasks.Keys, ops, n);
    DependencyKnown(ops[..n], j, db);
    assert ops[..n][..j] == ops[..j] == ops[..m][..j];
    KeysGrow(ops[..m], j, db);
  }

  /** Along a causal pass every statement of a prefix stays done to the end of that prefix. */
  lemma {:induction false} AllDone(ops: seq<Op>, k: nat, db: Db, j: nat)
    requires Causal(db.tasks.Keys, ops) && Calmed(db.outbox)
    requires j < k <= |ops|
    ensures Done(ops[j], Run(ops[..k], db))
    decreases k
  {
    hide *;
    RunStep(ops, k - 1, db);
    CalmedAfterRun(ops[..k - 1], db);
    if j == k - 1 {
      DoneAfterApply(ops[j], Run(ops[..k - 1], db));
    } else {
      AllDone(ops, k - 1, db, j);
      NoLateDependency(ops, j, k - 1, k, db);
      DoneStays(ops[j], ops[k - 1], Run(ops[..k - 1], db));
    }
  }

  lemma KeysGrow(ops: seq<Op>, j: nat, db: Db)
    requires j <= |ops|
    ensures Run(ops[..j], db).tasks.Keys <= Run(ops, db).tasks.Keys
  {
    RunSplit(ops, j, db);
    TasksAfterRun(ops[j..], Run(ops[..j], db));
    forall t | t in Run(ops[..j], db).tasks.Keys
      ensures t in Run(ops, db).tasks.Keys
    {
      assert t in Run(ops[..j], db).tasks;
    }
  }

  // ----- the second pass, compared with the first -----

  ghost predicate AgentBetween(a: map<string, AgentRow>, b: AgentRow, d: string, x: AgentRow) {
    && b.chainId == x.chainId
    && (b == x || (x.chainId.Some? && d in a && b.title == a[d].title && b.account == a[d].account))
  }

  ghost predicate SameCore(a: TaskRow, b: TaskRow) {
    a.requester == b.requester && a.description == b.description && a.json.(id := 0) == b.json.(id := 0)
  }

  ghost predicate TaskBetween(a: map<int, TaskRow>, b: TaskRow, t: int, x: TaskRow) {
    && b.id == x.id && b.maxBudget == x.maxBudget
    && (SameCore(b, x) || (t in a && SameCore(b, a[t])))
    && (b.completed == x.completed || (t in a && b.completed == a[t].completed))
    && (b.resultHash == x.resultHash || (t in a && b.resultHash == a[t].resultHash))
  }

  ghost predicate SameOutcome(a: ResultRow, b: ResultRow) {
    a.output == b.output && a.completedAt == b.completedAt && a.json.(id := 0) == b.json.(id := 0)
  }

  ghost predicate ResultBetween(a: map<int, ResultRow>, b: ResultRow, t: int, x: ResultRow) {
    && b.id == x.id && b.agent == x.agent
    && (SameOutcome(b, x) || (t in a && SameOutcome(b, a[t])))
  }

  ghost predicate RowBetween(a: Row, b: Row, x: Row) {
    && a.txHash == x.txHash
    && b.(chainTask := x.chainTask, chainAgent := x.chainAgent) == x
    && (b.chainTask == x.chainTask || b.chainTask == a.chainTask)
    && (b.chainAgent == x.chainAgent || b.chainAgent == a.chainAgent)
  }

  ghost predicate OutboxBetween(a: Table, b: Table, x: Table) {
    && a.Keys == b.Keys == x.Keys
    && (forall id :: id in x ==> RowBetween(a[id], b[id], x[id]))
  }

  ghost predicate AgentsBetween(a: map<string, AgentRow>, b: map<string, AgentRow>, x: map<string, AgentRow>) {
    b.Keys == x.Keys && forall d :: d in x ==> AgentBetween(a, b[d], d, x[d])
  }

  ghost predicate TasksBetween(a: map<int, TaskRow>, b: map<int, TaskRow>, x: map<int, TaskRow>) {
    b.Keys == x.Keys && forall t :: t in x ==> TaskBetween(a, b[t], t, x[t])
  }

  ghost predicate ResultsBetween(a: map<int, ResultRow>, b: map<int, ResultRow>, x: map<int, ResultRow>) {
    b.Keys == x.Keys && forall t :: t in x ==> ResultBetween(a, b[t], t, x[t])
  }

  /** `a` is where the first pass stood, `x` where it ended, `b` where the second pass stands. */
  ghost predicate Between(a: Db, b: Db, x: Db) {
    && AgentsBetween(a.agents, b.agents, x.agents)
    && TasksBetween(a.tasks, b.tasks, x.tasks)
    && b.bids == x.bids
    && ResultsBetween(a.results, b.results, x.results)
    && OutboxBetween(a.outbox, b.outbox, x.outbox)
    && b.log == x.log
  }

  lemma PatchBetween(a: Table, b: Table, x: Table, k: IdKey, v: int)
    requires OutboxBetween(a, b, x) && Patched(x, k, v) && -TWO_63 <= v < TWO_63
    ensures OutboxBetween(Patch(a, k, v), Patch(b, k, v), x)
  {
    PatchedIsIdle(x, k, v);
    forall id | id in x
      ensures Poison(b[id], k) <==> Poison(x[id], k)
      ensures Patch(b, k, v)[id] == b[id]
      ensures RowBetween(Patch(a, k, v)[id], Patch(b, k, v)[id], x[id])
    {
      PatchRowFrame(a[id], k, v);
      PatchRowIdle(b, x, k, v, id);
    }
  }

  lemma PatchRowIdle(b: Table, x: Table, k: IdKey, v: int, id: string)
    requires b.Keys == x.Keys && Patch(x, k, v) == x && id in x
    requires forall id :: id in x ==> b[id].(chainTask := x[id].chainTask, chainAgent := x[id].chainAgent) == x[id]
    ensures Patch(b, k, v)[id] == b[id]
  {
    if !Poisoned(b, k) {
      assert x[id] == PatchRow(x[id], k, v);
    }
  }

  lemma FinalizeBetween(a: Table, b: Table, x: Table, tx: string, task: Option<int>, agent: Option<int>)
    requires OutboxBetween(a, b, x)
    requires forall id :: id in x && x[id].txHash == Some(tx) ==> x[id].status.Finalized?
    ensures OutboxBetween(FinalizeByHash(a, tx, task, agent), FinalizeByHash(b, tx, task, agent), x)
  {
    forall id | id in x
      ensures RowBetween(FinalizeByHash(a, tx, task, agent)[id], FinalizeByHash(b, tx, task, agent)[id], x[id])
    {
      assert RowBetween(a[id], b[id], x[id]);
    }
  }

  lemma AgentStepBetween(op: Op, a: Db, b: Db, x: Db)
    requires op.PutAgent? || op.FillAgents?
    requires Between(a, b, x) && Done(op, x)
    ensures Between(Apply(op, a), Apply(op, b), x)
  {
    hide Patch, FinalizeByHash, TasksBetween, ResultsBetween, OutboxBetween, UpsertTask, InsertBid, UpsertResult;
    if op.FillAgents? {
      forall d | d in x.agents
        ensures FillRow(b.agents[d], op.agent, op.owner) == b.agents[d]
      {
        assert AgentBetween(a.agents, b.agents[d], d, x.agents[d]);
      }
      assert Apply(op, b).agents == b.agents;
    }
  }

  lemma PutTaskBetween(op: Op, a: Db, b: Db, x: Db)
    requires op.PutTask? && Between(a, b, x) && Done(op, x)
    ensures TasksBetween(Apply(op, a).tasks, Apply(op, b).tasks, x.tasks)
  {
    hide Patch, FinalizeByHash, AgentsBetween, ResultsBetween, OutboxBetween, RequesterDid, Description;
    var t := AsI64(op.task);
    assert TaskBetween(a.tasks, b.tasks[t], t, x.tasks[t]);
    assert TaskBetween(Apply(op, a).tasks, Apply(op, b).tasks[t], t, x.tasks[t]);
    forall u | u in x.tasks && u != t
      ensures TaskBetween(Apply(op, a).tasks, Apply(op, b).tasks[u], u, x.tasks[u])
    {
      assert TaskBetween(a.tasks, b.tasks[u], u, x.tasks[u]);
    }
  }

  lemma CompleteTaskBetween(a: map<int, TaskRow>, b: map<int, TaskRow>, x: map<int, TaskRow>, t: int, hash: string)
    requires TasksBetween(a, b, x) && t in x && t in a
    ensures TasksBetween(a[t := Completed(a[t], hash)], b[t := Completed(b[t], hash)], x)
  {
    assert TaskBetween(a, b[t], t, x[t]);
    forall u | u in x && u != t
      ensures TaskBetween(a[t := Completed(a[t], hash)], b[u], u, x[u])
    {
      assert TaskBetween(a, b[u], u, x[u]);
    }
  }

  lemma TaskStepBetween(op: Op, a: Db, b: Db, x: Db)
    requires op.PutTask? || op.CompleteTask?
    requires Between(a, b, x) && Done(op, x)
    requires Ready(op, x.tasks.Keys) <==> Ready(op, a.tasks.Keys)
    ensures Between(Apply(op, a), Apply(op, b), x)
  {
    if Ready(op, x.tasks.Keys) {
      TaskStepFrame(op, a);
      TaskStepFrame(op, b);
      if op.PutTask? {
        PutTaskBetween(op, a, b, x);
      } else {
        CompleteTaskBetween(a.tasks, b.tasks, x.tasks, AsI64(op.task), op.hash);
      }
    }
  }

  lemma BidStepBetween(op: Op, a: Db, b: Db, x: Db)
    requires op.PutBid? && Between(a, b, x) && Done(op, x)
    ensures Between(Apply(op, a), Apply(op, b), x)
  {
    hide Patch, FinalizeByHash, AgentsBetween, ResultsBetween, OutboxBetween;
    InsertBidFrame(a, op.task, op.agent, op.block, op.pick);
    InsertBidFrame(b, op.task, op.agent, op.block, op.pick);
    var key := (AsI64(op.task), AgentBytes(op.agent));
    assert Ready(op, b.tasks.Keys) ==> key in b.bids;
  }

  lemma ResultStepBetween(op: Op, a: Db, b: Db, x: Db)
    requires op.PutResult? && Between(a, b, x) && Done(op, x)
    requires Ready(op, x.tasks.Keys) <==> Ready(op, a.tasks.Keys)
    ensures Between(Apply(op, a), Apply(op, b), x)
  {
    if Ready(op, x.tasks.Keys) {
      var t := AsI64(op.task);
      assert ResultBetween(a.results, b.results[t], t, x.results[t]);
    } else {
      assert Apply(op, b) == b;
    }
  }

  lemma OutboxStepBetween(op: Op, a: Db, b: Db, x: Db)
    requires op.Finalize? || op.PatchPending?
    requires Between(a, b, x) && Done(op, x)
    requires Ready(op, x.tasks.Keys) <==> Ready(op, a.tasks.Keys)
    ensures Between(Apply(op, a), Apply(op, b), x)
  {
    if Ready(op, x.tasks.Keys) {
      match op
      case Finalize(_, tx, task, agent) =>
        FinalizeBetween(a.outbox, b.outbox, x.outbox, tx, OptI64(task), OptI64(agent));
      case PatchPending(_, key, id) =>
        PatchBetween(a.outbox, b.outbox, x.outbox, key, AsI64(id));
    }
  }

  lemma ApplyBetween(op: Op, a: Db, b: Db, x: Db)
    requires Between(a, b, x) && Done(op, x)
    requires Ready(op, x.tasks.Keys) <==> Ready(op, a.tasks.Keys)
    ensures Between(Apply(op, a), Apply(op, b), x)
  {
    match op
    case PutAgent(_, _) => AgentStepBetween(op, a, b, x);
    case FillAgents(_, _) => AgentStepBetween(op, a, b, x);
    case PutTask(_, _, _) => TaskStepBetween(op, a, b, x);
    case CompleteTask(_, _) => TaskStepBetween(op, a, b, x);
    case PutBid(_, _, _, _) => BidStepBetween(op, a, b, x);
    case PutResult(_, _, _) => ResultStepBetween(op, a, b, x);
    case Finalize(_, _, _, _) => OutboxStepBetween(op, a, b, x);
    case PatchPending(_, _, _) => OutboxStepBetween(op, a, b, x);
    case WriteLog(_, _) =>
  }

  lemma OutboxStepKeeps(op: Op, db: Db)
    ensures Apply(op, db).outbox.Keys == db.outbox.Keys
    ensures forall id :: id in db.outbox ==> Apply(op, db).outbox[id].txHash == db.outbox[id].txHash
  {
    match op
    case PatchPending(_, key, id) => PatchAdvances(db.outbox, key, AsI64(id), key);
    case Finalize(_, tx, task, agent) => FinalizeAdvances(db.outbox, tx, OptI64(task), OptI64(agent), TaskKey);
    case _ => assert Apply(op, db).outbox == db.outbox;
  }

  /** No statement of the worker adds or removes outbox rows, or touches a transaction hash. */
  lemma {:induction false} OutboxKeysKept(ops: seq<Op>, db: Db)
    ensures Run(ops, db).outbox.Keys == db.outbox.Keys
    ensures forall id :: id in db.outbox ==> Run(ops, db).outbox[id].txHash == db.outbox[id].txHash
  {
    if ops != [] {
      OutboxKeysKept(ops[..|ops| - 1], db);
      OutboxStepKeeps(ops[|ops| - 1], Run(ops[..|ops| - 1], db));
    }
  }

  /** What the comparison needs to know about one statement of a causal pass. */
  lemma StatementFacts(ops: seq<Op>, j: nat, db: Db)
    requires Causal(db.tasks.Keys, ops) && Calmed(db.outbox) && j < |ops|
    ensures Done(ops[j], Run(ops, db))
    ensures Ready(ops[j], Run(ops, db).tasks.Keys) <==> Ready(ops[j], Run(ops[..j], db).tasks.Keys)
  {
    assert ops[..|ops|] == ops;
    AllDone(ops, |ops|, db, j);
    DependencyKnown(ops, j, db);
    KeysGrow(ops, j, db);
  }

  lemma {:induction false} SecondPassBetween(ops: seq<Op>, k: nat, db: Db)
    requires Causal(db.tasks.Keys, ops) && Calmed(db.outbox) && k <= |ops|
    ensures Between(Run(ops[..k], db), Run(ops[..k], Run(ops, db)), Run(ops, db))
  {
    var x := Run(ops, db);
    if k == 0 {
      OutboxKeysKept(ops, db);
      NothingRunYet(db, x);
    } else {
      SecondPassBetween(ops, k - 1, db);
      StatementFacts(ops, k - 1, db);
      var a, b := Run(ops[..k - 1], db), Run(ops[..k - 1], x);
      ApplyBetween(ops[k - 1], a, b, x);
      RunStep(ops, k - 1, db);
      RunStep(ops, k - 1, x);
    }
  }

  lemma NothingRunYet(db: Db, x: Db)
    requires x.outbox.Keys == db.outbox.Keys
    requires forall id :: id in db.outbox ==> x.outbox[id].txHash == db.outbox[id].txHash
    ensures Between(db, x, x)
  {
  }

  /** A complete pass is a fixed point of itself. */
  lemma PassIsIdempotent(ops: seq<Op>, db: Db)
    requires Causal(db.tasks.Keys, ops) && Calmed(db.outbox)
    ensures Alike(Run(ops, Run(ops, db)), Run(ops, db))
  {
    assert ops[..|ops|] == ops;
    SecondPassBetween(ops, |ops|, db);
    BetweenClosed(Run(ops, Run(ops, db)), Run(ops, db));
  }

  lemma BetweenClosed(b: Db, x: Db)
    requires Between(x, b, x)
    ensures Alike(b, x)
  {
    forall t | t in x.tasks
      ensures AnonTask(b.tasks[t]) == AnonTask(x.tasks[t])
    {
      assert TaskBetween(x.tasks, b.tasks[t], t, x.tasks[t]);
    }
    forall t | t in x.results
      ensures AnonResult(b.results[t]) == AnonResult(x.results[t])
    {
      assert ResultBetween(x.results, b.results[t], t, x.results[t]);
    }
    assert forall d :: d in x.agents ==> AgentBetween(x.agents, b.agents[d], d, x.agents[d]);
    assert forall id :: id in x.outbox ==> RowBetween(x.outbox[id], b.outbox[id], x.outbox[id]);
  }

  // ----- convergence -----

  /** One interrupted pass, then a complete one: the same tables as one complete pass. */
  lemma ReplayConverges(ops: seq<Op>, k: nat, db: Db)
    requires Causal(db.tasks.Keys, ops) && Calmed(db.outbox) && k <= |ops|
    ensures Alike(Run(ops, Run(ops[..k], db)), Run(ops, db))
  {
    var cut := Run(ops[..k], db);
    CausalPrefix(db.tasks.Keys, ops, k);
    PassIsIdempotent(ops[..k], db);
    RunSplit(ops, k, cut);
    RunSplit(ops, k, db);
    RunAlike(ops[k..], Run(ops[..k], cut), cut);
  }

  /** The state after passes cut off at the given points, one after the other. */
  function Interrupted(ops: seq<Op>, cuts: seq<nat>, db: Db): Db
    requires forall i :: 0 <= i < |cuts| ==> cuts[i] <= |ops|
  {
    if cuts == [] then db
    else Run(ops[..cuts[|cuts| - 1]], Interrupted(ops, cuts[..|cuts| - 1], db))
  }

  lemma AlikeTransitive(a: Db, b: Db, c: Db)
    requires Alike(a, b) && Alike(b, c)
    ensures Alike(a, c)
  {
    assert forall t :: t in a.tasks ==> AnonTask(a.tasks[t]) == AnonTask(b.tasks[t]);
    assert forall t :: t in b.tasks ==> AnonTask(b.tasks[t]) == AnonTask(c.tasks[t]);
  }

  /** The promises a pass relies on survive any number of interrupted passes. */
  lemma {:induction false} InterruptedKeeps(ops: seq<Op>, cuts: seq<nat>, db: Db)
    requires forall i :: 0 <= i < |cuts| ==> cuts[i] <= |ops|
    requires Causal(db.tasks.Keys, ops) && Calmed(db.outbox)
    ensures Causal(Interrupted(ops, cuts, db).tasks.Keys, ops) && Calmed(Interrupted(ops, cuts, db).outbox)
  {
    if cuts != [] {
      var before := Interrupted(ops, cuts[..|cuts| - 1], db);
      var k := cuts[|cuts| - 1];
      InterruptedKeeps(ops, cuts[..|cuts| - 1], db);
      CalmedAfterRun(ops[..k], before);
      KeysGrow(ops[..k], 0, before);
      CausalGrows(before.tasks.Keys, Run(ops[..k], before).tasks.Keys, ops);
    }
  }

  /** Any number of interrupted passes, then a complete one. */
  lemma {:induction false} ReplayConvergesAfterCrashes(ops: seq<Op>, cuts: seq<nat>, db: Db)
    requires forall i :: 0 <= i < |cuts| ==> cuts[i] <= |ops|
    requires Causal(db.tasks.Keys, ops) && Calmed(db.outbox)
    ensures Alike(Run(ops, Interrupted(ops, cuts, db)), Run(ops, db))
  {
    if cuts != [] {
      var front := cuts[..|cuts| - 1];
      var before := Interrupted(ops, front, db);
      InterruptedKeeps(ops, front, db);
      ReplayConverges(ops, cuts[|cuts| - 1], before);
      ReplayConvergesAfterCrashes(ops, front, db);
      AlikeTransitive(Run(ops, Interrupted(ops, cuts, db)), Run(ops, before), Run(ops, db));
    } else {
      SameAlike(Run(ops, db));
    }
  }

  lemma SameAlike(db: Db)
    ensures Alike(db, db)
  {
  }
}
