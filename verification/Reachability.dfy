/** Which outboxes come about: without a second enqueueing under one id every reachable outbox is
    calm, so that replay converges from it without any condition; with one it need not be. */
module Reachability {
  import opened Basics
  import opened OutboxRows
  import opened PatchCalm
  import opened Projection
  import opened Convergence
  import opened OutboxMachine
  import opened Json
  import Calls
  import Divergence
  import Hex

  /** No pending row has been submitted before. */
  predicate Unsent(rows: Table) {
    forall id :: id in rows && rows[id].status.Pending? ==> rows[id].txHash.None?
  }

  lemma UnsentIsCalm(rows: Table)
    requires Unsent(rows)
    ensures Calmed(rows)
  {
    forall k
      ensures Calm(rows, k)
    {
      if Poisoned(rows, k) {
        var id :| id in rows && Poison(rows[id], k);
        assert Frozen(rows, k);
      }
    }
  }

  /** Every enqueueing of the run is under an id that has no row yet. */
  ghost predicate FreshIds(s: State, actions: seq<Action>) {
    forall i :: 0 <= i < |actions| && actions[i].Record? ==> actions[i].id !in Execution(s, actions[..i]).rows
  }

  lemma StepStaysUnsent(s: State, a: Action)
    requires Unsent(s.rows) && (a.Record? ==> a.id !in s.rows)
    ensures Unsent(OutboxMachine.Step(s, a).rows)
  {
  }

  lemma {:induction false} RunStaysUnsent(s: State, actions: seq<Action>)
    requires Unsent(s.rows) && FreshIds(s, actions)
    ensures Unsent(Execution(s, actions).rows)
  {
    if actions != [] {
      var front := actions[..|actions| - 1];
      assert forall i :: 0 <= i < |front| ==> front[..i] == actions[..i];
      RunStaysUnsent(s, front);
      StepStaysUnsent(Execution(s, front), actions[|actions| - 1]);
    }
  }

  lemma {:induction false} StatementsStayUnsent(ops: seq<Op>, db: Db)
    requires Unsent(db.outbox)
    ensures Unsent(Projection.Run(ops, db).outbox)
  {
    if ops != [] {
      var before := Projection.Run(ops[..|ops| - 1], db);
      StatementsStayUnsent(ops[..|ops| - 1], db);
      StatementStaysUnsent(ops[|ops| - 1], before);
    }
  }

  lemma StatementStaysUnsent(op: Op, db: Db)
    requires Unsent(db.outbox)
    ensures Unsent(Apply(op, db).outbox)
  {
    hide UpsertTask, InsertBid, UpsertResult, Patch;
    match op
    case PatchPending(_, key, id) => PatchClearsPlaceholders(db.outbox, key, AsI64(id));
    case PutTask(_, _, _) => TaskStepFrame(op, db);
    case CompleteTask(_, _) => TaskStepFrame(op, db);
    case PutBid(task, agent, block, pick) => InsertBidFrame(db, task, agent, block, pick);
    case PutResult(_, _, _) => ResultStepFrame(op, db);
    case _ =>
  }

  lemma ResultStepFrame(op: Op, db: Db)
    requires op.PutResult?
    ensures Apply(op, db).outbox == db.outbox
  {
  }

  /** Let outbox workers, enqueuers, the replay worker and the backfiller run in any way, each
      enqueueing under an id of its own, and then some statements of the replay worker: from every
      database with that outbox every causal block can be interrupted anywhere and replayed. */
  lemma FreshIdsConverge(s: State, actions: seq<Action>, ops: seq<Op>, db: Db)
    requires Unsent(s.rows) && FreshIds(s, actions)
    ensures var start := db.(outbox := Execution(s, actions).rows);
      Calmed(Projection.Run(ops, start).outbox) && Divergence.ConvergesFrom(Projection.Run(ops, start))
  {
    var start := db.(outbox := Execution(s, actions).rows);
    RunStaysUnsent(s, actions);
    StatementsStayUnsent(ops, start);
    UnsentIsCalm(Projection.Run(ops, start).outbox);
    Divergence.ConvergesIffCalm(Projection.Run(ops, start));
  }

  // ----- an id recorded twice -----

  /** A registration with a field that no check looks at. */
  const ODD: Value := Obj(map["did" := Str(""), "capabilities" := Arr([]), "task_id" := Str("x")])

  function BidFor(hash: seq<byte>): Value {
    Calls.BidPayload(0, 0, hash, 0)
  }

  /** One id is recorded, submitted, accepted and recorded again; a bid is recorded meanwhile. */
  function TwiceRecorded(hash: seq<byte>): seq<Action> {
    [Record("a", "AgentRegistry", "register_agent", Some(ODD), 0)]
    + [Pick(0, "a"), Submit(0, "0xa"), CommitSent(0)]
    + [Record("b", "TaskMarket", "submit_bid", Some(BidFor(hash)), 1),
       Record("a", "AgentRegistry", "register_agent", None, 2)]
  }

  function Empty(): State {
    State(map[], map[], {})
  }

  function FirstRow(): Row {
    Row("AgentRegistry", "register_agent", Some(ODD), Pending, 0, None, None, None, None, 0)
  }

  function BidRowOf(hash: seq<byte>): Row {
    Row("TaskMarket", "submit_bid", Some(BidFor(hash)), Pending, 0, None, None, None, None, 1)
  }

  lemma OddIsAccepted(ss58: string -> Option<seq<byte>>)
    ensures Calls.Refusal("AgentRegistry", "register_agent", ODD).None?
    ensures Calls.Build("AgentRegistry", "register_agent", ODD, ss58).Ok?
    ensures FieldOf(Some(ODD), TaskKey) == NoId
  {
    hide Calls.Utf8Char;
    assert Get(ODD, "did") == Some(Str("")) && Get(ODD, "capabilities") == Some(Arr([]));
    assert Get(ODD, "metadata") == None && Get(ODD, "verification_level") == None;
    assert Calls.LowerCase("best_effort") == "best_effort";
  }

  lemma BidIsAccepted(hash: seq<byte>, ss58: string -> Option<seq<byte>>)
    requires |hash| == 32
    ensures Calls.Refusal("TaskMarket", "submit_bid", BidFor(hash)).None?
    ensures FieldOf(Some(BidFor(hash)), TaskKey) == Id(0)
  {
    Calls.BidPayloadBuildsIff(0, 0, hash, 0, ss58);
    assert Get(BidFor(hash), "task_id") == Some(Num(0));
  }

  lemma SentOnce(s: State, row: Row)
    requires s == State(map["a" := row], map[], {}) && row.status.Pending?
    ensures var t := Execution(s, [Pick(0, "a"), Submit(0, "0xa"), CommitSent(0)]);
      t.rows == map["a" := Sent(row, "0xa")] && t.held == map[]
  {
    ExecutionSnoc(s, [], Pick(0, "a"));
    ExecutionSnoc(s, [Pick(0, "a")], Submit(0, "0xa"));
    ExecutionSnoc(s, [Pick(0, "a"), Submit(0, "0xa")], CommitSent(0));
    assert [] + [Pick(0, "a")] == [Pick(0, "a")];
    assert [Pick(0, "a")] + [Submit(0, "0xa")] == [Pick(0, "a"), Submit(0, "0xa")];
    assert [Pick(0, "a"), Submit(0, "0xa")] + [CommitSent(0)] == [Pick(0, "a"), Submit(0, "0xa"), CommitSent(0)];
    assert IsNext(s, "a");
  }

  lemma {:induction false} ExecutionConcat(s: State, front: seq<Action>, back: seq<Action>)
    ensures Execution(s, front + back) == Execution(Execution(s, front), back)
  {
    if back == [] {
      assert front + back == front;
    } else {
      ExecutionConcat(s, front, back[..|back| - 1]);
      assert (front + back)[..|front + back| - 1] == front + back[..|back| - 1];
    }
  }

  lemma RecordUnlocked(s: State, a: Action)
    requires s.held == map[] && a.Record?
    ensures OutboxMachine.Step(s, a) == s.(rows := Enqueue(s.rows, a.id, a.pallet, a.call, a.payload, a.now))
  {
  }

  function RecordedAndSent(): seq<Action> {
    [Record("a", "AgentRegistry", "register_agent", Some(ODD), 0)] + [Pick(0, "a"), Submit(0, "0xa"), CommitSent(0)]
  }

  lemma RecordedAndSentRows()
    ensures var t := Execution(Empty(), RecordedAndSent());
      t.rows == map["a" := Sent(FirstRow(), "0xa")] && t.held == map[]
  {
    var record := [Record("a", "AgentRegistry", "register_agent", Some(ODD), 0)];
    var send := [Pick(0, "a"), Submit(0, "0xa"), CommitSent(0)];
    ExecutionSnoc(Empty(), [], record[0]);
    assert [] + record == record;
    RecordUnlocked(Empty(), record[0]);
    SentOnce(Execution(Empty(), record), FirstRow());
    ExecutionConcat(Empty(), record, send);
  }

  lemma TwiceRecordedRows(hash: seq<byte>)
    ensures Execution(Empty(), TwiceRecorded(hash)).rows
      == map["a" := Sent(FirstRow(), "0xa").(status := Pending), "b" := BidRowOf(hash)]
  {
    hide OutboxMachine.Step, BidFor;
    var bid := Record("b", "TaskMarket", "submit_bid", Some(BidFor(hash)), 1);
    var again := Record("a", "AgentRegistry", "register_agent", None, 2);
    RecordedAndSentRows();
    ExecutionSnoc(Empty(), RecordedAndSent(), bid);
    RecordUnlocked(Execution(Empty(), RecordedAndSent()), bid);
    ExecutionSnoc(Empty(), RecordedAndSent() + [bid], again);
    RecordUnlocked(Execution(Empty(), RecordedAndSent() + [bid]), again);
    assert RecordedAndSent() + [bid] + [again] == TwiceRecorded(hash);
  }

  lemma {:induction false} HexHasNoNul(bytes: seq<byte>)
    ensures '\0' !in Hex.Encode(bytes)
  {
    if bytes != [] {
      HexHasNoNul(bytes[1..]);
    }
  }

  lemma BidHasNoNul(hash: seq<byte>)
    ensures !HasNul(BidFor(hash))
  {
    HexHasNoNul(hash);
  }

  /** With an id recorded twice it can come to an outbox that is not calm, although every payload
      passes the check before queueing: a run from the empty table, and whatever the other tables
      hold then, some causal block is not replayed safely. */
  lemma RecordingTwiceDiverges(hash: seq<byte>, db: Db, ss58: string -> Option<seq<byte>>)
    requires |hash| == 32
    ensures Calls.Refusal("AgentRegistry", "register_agent", ODD).None?
    ensures Calls.Build("AgentRegistry", "register_agent", ODD, ss58).Ok?
    ensures Calls.Refusal("TaskMarket", "submit_bid", BidFor(hash)).None?
    ensures var rows := Execution(Empty(), TwiceRecorded(hash)).rows;
      !Calmed(rows) && !Divergence.ConvergesFrom(db.(outbox := rows))
  {
    hide Calls.Refusal, Calls.Build, BidFor;
    OddIsAccepted(ss58);
    BidIsAccepted(hash, ss58);
    BidHasNoNul(hash);
    TwiceRecordedRows(hash);
    var rows := Execution(Empty(), TwiceRecorded(hash)).rows;
    NotCalmRows(rows, "a", "b", TaskKey);
    Divergence.ConvergesIffCalm(db.(outbox := rows));
  }

  lemma NotCalmRows(rows: Table, bad: string, z: string, k: IdKey)
    requires rows.Keys == {bad, z} && Poison(rows[bad], k) && rows[bad].txHash.Some?
    requires Placeholder(rows[z], k) && !Poison(rows[z], k) && rows[z].txHash.None?
    ensures !Calm(rows, k)
  {
    assert Poisoned(rows, k);
    assert !Frozen(rows, k);
    assert !Doomed(rows, rows[z], k);
  }

  /** A payload that passes the check before queueing and makes every patch fail, of either key. */
  lemma NulIsAccepted(ss58: string -> Option<seq<byte>>)
    ensures var v := Obj(map["task_id" := Num(0), "x" := Str("\0")]);
      && Calls.Refusal("TaskMarket", "allocate_task", v).None?
      && Calls.Build("TaskMarket", "allocate_task", v, ss58) == Ok(Calls.AllocateTask(0))
      && forall k :: Poison(Row("TaskMarket", "allocate_task", Some(v), Pending, 0, None, None, None, None, 0), k)
  {
    var v := Obj(map["task_id" := Num(0), "x" := Str("\0")]);
    assert Get(v, "task_id") == Some(Num(0));
    assert HasNul(v) by {
      assert "x" in v.fields && HasNul(v.fields["x"]);
    }
  }
}
