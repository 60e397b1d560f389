/** The replay worker gets through: one undisturbed pass over a block issues all its statements and
    saves, and from every reachable state a worker that is handed the blocks once more ends with the
    tables of one clean pass over the whole chain. */
module ReplayProgress {
  import opened Basics
  import OutboxRows
  import opened Projection
  import opened Convergence
  import opened ReplayMachine

  lemma {:induction false} ExecutionConcat(chain: Chain, pick: Pick, s: State, a: seq<Action>, b: seq<Action>)
    ensures Execution(chain, pick, s, a + b) == Execution(chain, pick, Execution(chain, pick, s, a), b)
    decreases b
  {
    if b == [] {
      assert a + b == a;
    } else {
      var n := |b| - 1;
      ExecutionConcat(chain, pick, s, a, b[..n]);
      assert (a + b)[..|a + b| - 1] == a + b[..n];
    }
  }

  lemma OneStep(chain: Chain, pick: Pick, s: State, actions: seq<Action>, a: Action)
    ensures Execution(chain, pick, s, actions + [a]) == Step(chain, pick, Execution(chain, pick, s, actions), a)
  {
    assert (actions + [a])[..|actions|] == actions;
  }

  function Executes(count: nat): (actions: seq<Action>)
    ensures Alone(actions)
  {
    seq(count, _ => Execute)
  }

  lemma {:induction false} ExecutesAll(chain: Chain, pick: Pick, s: State, count: nat)
    requires s.worker.Busy? && s.worker.done == 0 && s.worker.block < |chain|
    requires count <= |Ops(chain, s.worker.block, s.worker.last, pick)|
    ensures Execution(chain, pick, s, Executes(count))
      == s.(db := Run(Ops(chain, s.worker.block, s.worker.last, pick)[..count], s.db), worker := s.worker.(done := count))
  {
    hide Apply;
    var ops := Ops(chain, s.worker.block, s.worker.last, pick);
    if count > 0 {
      ExecutesAll(chain, pick, s, count - 1);
      OneStep(chain, pick, s, Executes(count - 1), Execute);
      assert Executes(count) == Executes(count - 1) + [Execute];
      assert ops[..count][..count - 1] == ops[..count - 1];
    }
  }

  /** A block is handed out, each of its statements is issued, and the pass is saved. */
  function Pass(chain: Chain, pick: Pick, last: Cursor, n: nat): (actions: seq<Action>)
    requires n < |chain|
    ensures Alone(actions)
  {
    [Deliver(n)] + Executes(|Ops(chain, n, last, pick)|) + [Save]
  }

  /** The pass leaves the tables after the block's statements, in their order, and the cursor on the
      last supported event beyond the old one, if there is any. */
  lemma PassCompletes(chain: Chain, pick: Pick, s: State, n: nat)
    requires s.worker.Idle? && n < |chain| && n <= s.worker.reach
    ensures var last, t := s.worker.last, Execution(chain, pick, s, Pass(chain, pick, s.worker.last, n));
      var next := NextCursor(chain[n], n, last, |chain[n]|);
      && t.db == Run(Ops(chain, n, last, pick), s.db)
      && t.cursor == (if Later(next, last) then Some(next) else s.cursor)
      && t.worker == Idle(if Later(next, last) then next else last, Max(s.worker.reach, n + 1))
  {
    hide Apply, NextCursor, Ops;
    var ops := Ops(chain, n, s.worker.last, pick);
    var handed := Step(chain, pick, s, Deliver(n));
    OneStep(chain, pick, s, [], Deliver(n));
    assert [] + [Deliver(n)] == [Deliver(n)];
    ExecutesAll(chain, pick, handed, |ops|);
    assert ops[..|ops|] == ops;
    ExecutionConcat(chain, pick, s, [Deliver(n)], Executes(|ops|));
    OneStep(chain, pick, s, [Deliver(n)] + Executes(|ops|), Save);
  }

  /** A crash keeps tables and cursor; others write the outbox at any time, and nothing else; a worker
      that connects starts from the saved cursor. */
  lemma Interruptions(chain: Chain, pick: Pick, s: State, rows: OutboxRows.Table)
    ensures var t := Step(chain, pick, s, Crash); t.worker.Down? && t.db == s.db && t.cursor == s.cursor
    ensures Step(chain, pick, s, Meddle(rows)) == s.(db := s.db.(outbox := rows))
    ensures s.worker.Down? ==>
      Step(chain, pick, s, Connect)
      == s.(worker := match s.cursor case None => Idle((0, 0), 0) case Some(c) => Idle(c, c.0 + 1))
  {
  }

  // ----- to the end of the chain -----

  ghost predicate Ends(chain: Chain, pick: Pick, s: State, more: seq<Action>) {
    var t := Execution(chain, pick, s, more);
    Alone(more) && t.worker.Idle? && t.worker.reach >= |chain|
  }

  lemma {:induction false} IdleEnds(chain: Chain, pick: Pick, s: State)
    requires s.worker.Idle?
    ensures exists more :: Ends(chain, pick, s, more)
    decreases |chain| - s.worker.reach
  {
    hide Step;
    if s.worker.reach >= |chain| {
      assert Ends(chain, pick, s, []);
    } else {
      var pass := Pass(chain, pick, s.worker.last, s.worker.reach);
      PassCompletes(chain, pick, s, s.worker.reach);
      var t := Execution(chain, pick, s, pass);
      IdleEnds(chain, pick, t);
      var more :| Ends(chain, pick, t, more);
      ExecutionConcat(chain, pick, s, pass, more);
      assert Ends(chain, pick, s, pass + more);
    }
  }

  lemma EveryStateEnds(chain: Chain, pick: Pick, s: State)
    ensures exists more :: Ends(chain, pick, s, more)
  {
    var restart: seq<Action> :=
      match s.worker case Idle(_, _) => [] case Down => [Connect] case Busy(_, _, _, _) => [Crash] + [Connect];
    OneStep(chain, pick, s, [], Connect);
    OneStep(chain, pick, s, [], Crash);
    OneStep(chain, pick, s, [Crash], Connect);
    assert [] + [Connect] == [Connect] && [] + [Crash] == [Crash];
    var t := Execution(chain, pick, s, restart);
    IdleEnds(chain, pick, t);
    var more :| Ends(chain, pick, t, more);
    ExecutionConcat(chain, pick, s, restart, more);
    assert Ends(chain, pick, s, restart + more);
  }

  /** At the end nothing is under way, and no block holds anything beyond the cursor. */
  lemma EndedIsSettled(chain: Chain, pick: Pick, s: State)
    requires CursorInv(chain, pick, s) && s.worker.Idle? && s.worker.reach >= |chain|
    ensures !Unfinished(chain, pick, s)
    ensures CleanOps(chain, pick, |chain|) == CleanOps(chain, pick, FirstBlock(s.cursor))
  {
    hide Ops;
    forall m | FirstBlock(s.cursor) <= m < |chain|
      ensures Ops(chain, m, (0, 0), pick) == []
    {
      OpsAbove(chain, pick, s.cursor, m);
    }
    EmptyBlocksSkip(chain, pick, FirstBlock(s.cursor), |chain|);
  }

  ghost predicate EndsClean(chain: Chain, pick: Pick, db: Db, actions: seq<Action>) {
    Alone(actions) && Alike(Execution(chain, pick, Initial(db), actions).db, Clean(chain, pick, db, |chain|))
  }

  lemma EndIsClean(chain: Chain, pick: Pick, db: Db, actions: seq<Action>)
    requires Sound(chain, pick, db) && Alone(actions)
    requires var s := Execution(chain, pick, Initial(db), actions); s.worker.Idle? && s.worker.reach >= |chain|
    ensures EndsClean(chain, pick, db, actions)
  {
    hide Execution, Sound, CursorInv, Alike, Unfinished, CleanOps, Run;
    RunKeepsCursor(chain, pick, db, actions);
    SettledStateIsClean(chain, pick, db, actions);
    EndedIsSettled(chain, pick, Execution(chain, pick, Initial(db), actions));
  }

  /** After any run, with any crashes, there is a way on, and it leads to the tables of one clean pass
      over the whole chain. */
  lemma CanFinish(chain: Chain, pick: Pick, db: Db, actions: seq<Action>)
    requires Sound(chain, pick, db) && Alone(actions)
    ensures exists more :: EndsClean(chain, pick, db, actions + more)
  {
    hide Execution, Sound, EndsClean;
    var s := Execution(chain, pick, Initial(db), actions);
    EveryStateEnds(chain, pick, s);
    var more :| Ends(chain, pick, s, more);
    ExecutionConcat(chain, pick, Initial(db), actions, more);
    EndIsClean(chain, pick, db, actions + more);
  }
}
