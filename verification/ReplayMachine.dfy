/** The whole life of one replay worker over a finalized chain: it connects, is handed blocks,
    issues one statement at a time, saves its cursor once per block, and may stop between any
    two of these steps. The node hands out blocks contiguously from the saved cursor; it may
    repeat blocks. Meanwhile other actors may rewrite the outbox in any way. */
module ReplayMachine {
  import opened Basics
  import opened OutboxRows
  import opened PatchCalm
  import opened Projection
  import opened Convergence

  type Chain = seq<seq<Event>>

  function Ops(chain: Chain, block: nat, cursor: Cursor, pick: Pick): seq<Op>
    requires block < |chain|
  {
    BlockOps(chain[block], block, cursor, pick, |chain[block]|)
  }

  /** `reach` is the first block the node has not handed out since the last saved cursor. */
  datatype Worker =
    | Down
    | Idle(last: Cursor, reach: nat)
    | Busy(last: Cursor, reach: nat, block: nat, done: nat)

  /** `db` and `cursor` are persistent. The last three fields record history: the database when
      the cursor was saved, and where passes over block `target` were cut off since then. */
  datatype State = State(
    db: Db,
    cursor: Option<Cursor>,
    worker: Worker,
    base: Db,
    target: nat,
    cuts: seq<nat>)

  datatype Action = Connect | Deliver(block: nat) | Execute | Save | Crash | Meddle(outbox: Table)

  /** The cursor as the worker reads it: block 0, event 0 when none was ever saved. */
  function Last(cursor: Option<Cursor>): Cursor {
    if cursor.Some? then cursor.value else (0, 0)
  }

  function FirstBlock(cursor: Option<Cursor>): nat {
    if cursor.Some? then cursor.value.0 + 1 else 0
  }

  function Max(a: nat, b: nat): nat {
    if a > b then a else b
  }

  predicate Later(a: Cursor, b: Cursor) {
    a.0 > b.0 || (a.0 == b.0 && a.1 > b.1)
  }

  /** One step; a step that is not possible leaves the state as it is. */
  function Step(chain: Chain, pick: Pick, s: State, a: Action): State {
    match (a, s.worker)
    case (Connect, Down) => s.(worker := Idle(Last(s.cursor), FirstBlock(s.cursor)))
    case (Deliver(n), Idle(last, reach)) =>
      if n < |chain| && n <= reach then
        s.(worker := Busy(last, reach, n, 0), target := if Ops(chain, n, last, pick) != [] then n else s.target)
      else s
    case (Execute, Busy(last, reach, n, done)) =>
      if n < |chain| && done < |Ops(chain, n, last, pick)| then
        s.(db := Apply(Ops(chain, n, last, pick)[done], s.db), worker := Busy(last, reach, n, done + 1))
      else s
    case (Save, Busy(last, reach, n, done)) =>
      if n < |chain| && done == |Ops(chain, n, last, pick)| then
        var next := NextCursor(chain[n], n, last, |chain[n]|);
        var reach' := Max(reach, n + 1);
        if Later(next, last)
        then State(s.db, Some(next), Idle(next, reach'), s.db, s.target, [])
        else s.(worker := Idle(last, reach'))
      else s
    case (Crash, Busy(last, reach, n, done)) =>
      if n < |chain| && Ops(chain, n, last, pick) != []
      then s.(worker := Down, cuts := s.cuts + [done])
      else s.(worker := Down)
    case (Crash, Idle(_, _)) => s.(worker := Down)
    case (Meddle(rows), _) => s.(db := s.db.(outbox := rows))
    case _ => s
  }

  function Execution(chain: Chain, pick: Pick, s: State, actions: seq<Action>): State {
    if actions == [] then s
    else Step(chain, pick, Execution(chain, pick, s, actions[..|actions| - 1]), actions[|actions| - 1])
  }

  function Initial(db: Db): State {
    State(db, None, Down, db, 0, [])
  }

  // ----- one clean pass over the chain -----

  /** The statements of the first `count` blocks, each processed once. */
  function CleanOps(chain: Chain, pick: Pick, count: nat): seq<Op>
    requires count <= |chain|
  {
    if count == 0 then [] else CleanOps(chain, pick, count - 1) + Ops(chain, count - 1, (0, 0), pick)
  }

  function Clean(chain: Chain, pick: Pick, db: Db, count: nat): Db
    requires count <= |chain|
  {
    Run(CleanOps(chain, pick, count), db)
  }

  // ----- blocks and cursors -----

  lemma EventOpsNotEmpty(e: Event, block: nat, index: nat, pick: Pick)
    ensures EventOps(e, block, index, pick) != []
  {
    assert |EventOps(e, block, index, pick)| > |ProjectOps(e, block, pick)|;
  }

  lemma BlockOpsStep(events: seq<Event>, block: nat, cursor: Cursor, pick: Pick, count: nat)
    requires 0 < count <= |events|
    ensures BlockOps(events, block, cursor, pick, count) == []
       <==> BlockOps(events, block, cursor, pick, count - 1) == [] && !Wanted(events[count - 1], block, count - 1, cursor)
  {
    EventOpsNotEmpty(events[count - 1], block, count - 1, pick);
  }

  lemma {:induction false} NoWantedNoOps(events: seq<Event>, block: nat, cursor: Cursor, pick: Pick, count: nat)
    requires count <= |events|
    ensures BlockOps(events, block, cursor, pick, count) == []
       <==> forall i :: 0 <= i < count ==> !Wanted(events[i], block, i, cursor)
  {
    if count > 0 {
      NoWantedNoOps(events, block, cursor, pick, count - 1);
      BlockOpsStep(events, block, cursor, pick, count);
    }
  }

  lemma {:induction false} SameWantedSameOps(events: seq<Event>, block: nat, c: Cursor, c': Cursor, pick: Pick, count: nat)
    requires count <= |events|
    requires forall i :: 0 <= i < count ==> (Beyond(block, i, c) <==> Beyond(block, i, c'))
    ensures BlockOps(events, block, c, pick, count) == BlockOps(events, block, c', pick, count)
  {
    if count > 0 {
      SameWantedSameOps(events, block, c, c', pick, count - 1);
    }
  }

  /** The next cursor is the last wanted event, or the old cursor when there is none. */
  lemma {:induction false} NextCursorIsLast(events: seq<Event>, block: nat, cursor: Cursor, count: nat)
    requires count <= |events|
    ensures var next := NextCursor(events, block, cursor, count);
      || (next == cursor && forall i :: 0 <= i < count ==> !Wanted(events[i], block, i, cursor))
      || (next.0 == block && next.1 < count && Wanted(events[next.1], block, next.1, cursor)
          && forall i :: next.1 < i < count ==> !Wanted(events[i], block, i, cursor))
  {
    if count > 0 {
      NextCursorIsLast(events, block, cursor, count - 1);
    }
  }

  /** A cursor the worker may have saved: a supported event, the last one of its block. */
  ghost predicate Saved(chain: Chain, c: Cursor) {
    && c.0 < |chain| && c.1 < |chain[c.0]|
    && Wanted(chain[c.0][c.1], c.0, c.1, (0, 0))
    && (forall i :: c.1 < i < |chain[c.0]| ==> !IsSupported(chain[c.0][i].pallet, chain[c.0][i].variant))
  }

  /** Blocks up to a saved cursor hold nothing beyond it. */
  lemma NothingBelow(chain: Chain, pick: Pick, c: Cursor, m: nat)
    requires Saved(chain, c) && m <= c.0
    ensures Ops(chain, m, c, pick) == []
  {
    NoWantedNoOps(chain[m], m, c, pick, |chain[m]|);
  }

  lemma OpsAbove(chain: Chain, pick: Pick, cursor: Option<Cursor>, m: nat)
    requires FirstBlock(cursor) <= m < |chain|
    ensures Ops(chain, m, Last(cursor), pick) == Ops(chain, m, (0, 0), pick)
  {
    SameWantedSameOps(chain[m], m, Last(cursor), (0, 0), pick, |chain[m]|);
  }

  /** Saving after a block with work to do. */
  lemma CursorAdvances(chain: Chain, pick: Pick, c: Cursor, n: nat)
    requires n < |chain|
    ensures var next := NextCursor(chain[n], n, c, |chain[n]|);
      && (Ops(chain, n, c, pick) == [] ==> next == c)
      && (Ops(chain, n, c, pick) != [] ==> next.0 == n && Later(next, c) && Saved(chain, next))
  {
    NextCursorIsLast(chain[n], n, c, |chain[n]|);
    NoWantedNoOps(chain[n], n, c, pick, |chain[n]|);
  }

  lemma {:induction false} EmptyBlocksSkip(chain: Chain, pick: Pick, k: nat, n: nat)
    requires k <= n <= |chain|
    requires forall m :: k <= m < n ==> Ops(chain, m, (0, 0), pick) == []
    ensures CleanOps(chain, pick, n) == CleanOps(chain, pick, k)
    decreases n
  {
    if k < n {
      EmptyBlocksSkip(chain, pick, k, n - 1);
    }
  }

  lemma {:induction false} CleanOpsSplit(chain: Chain, pick: Pick, k: nat, n: nat)
    requires k <= n <= |chain|
    ensures CleanOps(chain, pick, k) <= CleanOps(chain, pick, n)
    decreases n
  {
    if k < n {
      CleanOpsSplit(chain, pick, k, n - 1);
    }
  }

  lemma CausalMiddle(db: Db, a: seq<Op>, b: seq<Op>, whole: seq<Op>)
    requires Causal(db.tasks.Keys, whole) && a + b <= whole
    ensures Causal(Run(a, db).tasks.Keys, b)
  {
    CausalPrefix(db.tasks.Keys, whole, |a + b|);
    assert whole[..|a + b|] == a + b;
    CausalSuffix(db, a, b);
  }

  /** Causal order of the chain is causal order of each block after a clean prefix. */
  lemma CausalBlock(chain: Chain, pick: Pick, db: Db, n: nat)
    requires n < |chain| && Causal(db.tasks.Keys, CleanOps(chain, pick, |chain|))
    ensures Causal(Clean(chain, pick, db, n).tasks.Keys, Ops(chain, n, (0, 0), pick))
  {
    CleanOpsSplit(chain, pick, n + 1, |chain|);
    CausalMiddle(db, CleanOps(chain, pick, n), Ops(chain, n, (0, 0), pick), CleanOps(chain, pick, |chain|));
  }

  lemma CausalSuffix(db: Db, a: seq<Op>, b: seq<Op>)
    requires Causal(db.tasks.Keys, a + b)
    ensures Causal(Run(a, db).tasks.Keys, b)
  {
    TasksAfterRun(a, db);
    forall j | 0 <= j < |b| && Need(b[j]).Some?
      ensures var t := Need(b[j]).value;
        t in Run(a, db).tasks.Keys || Creates(b[..j], t) || !Creates(b[j..], t)
    {
      var t := Need(b[j]).value;
      var ops := a + b;
      assert ops[|a| + j] == b[j] && ops[|a| + j..] == b[j..];
      assert ops[..|a| + j] == a + b[..j];
      CreatesConcat(a, b[..j], t);
    }
  }

  lemma CreatesConcat(a: seq<Op>, b: seq<Op>, t: int)
    ensures Creates(a + b, t) ==> Creates(a, t) || Creates(b, t)
  {
    if Creates(a + b, t) {
      var i :| 0 <= i < |a + b| && CreatesTask((a + b)[i], t);
      if i < |a| {
        assert CreatesTask(a[i], t);
      } else {
        assert CreatesTask(b[i - |a|], t);
      }
    }
  }

  // ----- the invariant of every run -----

  /** What is assumed of the chain and of the database the worker starts on. */
  ghost predicate Sound(chain: Chain, pick: Pick, db: Db) {
    Causal(db.tasks.Keys, CleanOps(chain, pick, |chain|)) && Calmed(db.outbox)
  }

  /** Nobody else writes the outbox during the run. */
  ghost predicate Alone(actions: seq<Action>) {
    forall i :: 0 <= i < |actions| ==> !actions[i].Meddle?
  }

  /** The unfinished passes are all over the one block that comes next. */
  ghost predicate Targeted(chain: Chain, pick: Pick, s: State) {
    var c := Last(s.cursor);
    && s.target < |chain|
    && Ops(chain, s.target, c, pick) != []
    && (forall m :: 0 <= m < s.target ==> Ops(chain, m, c, pick) == [])
  }

  ghost predicate CutsFit(ops: seq<Op>, cuts: seq<nat>) {
    forall i :: 0 <= i < |cuts| ==> cuts[i] <= |ops|
  }

  ghost predicate WorkerInv(chain: Chain, pick: Pick, s: State) {
    match s.worker
    case Down => true
    case Idle(last, reach) =>
      last == Last(s.cursor) && forall m :: 0 <= m < reach && m < |chain| ==> Ops(chain, m, last, pick) == []
    case Busy(last, reach, n, done) =>
      && last == Last(s.cursor) && n < |chain| && n <= reach && done <= |Ops(chain, n, last, pick)|
      && (forall m :: 0 <= m < reach && m < |chain| ==> Ops(chain, m, last, pick) == [])
      && (Ops(chain, n, last, pick) != [] ==> s.target == n)
  }

  predicate AtWork(chain: Chain, pick: Pick, s: State) {
    s.worker.Busy? && s.worker.block < |chain| && Ops(chain, s.worker.block, s.worker.last, pick) != []
  }

  /** A pass is under way or was cut off since the last save. */
  predicate Unfinished(chain: Chain, pick: Pick, s: State) {
    AtWork(chain, pick, s) || s.cuts != []
  }

  /** What holds of cursor and worker whatever the tables hold. */
  ghost predicate CursorInv(chain: Chain, pick: Pick, s: State) {
    && (s.cursor.Some? ==> Saved(chain, s.cursor.value))
    && FirstBlock(s.cursor) <= |chain|
    && WorkerInv(chain, pick, s)
    && (Unfinished(chain, pick, s) ==>
          Targeted(chain, pick, s) && CutsFit(Ops(chain, s.target, Last(s.cursor), pick), s.cuts))
  }

  ghost predicate DbInv(chain: Chain, pick: Pick, s: State)
    requires CursorInv(chain, pick, s)
  {
    if Unfinished(chain, pick, s) then
      var ops := Ops(chain, s.target, Last(s.cursor), pick);
      var before := Interrupted(ops, s.cuts, s.base);
      s.db == if AtWork(chain, pick, s) then Run(ops[..s.worker.done], before) else before
    else s.db == s.base
  }

  ghost predicate Inv(chain: Chain, pick: Pick, db0: Db, s: State) {
    && CursorInv(chain, pick, s)
    && DbInv(chain, pick, s)
    && Alike(s.base, Clean(chain, pick, db0, FirstBlock(s.cursor)))
  }

  lemma InitialInv(chain: Chain, pick: Pick, db: Db)
    ensures Inv(chain, pick, db, Initial(db))
  {
    SameAlike(db);
  }

  lemma ConnectKeepsCursor(chain: Chain, pick: Pick, s: State)
    requires CursorInv(chain, pick, s)
    ensures CursorInv(chain, pick, Step(chain, pick, s, Connect))
  {
    if s.worker.Down? && s.cursor.Some? {
      forall m | 0 <= m < FirstBlock(s.cursor)
        ensures Ops(chain, m, s.cursor.value, pick) == []
      {
        NothingBelow(chain, pick, s.cursor.value, m);
      }
    }
  }

  /** Under contiguous delivery the block with work to do is the same one every time. */
  lemma DeliverKeepsCursor(chain: Chain, pick: Pick, s: State, n: nat)
    requires CursorInv(chain, pick, s)
    ensures CursorInv(chain, pick, Step(chain, pick, s, Deliver(n)))
    ensures s.cuts != [] ==> Step(chain, pick, s, Deliver(n)).target == s.target
  {
    if s.worker.Idle? && n < |chain| && n <= s.worker.reach {
      if Ops(chain, n, s.worker.last, pick) != [] {
        assert n == s.worker.reach;
        assert s.cuts != [] ==> s.target == n;
      }
    }
  }

  lemma CrashKeepsCursor(chain: Chain, pick: Pick, s: State)
    requires CursorInv(chain, pick, s)
    ensures CursorInv(chain, pick, Step(chain, pick, s, Crash))
  {
  }

  lemma SaveKeepsCursor(chain: Chain, pick: Pick, s: State)
    requires CursorInv(chain, pick, s)
    ensures CursorInv(chain, pick, Step(chain, pick, s, Save))
  {
    if ReadyToSave(chain, pick, s) {
      SaveEffect(chain, pick, s);
      if AtWork(chain, pick, s) {
        var n, last := s.worker.block, s.worker.last;
        var next := NextCursor(chain[n], n, last, |chain[n]|);
        CursorAdvances(chain, pick, last, n);
        assert s.worker.reach == n;
        forall m | 0 <= m < n + 1
          ensures Ops(chain, m, next, pick) == []
        {
          NothingBelow(chain, pick, next, m);
        }
      }
    }
  }

  lemma StepKeepsCursor(chain: Chain, pick: Pick, s: State, a: Action)
    requires CursorInv(chain, pick, s)
    ensures CursorInv(chain, pick, Step(chain, pick, s, a))
  {
    match a
    case Connect => ConnectKeepsCursor(chain, pick, s);
    case Deliver(n) => DeliverKeepsCursor(chain, pick, s, n);
    case Save => SaveKeepsCursor(chain, pick, s);
    case Crash => CrashKeepsCursor(chain, pick, s);
    case _ =>
  }

  /** The cursor's part of the invariant holds in every state of every run, on any chain, from any
      database, whatever else is written meanwhile. */
  lemma {:induction false} RunKeepsCursor(chain: Chain, pick: Pick, db: Db, actions: seq<Action>)
    ensures CursorInv(chain, pick, Execution(chain, pick, Initial(db), actions))
  {
    if actions != [] {
      var front := actions[..|actions| - 1];
      RunKeepsCursor(chain, pick, db, front);
      StepKeepsCursor(chain, pick, Execution(chain, pick, Initial(db), front), actions[|actions| - 1]);
    }
  }

  lemma QuietStepKeepsDb(chain: Chain, pick: Pick, s: State, a: Action)
    requires CursorInv(chain, pick, s) && DbInv(chain, pick, s) && (a.Connect? || a.Deliver?)
    ensures CursorInv(chain, pick, Step(chain, pick, s, a)) && DbInv(chain, pick, Step(chain, pick, s, a))
  {
    StepKeepsCursor(chain, pick, s, a);
    var t := Step(chain, pick, s, a);
    if AtWork(chain, pick, t) && a.Deliver? {
      DeliverKeepsCursor(chain, pick, s, a.block);
      var ops := Ops(chain, t.target, Last(t.cursor), pick);
      assert t == s || ops[..t.worker.done] == [];
    }
  }

  lemma ExecuteKeepsDb(chain: Chain, pick: Pick, s: State)
    requires CursorInv(chain, pick, s) && DbInv(chain, pick, s)
    ensures CursorInv(chain, pick, Step(chain, pick, s, Execute)) && DbInv(chain, pick, Step(chain, pick, s, Execute))
  {
    if AtWork(chain, pick, s) && s.worker.done < |Ops(chain, s.target, Last(s.cursor), pick)| {
      var ops := Ops(chain, s.target, Last(s.cursor), pick);
      RunStep(ops, s.worker.done, Interrupted(ops, s.cuts, s.base));
    }
  }

  lemma CrashKeepsDb(chain: Chain, pick: Pick, s: State)
    requires CursorInv(chain, pick, s) && DbInv(chain, pick, s)
    ensures CursorInv(chain, pick, Step(chain, pick, s, Crash)) && DbInv(chain, pick, Step(chain, pick, s, Crash))
  {
    CrashKeepsCursor(chain, pick, s);
    if AtWork(chain, pick, s) {
      var cuts := s.cuts + [s.worker.done];
      assert cuts[..|cuts| - 1] == s.cuts;
    }
  }

  /** The pass that is about to be saved leaves what a clean pass would have left. */
  lemma CompletedPass(chain: Chain, pick: Pick, db0: Db, s: State)
    requires Sound(chain, pick, db0) && Inv(chain, pick, db0, s) && AtWork(chain, pick, s)
    requires s.worker.done == |Ops(chain, s.target, Last(s.cursor), pick)|
    ensures Alike(s.db, Clean(chain, pick, db0, s.target + 1))
  {
    var k, n := FirstBlock(s.cursor), s.target;
    var ops := Ops(chain, n, Last(s.cursor), pick);
    if s.cursor.Some? && n <= s.cursor.value.0 {
      NothingBelow(chain, pick, s.cursor.value, n);
    }
    OpsAbove(chain, pick, s.cursor, n);
    forall m | k <= m < n
      ensures Ops(chain, m, (0, 0), pick) == []
    {
      OpsAbove(chain, pick, s.cursor, m);
    }
    EmptyBlocksSkip(chain, pick, k, n);
    var clean := Clean(chain, pick, db0, n);
    CausalBlock(chain, pick, db0, n);
    CalmedAfterRun(CleanOps(chain, pick, n), db0);
    assert ops[..|ops|] == ops;
    ReplayConvergesAfterCrashes(ops, s.cuts, s.base);
    RunAlike(ops, s.base, clean);
    RunConcat(CleanOps(chain, pick, n), ops, db0);
    AlikeTransitive(s.db, Run(ops, s.base), Run(ops, clean));
  }

  predicate ReadyToSave(chain: Chain, pick: Pick, s: State) {
    s.worker.Busy? && s.worker.block < |chain| && s.worker.done == |Ops(chain, s.worker.block, s.worker.last, pick)|
  }

  /** Saving after an empty block moves on; saving after any other moves the cursor there. */
  lemma SaveEffect(chain: Chain, pick: Pick, s: State)
    requires ReadyToSave(chain, pick, s)
    ensures var n, last := s.worker.block, s.worker.last;
      var next := NextCursor(chain[n], n, last, |chain[n]|);
      var reach := Max(s.worker.reach, n + 1);
      Step(chain, pick, s, Save) == if AtWork(chain, pick, s)
        then State(s.db, Some(next), Idle(next, reach), s.db, s.target, [])
        else s.(worker := Idle(last, reach))
  {
    CursorAdvances(chain, pick, s.worker.last, s.worker.block);
  }

  lemma SaveKeepsDb(chain: Chain, pick: Pick, s: State)
    requires CursorInv(chain, pick, s) && DbInv(chain, pick, s)
    ensures CursorInv(chain, pick, Step(chain, pick, s, Save)) && DbInv(chain, pick, Step(chain, pick, s, Save))
  {
    hide Run, Apply, Interrupted, NextCursor;
    SaveKeepsCursor(chain, pick, s);
    if ReadyToSave(chain, pick, s) {
      SaveEffect(chain, pick, s);
    }
  }

  lemma SaveKeepsInv(chain: Chain, pick: Pick, db0: Db, s: State)
    requires Sound(chain, pick, db0) && Inv(chain, pick, db0, s)
    ensures Inv(chain, pick, db0, Step(chain, pick, s, Save))
  {
    hide Sound, Alike, Run, Apply, Interrupted, NextCursor, DbInv, Clean;
    SaveKeepsDb(chain, pick, s);
    if ReadyToSave(chain, pick, s) {
      SaveEffect(chain, pick, s);
      if AtWork(chain, pick, s) {
        CursorAdvances(chain, pick, s.worker.last, s.worker.block);
        CompletedPass(chain, pick, db0, s);
      }
    }
  }

  lemma StepKeepsInv(chain: Chain, pick: Pick, db0: Db, s: State, a: Action)
    requires Sound(chain, pick, db0) && Inv(chain, pick, db0, s) && !a.Meddle?
    ensures Inv(chain, pick, db0, Step(chain, pick, s, a))
  {
    hide Alike, Run, CursorInv, DbInv;
    match a
    case Execute => ExecuteKeepsDb(chain, pick, s);
    case Save => SaveKeepsInv(chain, pick, db0, s);
    case Crash => CrashKeepsDb(chain, pick, s);
    case _ => QuietStepKeepsDb(chain, pick, s, a);
  }

  /** Every state of every run satisfies the invariant. */
  lemma {:induction false} RunInv(chain: Chain, pick: Pick, db: Db, actions: seq<Action>)
    requires Sound(chain, pick, db) && Alone(actions)
    ensures Inv(chain, pick, db, Execution(chain, pick, Initial(db), actions))
  {
    if actions == [] {
      InitialInv(chain, pick, db);
    } else {
      var front := actions[..|actions| - 1];
      RunInv(chain, pick, db, front);
      StepKeepsInv(chain, pick, db, Execution(chain, pick, Initial(db), front), actions[|actions| - 1]);
    }
  }

  /** Convergence over the whole life of the worker: after any run whatsoever, if no pass is
      under way or was cut off since the last save, the tables are those of one clean pass
      over all blocks up to the saved cursor. */
  lemma SettledStateIsClean(chain: Chain, pick: Pick, db: Db, actions: seq<Action>)
    requires Sound(chain, pick, db) && Alone(actions)
    ensures var s := Execution(chain, pick, Initial(db), actions);
      FirstBlock(s.cursor) <= |chain| &&
      (!Unfinished(chain, pick, s) ==> Alike(s.db, Clean(chain, pick, db, FirstBlock(s.cursor))))
  {
    RunInv(chain, pick, db, actions);
  }

  // ----- the tables other than the outbox -----

  function Strip(db: Db): Db {
    db.(outbox := map[])
  }

  lemma StripTask(db: Db, task: u64, requester: string, budget: nat)
    ensures Strip(UpsertTask(db, task, requester, budget)) == UpsertTask(Strip(db), task, requester, budget)
  {
  }

  lemma StripBid(db: Db, task: u64, agent: u64, block: nat, pick: Pick)
    ensures Strip(InsertBid(db, task, agent, block, pick)) == InsertBid(Strip(db), task, agent, block, pick)
  {
    hide BidDid, AgentBytes;
    InsertBidFrame(db, task, agent, block, pick);
    InsertBidFrame(Strip(db), task, agent, block, pick);
    var key := (AsI64(task), AgentBytes(agent));
    if key in db.bids {
      assert InsertBid(db, task, agent, block, pick).bids == db.bids;
    } else {
      var row := BidRow(db.next, BidDid(db.agents, agent, pick), block);
      assert InsertBid(db, task, agent, block, pick).bids == db.bids[key := row];
      assert InsertBid(Strip(db), task, agent, block, pick).bids == db.bids[key := row];
    }
  }

  lemma StripResult(db: Db, task: u64, agent: u64, block: nat)
    ensures Strip(UpsertResult(db, task, agent, block)) == UpsertResult(Strip(db), task, agent, block)
  {
  }

  lemma StripOutbox(op: Op, db: Db)
    requires op.PatchPending? || op.Finalize?
    ensures Strip(Apply(op, db)) == Strip(db) == Apply(op, Strip(db))
  {
    match op
    case PatchPending(_, key, id) => assert Patch(map[], key, AsI64(id)) == map[];
    case Finalize(_, tx, task, agent) => assert FinalizeByHash(map[], tx, OptI64(task), OptI64(agent)) == map[];
  }

  lemma StripApply(op: Op, db: Db)
    ensures Strip(Apply(op, db)) == Apply(op, Strip(db))
  {
    hide UpsertTask, InsertBid, UpsertResult, Patch, FinalizeByHash;
    match op
    case PutTask(task, requester, budget) => StripTask(db, task, requester, budget);
    case PutBid(task, agent, block, pick) => StripBid(db, task, agent, block, pick);
    case PutResult(task, agent, block) => StripResult(db, task, agent, block);
    case PatchPending(_, _, _) => StripOutbox(op, db);
    case Finalize(_, _, _, _) => StripOutbox(op, db);
    case _ =>
  }

  lemma {:induction false} StripRun(ops: seq<Op>, db: Db)
    ensures Strip(Run(ops, db)) == Run(ops, Strip(db))
  {
    if ops != [] {
      StripRun(ops[..|ops| - 1], db);
      StripApply(ops[|ops| - 1], Run(ops[..|ops| - 1], db));
    }
  }

  function StripState(s: State): State {
    s.(db := Strip(s.db), base := Strip(s.base))
  }

  function Undisturbed(actions: seq<Action>): seq<Action> {
    if actions == [] then []
    else
      var front := Undisturbed(actions[..|actions| - 1]);
      if actions[|actions| - 1].Meddle? then front else front + [actions[|actions| - 1]]
  }

  lemma StripStep(chain: Chain, pick: Pick, s: State, a: Action)
    ensures StripState(Step(chain, pick, s, a)) == if a.Meddle? then StripState(s) else Step(chain, pick, StripState(s), a)
  {
    if a.Execute? && s.worker.Busy? && s.worker.block < |chain| {
      var ops := Ops(chain, s.worker.block, s.worker.last, pick);
      if s.worker.done < |ops| {
        StripApply(ops[s.worker.done], s.db);
      }
    }
  }

  lemma {:induction false} StripExecution(chain: Chain, pick: Pick, s: State, actions: seq<Action>)
    ensures StripState(Execution(chain, pick, s, actions)) == Execution(chain, pick, StripState(s), Undisturbed(actions))
    ensures Alone(Undisturbed(actions))
  {
    if actions != [] {
      var front, a := actions[..|actions| - 1], actions[|actions| - 1];
      StripExecution(chain, pick, s, front);
      StripStep(chain, pick, Execution(chain, pick, s, front), a);
      if !a.Meddle? {
        assert Undisturbed(actions)[..|Undisturbed(actions)| - 1] == Undisturbed(front);
      }
    }
  }

  /** Whatever others do to the outbox, and whether or not it is calm: agents, tasks, bids, results
      and the log are those of one clean pass. */
  lemma SettledTablesAreClean(chain: Chain, pick: Pick, db: Db, actions: seq<Action>)
    requires Causal(db.tasks.Keys, CleanOps(chain, pick, |chain|))
    ensures var s := Execution(chain, pick, Initial(db), actions);
      FirstBlock(s.cursor) <= |chain| &&
      (!Unfinished(chain, pick, s) ==> Alike(Strip(s.db), Strip(Clean(chain, pick, db, FirstBlock(s.cursor)))))
  {
    var s := Execution(chain, pick, Initial(db), actions);
    StripExecution(chain, pick, Initial(db), actions);
    SettledStateIsClean(chain, pick, Strip(db), Undisturbed(actions));
    StripRun(CleanOps(chain, pick, FirstBlock(s.cursor)), db);
  }

  // ----- the cursor -----

  /** One step never moves the saved cursor back. */
  lemma StepCursorMonotone(chain: Chain, pick: Pick, s: State, a: Action)
    requires CursorInv(chain, pick, s)
    ensures var t := Step(chain, pick, s, a);
      (s.cursor.Some? ==> t.cursor.Some?) && !Later(Last(s.cursor), Last(t.cursor))
  {
  }

  /** Nor does any run, on any chain, from any database, whatever else is written meanwhile: the
      saved cursor never decreases. */
  lemma {:induction false} CursorMonotone(chain: Chain, pick: Pick, db: Db, actions: seq<Action>, i: nat)
    requires i <= |actions|
    ensures !Later(Last(Execution(chain, pick, Initial(db), actions[..i]).cursor),
                   Last(Execution(chain, pick, Initial(db), actions).cursor))
    decreases |actions|
  {
    if i == |actions| {
      assert actions[..i] == actions;
    } else {
      var front := actions[..|actions| - 1];
      assert front[..i] == actions[..i];
      CursorMonotone(chain, pick, db, front, i);
      RunKeepsCursor(chain, pick, db, front);
      StepCursorMonotone(chain, pick, Execution(chain, pick, Initial(db), front), actions[|actions| - 1]);
    }
  }
}
