/** The event log is exact: whatever crashes, reconnects and repeated deliveries a run contains,
    the log holds each supported event up to the saved cursor once, nothing unsupported, and
    beyond the cursor at most part of one block. */
module EventLog {
  import opened Basics
  import opened Projection
  import opened Convergence
  import opened ReplayMachine

  function RowOf(e: Event): LogRow {
    LogRow(e.pallet, e.variant, e.payload, e.correlation)
  }

  /** The key names a wanted event of the chain. */
  predicate IsWanted(chain: Chain, key: (nat, nat), cursor: Cursor) {
    key.0 < |chain| && key.1 < |chain[key.0]| && Wanted(chain[key.0][key.1], key.0, key.1, cursor)
  }

  // ----- statements and the log -----

  predicate Writes(ops: seq<Op>, key: (nat, nat), row: LogRow) {
    exists j :: 0 <= j < |ops| && ops[j] == WriteLog(key, row)
  }

  lemma LogStep(op: Op, db: Db)
    ensures Apply(op, db).log == if op.WriteLog? && op.at !in db.log then db.log[op.at := op.row] else db.log
  {
  }

  lemma WritesSnoc(ops: seq<Op>, key: (nat, nat), row: LogRow)
    requires ops != []
    ensures Writes(ops, key, row) <==> Writes(ops[..|ops| - 1], key, row) || ops[|ops| - 1] == WriteLog(key, row)
  {
    var front := ops[..|ops| - 1];
    if Writes(front, key, row) {
      var j :| 0 <= j < |front| && front[j] == WriteLog(key, row);
      assert ops[j] == WriteLog(key, row);
    }
    if Writes(ops, key, row) && ops[|ops| - 1] != WriteLog(key, row) {
      var j :| 0 <= j < |ops| && ops[j] == WriteLog(key, row);
      assert front[j] == WriteLog(key, row);
    }
  }

  /** Insert-or-ignore: old entries stay as they are, new ones come from the statements, and
      every entry a statement names is there afterwards. */
  lemma {:induction false} LogAfterRun(ops: seq<Op>, db: Db, key: (nat, nat))
    ensures key in db.log ==> key in Run(ops, db).log && Run(ops, db).log[key] == db.log[key]
    ensures key !in db.log && key in Run(ops, db).log ==> Writes(ops, key, Run(ops, db).log[key])
    ensures forall row :: Writes(ops, key, row) ==> key in Run(ops, db).log
  {
    if ops != [] {
      var front := ops[..|ops| - 1];
      LogAfterRun(front, db, key);
      LogStep(ops[|ops| - 1], Run(front, db));
      forall row
        ensures Writes(ops, key, row) <==> Writes(front, key, row) || ops[|ops| - 1] == WriteLog(key, row)
      {
        WritesSnoc(ops, key, row);
      }
    }
  }

  lemma WritesConcat(a: seq<Op>, b: seq<Op>, key: (nat, nat), row: LogRow)
    ensures Writes(a + b, key, row) <==> Writes(a, key, row) || Writes(b, key, row)
  {
    if Writes(a, key, row) {
      var j :| 0 <= j < |a| && a[j] == WriteLog(key, row);
      assert (a + b)[j] == WriteLog(key, row);
    }
    if Writes(b, key, row) {
      var j :| 0 <= j < |b| && b[j] == WriteLog(key, row);
      assert (a + b)[|a| + j] == WriteLog(key, row);
    }
    if Writes(a + b, key, row) {
      var j :| 0 <= j < |a + b| && (a + b)[j] == WriteLog(key, row);
      assert j < |a| ==> a[j] == WriteLog(key, row);
      assert j >= |a| ==> b[j - |a|] == WriteLog(key, row);
    }
  }

  lemma EventWrites(e: Event, block: nat, index: nat, pick: Pick, key: (nat, nat), row: LogRow)
    ensures Writes(EventOps(e, block, index, pick), key, row) <==> key == (block, index) && row == RowOf(e)
  {
    var log := [WriteLog((block, index), RowOf(e))];
    WritesConcat(ProjectOps(e, block, pick), log, key, row);
    ProjectionsDoNotLog(e, block, pick, key, row);
    assert log[0] == WriteLog((block, index), RowOf(e));
  }

  lemma ProjectionsDoNotLog(e: Event, block: nat, pick: Pick, key: (nat, nat), row: LogRow)
    ensures !Writes(ProjectOps(e, block, pick), key, row)
  {
  }

  lemma NextEventWrites(
      events: seq<Event>, block: nat, cursor: Cursor, pick: Pick, count: nat, key: (nat, nat), row: LogRow)
    requires 0 < count <= |events|
    ensures Writes(BlockOps(events, block, cursor, pick, count), key, row)
       <==> Writes(BlockOps(events, block, cursor, pick, count - 1), key, row)
            || (Wanted(events[count - 1], block, count - 1, cursor) && key == (block, count - 1) && row == RowOf(events[count - 1]))
  {
    var e := events[count - 1];
    var front := BlockOps(events, block, cursor, pick, count - 1);
    if Wanted(e, block, count - 1, cursor) {
      EventWrites(e, block, count - 1, pick, key, row);
      WritesConcat(front, EventOps(e, block, count - 1, pick), key, row);
    } else {
      assert BlockOps(events, block, cursor, pick, count) == front;
    }
  }

  /** The log statements of a block name exactly its wanted events. */
  lemma {:induction false} BlockWrites(
      events: seq<Event>, block: nat, cursor: Cursor, pick: Pick, count: nat, key: (nat, nat), row: LogRow)
    requires count <= |events|
    ensures Writes(BlockOps(events, block, cursor, pick, count), key, row)
       <==> key.0 == block && key.1 < count && Wanted(events[key.1], block, key.1, cursor) && row == RowOf(events[key.1])
  {
    if count > 0 {
      BlockWrites(events, block, cursor, pick, count - 1, key, row);
      NextEventWrites(events, block, cursor, pick, count, key, row);
    }
  }

  // ----- every state of every run -----

  /** Every log statement of the pass under way that has been issued has its entry. */
  ghost predicate IssuedLogged(chain: Chain, pick: Pick, s: State, key: (nat, nat))
    requires CursorInv(chain, pick, s)
  {
    AtWork(chain, pick, s) ==>
      var ops := Ops(chain, s.worker.block, s.worker.last, pick);
      forall j :: 0 <= j < s.worker.done && ops[j].WriteLog? && ops[j].at == key ==> key in s.db.log
  }

  /** The entry of one key: at the last save the log held the supported events up to the cursor;
      since then it has only gained events of the block under way. */
  ghost predicate LogInv(chain: Chain, pick: Pick, s: State, key: (nat, nat))
    requires CursorInv(chain, pick, s)
  {
    && (key in s.base.log <==> key.0 < FirstBlock(s.cursor) && IsWanted(chain, key, (0, 0)))
    && (key in s.base.log ==> key in s.db.log)
    && (key in s.db.log ==> IsWanted(chain, key, (0, 0)) && s.db.log[key] == RowOf(chain[key.0][key.1]))
    && (key in s.db.log && key !in s.base.log ==> Unfinished(chain, pick, s) && key.0 == s.target)
    && IssuedLogged(chain, pick, s, key)
  }

  lemma LogStatement(chain: Chain, pick: Pick, s: State, j: nat, key: (nat, nat))
    requires CursorInv(chain, pick, s) && AtWork(chain, pick, s)
    requires var ops := Ops(chain, s.target, Last(s.cursor), pick); j < |ops| && ops[j].WriteLog? && ops[j].at == key
    ensures key.0 == s.target && IsWanted(chain, key, (0, 0))
    ensures Ops(chain, s.target, Last(s.cursor), pick)[j].row == RowOf(chain[key.0][key.1])
  {
    var ops := Ops(chain, s.target, Last(s.cursor), pick);
    assert Writes(ops, key, ops[j].row);
    BlockWrites(chain[s.target], s.target, Last(s.cursor), pick, |chain[s.target]|, key, ops[j].row);
  }

  lemma ExecuteKeepsLog(chain: Chain, pick: Pick, s: State, key: (nat, nat))
    requires CursorInv(chain, pick, s) && LogInv(chain, pick, s, key)
    ensures CursorInv(chain, pick, Step(chain, pick, s, Execute)) && LogInv(chain, pick, Step(chain, pick, s, Execute), key)
  {
    hide Apply;
    StepKeepsCursor(chain, pick, s, Execute);
    if AtWork(chain, pick, s) && s.worker.done < |Ops(chain, s.target, Last(s.cursor), pick)| {
      var op := Ops(chain, s.target, Last(s.cursor), pick)[s.worker.done];
      LogStep(op, s.db);
      if op.WriteLog? && op.at == key {
        LogStatement(chain, pick, s, s.worker.done, key);
      }
    }
  }

  /** When a pass is complete, the log holds every supported event up to its block. */
  lemma CompleteLog(chain: Chain, pick: Pick, s: State, key: (nat, nat))
    requires CursorInv(chain, pick, s) && LogInv(chain, pick, s, key) && AtWork(chain, pick, s) && ReadyToSave(chain, pick, s)
    ensures key in s.db.log <==> key.0 < s.target + 1 && IsWanted(chain, key, (0, 0))
  {
    var n, c := s.target, Last(s.cursor);
    NoWantedNoOps(chain[n], n, c, pick, |chain[n]|);
    if s.cursor.Some? && n <= s.cursor.value.0 {
      NothingBelow(chain, pick, s.cursor.value, n);
    }
    if key.0 < n {
      assert Ops(chain, key.0, c, pick) == [];
      NoWantedNoOps(chain[key.0], key.0, c, pick, |chain[key.0]|);
    }
    if key.0 <= n && IsWanted(chain, key, (0, 0)) && key.0 >= FirstBlock(s.cursor) {
      assert Wanted(chain[key.0][key.1], key.0, key.1, c);
      BlockWrites(chain[n], n, c, pick, |chain[n]|, key, RowOf(chain[n][key.1]));
      var ops := Ops(chain, n, c, pick);
      var j :| 0 <= j < |ops| && ops[j] == WriteLog(key, RowOf(chain[n][key.1]));
      assert ops[j].at == key;
    }
  }

  lemma SaveKeepsLog(chain: Chain, pick: Pick, s: State, key: (nat, nat))
    requires CursorInv(chain, pick, s) && LogInv(chain, pick, s, key)
    ensures CursorInv(chain, pick, Step(chain, pick, s, Save)) && LogInv(chain, pick, Step(chain, pick, s, Save), key)
  {
    hide NextCursor, BlockOps;
    StepKeepsCursor(chain, pick, s, Save);
    if ReadyToSave(chain, pick, s) {
      SaveEffect(chain, pick, s);
      if AtWork(chain, pick, s) {
        CursorAdvances(chain, pick, s.worker.last, s.worker.block);
        CompleteLog(chain, pick, s, key);
      }
    }
  }

  lemma StepKeepsLog(chain: Chain, pick: Pick, s: State, a: Action, key: (nat, nat))
    requires CursorInv(chain, pick, s) && LogInv(chain, pick, s, key)
    ensures CursorInv(chain, pick, Step(chain, pick, s, a)) && LogInv(chain, pick, Step(chain, pick, s, a), key)
  {
    hide BlockOps;
    StepKeepsCursor(chain, pick, s, a);
    match a
    case Execute => ExecuteKeepsLog(chain, pick, s, key);
    case Save => SaveKeepsLog(chain, pick, s, key);
    case Deliver(n) => DeliverKeepsCursor(chain, pick, s, n);
    case _ =>
  }

  lemma {:induction false} RunKeepsLog(chain: Chain, pick: Pick, db: Db, actions: seq<Action>, key: (nat, nat))
    requires db.log == map[]
    ensures var s := Execution(chain, pick, Initial(db), actions);
      CursorInv(chain, pick, s) && LogInv(chain, pick, s, key)
  {
    RunKeepsCursor(chain, pick, db, actions);
    if actions != [] {
      var front := actions[..|actions| - 1];
      RunKeepsLog(chain, pick, db, front, key);
      StepKeepsLog(chain, pick, Execution(chain, pick, Initial(db), front), actions[|actions| - 1], key);
    }
  }

  /** Up to the cursor is the same as in a block up to the cursor's. */
  lemma UpToCursor(chain: Chain, cursor: Option<Cursor>, key: (nat, nat))
    requires cursor.Some? ==> Saved(chain, cursor.value)
    requires IsWanted(chain, key, (0, 0))
    ensures key.0 < FirstBlock(cursor) <==> !Later(key, Last(cursor))
  {
  }

  /** A supported event of the chain. The very first place is where a missing cursor stands. */
  predicate IsSupportedAt(chain: Chain, key: (nat, nat)) {
    && key.0 < |chain| && key.1 < |chain[key.0]| && key != (0, 0)
    && IsSupported(chain[key.0][key.1].pallet, chain[key.0][key.1].variant)
  }

  lemma WantedAtStart(chain: Chain, key: (nat, nat))
    ensures IsWanted(chain, key, (0, 0)) <==> IsSupportedAt(chain, key)
  {
  }

  /** On any chain, from any database with an empty log, whatever others write to the outbox
      meanwhile. */
  lemma ExactlyOnceLog(chain: Chain, pick: Pick, db: Db, actions: seq<Action>, key: (nat, nat))
    requires db.log == map[]
    ensures var s := Execution(chain, pick, Initial(db), actions);
      && (!Later(key, Last(s.cursor)) ==> (key in s.db.log <==> IsSupportedAt(chain, key)))
      && (Later(key, Last(s.cursor)) && key in s.db.log ==> IsSupportedAt(chain, key) && key.0 == s.target)
      && (key in s.db.log ==>
            var e, row := chain[key.0][key.1], s.db.log[key];
            row.pallet == e.pallet && row.variant == e.variant && row.payload == e.payload && row.correlation == e.correlation)
  {
    hide CursorInv, IsWanted, IsSupportedAt;
    var s := Execution(chain, pick, Initial(db), actions);
    RunKeepsLog(chain, pick, db, actions, key);
    WantedAtStart(chain, key);
    if IsWanted(chain, key, (0, 0)) {
      UpToCursor(chain, s.cursor, key);
    }
  }

  // ----- when a block's events cannot be fetched -----

  /** The block holds a supported event beyond the cursor. */
  ghost predicate Holds(chain: Chain, block: nat, cursor: Cursor) {
    exists i: nat :: IsWanted(chain, (block, i), cursor)
  }

  /** One subscription that is handed consecutive blocks from any one on; `fetched` says which of
      them had their events fetched. The others are skipped. */
  function SessionCursor(chain: Chain, cursor: Cursor, from: nat, fetched: seq<bool>): Cursor
    requires from + |fetched| <= |chain|
  {
    if fetched == [] then cursor
    else
      var last := |fetched| - 1;
      var before := SessionCursor(chain, cursor, from, fetched[..last]);
      if fetched[last] then NextCursor(chain[from + last], from + last, before, |chain[from + last]|) else before
  }

  predicate Fetched(from: nat, fetched: seq<bool>, block: nat) {
    from <= block < from + |fetched| && fetched[block - from]
  }

  predicate Skipped(from: nat, fetched: seq<bool>, block: nat) {
    from <= block < from + |fetched| && !fetched[block - from]
  }

  /** `before` is the cursor after earlier blocks of a session that began at `cursor`. */
  lemma FetchedBlock(chain: Chain, cursor: Cursor, before: Cursor, block: nat)
    requires block < |chain| && (before == cursor || cursor.0 <= before.0 < block)
    ensures var next := NextCursor(chain[block], block, before, |chain[block]|);
      if Holds(chain, block, cursor) then next.0 == block && IsWanted(chain, next, cursor) else next == before
  {
    NextCursorIsLast(chain[block], block, before, |chain[block]|);
    var next := NextCursor(chain[block], block, before, |chain[block]|);
    assert forall i: nat :: Beyond(block, i, before) <==> Beyond(block, i, cursor);
    if next != before {
      assert IsWanted(chain, (block, next.1), cursor);
    } else if Holds(chain, block, cursor) {
      var i: nat :| IsWanted(chain, (block, i), cursor);
      assert Wanted(chain[block][i], block, i, before);
    }
  }

  /** The session's cursor stands in its last fetched block that holds events, if there is one. */
  lemma {:induction false} SessionCursorBlock(chain: Chain, cursor: Cursor, from: nat, fetched: seq<bool>)
    requires from + |fetched| <= |chain|
    ensures var c := SessionCursor(chain, cursor, from, fetched);
      && (c == cursor || (Fetched(from, fetched, c.0) && IsWanted(chain, c, cursor)))
      && (forall b: nat :: Fetched(from, fetched, b) && Holds(chain, b, cursor) ==> c != cursor && b <= c.0)
  {
    if fetched != [] {
      var last := |fetched| - 1;
      var front := fetched[..last];
      SessionCursorBlock(chain, cursor, from, front);
      FetchedBlock(chain, cursor, SessionCursor(chain, cursor, from, front), from + last);
      assert forall b: nat :: Fetched(from, front, b) <==> Fetched(from, fetched, b) && b != from + last;
    }
  }

  /** A skipped block loses events for good exactly when a later block of the session is fetched
      and holds a supported event beyond the first cursor: that one carries the cursor past the
      gap. */
  lemma SkippedBlockLosesEvents(chain: Chain, cursor: Cursor, from: nat, fetched: seq<bool>)
    requires from + |fetched| <= |chain|
    ensures
      var c := SessionCursor(chain, cursor, from, fetched);
      (exists key: (nat, nat) :: IsWanted(chain, key, cursor) && Skipped(from, fetched, key.0) && !Later(key, c))
      <==>
      (exists b: nat, d: nat ::
         b < d && Skipped(from, fetched, b) && Holds(chain, b, cursor) && Fetched(from, fetched, d) && Holds(chain, d, cursor))
  {
    var c := SessionCursor(chain, cursor, from, fetched);
    SessionCursorBlock(chain, cursor, from, fetched);
    if b: nat, d: nat :|
      b < d && Skipped(from, fetched, b) && Holds(chain, b, cursor) && Fetched(from, fetched, d) && Holds(chain, d, cursor) {
      var i: nat :| IsWanted(chain, (b, i), cursor);
      assert !Later((b, i), c) && Skipped(from, fetched, (b, i).0);
    }
    if key: (nat, nat) :| IsWanted(chain, key, cursor) && Skipped(from, fetched, key.0) && !Later(key, c) {
      assert IsWanted(chain, (key.0, key.1), cursor) && IsWanted(chain, (c.0, c.1), cursor);
      assert Holds(chain, key.0, cursor) && Holds(chain, c.0, cursor) && key.0 < c.0;
    }
  }
}
