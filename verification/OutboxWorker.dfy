/** The outbox loop of a sole worker, with its counters. Between two iterations other actors may
    enqueue, patch or finalize; the chain's answer to each submission is an input. */
module OutboxWorker {
  import opened Basics
  import opened OutboxRows
  import opened Json
  import Machine = OutboxMachine

  predicate StandsAt(s: string, part: string, i: nat) {
    i + |part| <= |s| && s[i..i + |part|] == part
  }

  predicate Contains(s: string, part: string) {
    exists i :: 0 <= i <= |s| && StandsAt(s, part, i)
  }

  predicate IsConnectionErr(err: string) {
    Contains(err, "disconnect") || Contains(err, "Connection") || Contains(err, "closed")
  }

  datatype Answer = Accepted(hash: string) | Failure(err: string)

  datatype Tick =
    | Enqueued(id: string, pallet: string, call: string, payload: Option<Value>, now: nat)
    | Patched(task: Option<int>, agent: Option<int>)
    | Finalized(tx: string, task: Option<int>, agent: Option<int>)
    | Iteration(answer: Answer)

  /** The table, the process counters, and the ids committed so far. */
  datatype Desk = Desk(rows: Table, submitted: nat, failed: nat, dead: nat, retried: nat, done: seq<string>)

  predicate IsOldest(rows: Table, id: string) {
    id in rows && rows[id].status.Pending?
    && forall other :: other in rows && rows[other].status.Pending? ==> rows[id].createdAt <= rows[other].createdAt
  }

  function PendingIds(rows: Table): set<string> {
    set id | id in rows && rows[id].status.Pending?
  }

  /** The loop body, once a job has been found. */
  function Attempt(d: Desk, id: string, answer: Answer): Desk
    requires id in d.rows
  {
    var row := d.rows[id];
    match answer
    case Accepted(hash) => d.(rows := d.rows[id := Sent(row, hash)], submitted := d.submitted + 1, done := d.done + [id])
    case Failure(err) =>
      if IsConnectionErr(err) then d
      else
        var isDead := row.retryCount + 1 > MAX_RETRIES;
        d.(rows := d.rows[id := Refused(row, err)],
           dead := if isDead then d.dead + 1 else d.dead,
           failed := if isDead then d.failed else d.failed + 1,
           retried := d.retried + 1,
           done := d.done + [id])
  }

  ghost predicate TickStep(d: Desk, tick: Tick, e: Desk) {
    match tick
    case Enqueued(id, pallet, call, payload, now) => e == d.(rows := Enqueue(d.rows, id, pallet, call, payload, now))
    case Patched(task, agent) => e == d.(rows := PatchIds(d.rows, task, agent))
    case Finalized(tx, task, agent) => e == d.(rows := FinalizeByHash(d.rows, tx, task, agent))
    case Iteration(answer) =>
      if PendingIds(d.rows) == {} then e == d
      else exists id :: IsOldest(d.rows, id) && e == Attempt(d, id, answer)
  }

  /** Some run of the loop and its surroundings through the given ticks. */
  ghost predicate Trace(d: Desk, ticks: seq<Tick>, e: Desk) {
    if ticks == [] then e == d
    else
      var front, last := ticks[..|ticks| - 1], ticks[|ticks| - 1];
      exists m :: Trace(d, front, m) && TickStep(m, last, e)
  }

  class Worker {
    const table: OutboxTable
    var submitted: nat
    var failed: nat
    var dead: nat
    var retried: nat
    ghost var done: seq<string>

    constructor (table: OutboxTable)
      ensures this.table == table && NowDesk() == Desk(table.rows, 0, 0, 0, 0, [])
    {
      this.table := table;
      submitted, failed, dead, retried := 0, 0, 0, 0;
      done := [];
    }

    ghost function NowDesk(): Desk
      reads this, table
    {
      Desk(table.rows, submitted, failed, dead, retried, done)
    }

    /** SELECT ... WHERE status = 'pending' ORDER BY created_at LIMIT 1. */
    method FetchJob() returns (job: Option<string>)
      ensures job.Some? ==> IsOldest(table.rows, job.value)
      ensures job.None? <==> PendingIds(table.rows) == {}
    {
      job := None;
      var rest := PendingIds(table.rows);
      while rest != {}
        invariant rest <= PendingIds(table.rows)
        invariant job.None? ==> rest == PendingIds(table.rows)
        invariant job.Some? ==> job.value in PendingIds(table.rows) - rest
        invariant job.Some? ==> forall id :: id in PendingIds(table.rows) - rest ==>
          table.rows[job.value].createdAt <= table.rows[id].createdAt
        decreases rest
      {
        var id :| id in rest;
        rest := rest - {id};
        if job.None? || table.rows[id].createdAt < table.rows[job.value].createdAt {
          job := Some(id);
        }
      }
    }

    /** One iteration of the loop. */
    method Iterate(answer: Answer)
      modifies this, table
      ensures TickStep(old(NowDesk()), Iteration(answer), NowDesk())
    {
      var job := FetchJob();
      if job.None? {
        return;
      }
      var id := job.value;
      var row := table.rows[id];
      match answer {
        case Accepted(hash) =>
          submitted := submitted + 1;
          table.rows := table.rows[id := Sent(row, hash)];
          done := done + [id];
        case Failure(err) =>
          if IsConnectionErr(err) {
            // roll back: the job stays pending
            assert NowDesk() == Attempt(old(NowDesk()), id, answer);
            return;
          }
          if row.retryCount + 1 > MAX_RETRIES {
            dead := dead + 1;
          } else {
            failed := failed + 1;
          }
          retried := retried + 1;
          table.rows := table.rows[id := Refused(row, err)];
          done := done + [id];
      }
      assert NowDesk() == Attempt(old(NowDesk()), id, answer);
    }

    /** The endless loop, for as many ticks as are given. */
    method RunOutbox(ticks: seq<Tick>)
      modifies this, table
      ensures Trace(old(NowDesk()), ticks, NowDesk())
    {
      var i := 0;
      while i < |ticks|
        invariant i <= |ticks|
        invariant Trace(old(NowDesk()), ticks[..i], NowDesk())
      {
        label before:
        match ticks[i] {
          case Enqueued(id, pallet, call, payload, now) => table.Record(id, pallet, call, payload, now);
          case Patched(task, agent) => table.PatchPendingWithIds(task, agent);
          case Finalized(tx, task, agent) => table.rows := FinalizeByHash(table.rows, tx, task, agent);
          case Iteration(answer) => Iterate(answer);
        }
        assert TickStep(old@before(NowDesk()), ticks[i], NowDesk());
        assert ticks[..i + 1][..i] == ticks[..i];
        i := i + 1;
      }
      assert ticks[..|ticks|] == ticks;
    }
  }

  // ----- one iteration -----

  lemma ContainsIff(s: string, part: string)
    ensures Contains(s, part) <==> exists before, after :: s == before + part + after
  {
    if Contains(s, part) {
      var i :| 0 <= i <= |s| && StandsAt(s, part, i);
      assert s == s[..i] + part + s[i + |part|..];
    }
    forall before, after | s == before + part + after
      ensures Contains(s, part)
    {
      assert StandsAt(s, part, |before|);
    }
  }

  /** An error text is taken for a connection error by three words, wherever they stand in it. */
  lemma ConnectionErrIff(err: string)
    ensures IsConnectionErr(err) <==>
      || (exists before, after :: err == before + "disconnect" + after)
      || (exists before, after :: err == before + "Connection" + after)
      || (exists before, after :: err == before + "closed" + after)
  {
    hide Contains;
    ContainsIff(err, "disconnect");
    ContainsIff(err, "Connection");
    ContainsIff(err, "closed");
  }

  /** The text, or its first so many characters if it is longer. */
  predicate IsCut(text: string, cut: string, limit: nat) {
    cut <= text && |cut| == if |text| <= limit then |text| else limit
  }

  /** An accepted call finalizes the row under its hash; a connection error leaves everything as it
      is; any other error leaves the row failed, or dead from the sixth attempt on, with at most 512
      characters of the error. No other row changes. */
  ghost predicate Settles(d: Desk, id: string, answer: Answer, e: Desk)
    requires id in d.rows
  {
    var row, attempt := d.rows[id], d.rows[id].retryCount + 1;
    && e.rows.Keys == d.rows.Keys
    && (forall other :: other in d.rows && other != id ==> e.rows[other] == d.rows[other])
    && match answer
       case Accepted(hash) =>
         e.rows[id] == Row(row.pallet, row.call, row.payload, Status.Finalized, attempt, None, Some(hash),
                           row.chainTask, row.chainAgent, row.createdAt)
       case Failure(err) =>
         if IsConnectionErr(err) then e == d
         else
           && e.rows[id].lastError.Some? && IsCut(err, e.rows[id].lastError.value, 512)
           && e.rows[id] == Row(row.pallet, row.call, row.payload, if attempt <= 5 then Failed else Dead, attempt,
                                e.rows[id].lastError, row.txHash, row.chainTask, row.chainAgent, row.createdAt)
  }

  /** One iteration settles an oldest pending row, if there is one. */
  lemma IterationEffect(d: Desk, answer: Answer, e: Desk)
    requires TickStep(d, Iteration(answer), e)
    ensures if PendingIds(d.rows) == {} then e == d else exists id :: IsOldest(d.rows, id) && Settles(d, id, answer, e)
  {
    if PendingIds(d.rows) != {} {
      var id :| IsOldest(d.rows, id) && e == Attempt(d, id, answer);
      assert e.rows.Keys == d.rows.Keys;
      assert Settles(d, id, answer, e);
    }
  }

  /** The steps of a worker with this answer from the chain. */
  function StepsOf(w: nat, id: string, answer: Answer): seq<Machine.Action> {
    match answer
    case Accepted(hash) => [Machine.Pick(w, id), Machine.Submit(w, hash), Machine.CommitSent(w)]
    case Failure(err) =>
      [Machine.Pick(w, id), if IsConnectionErr(err) then Machine.Release(w) else Machine.CommitRefused(w, err)]
  }

  lemma TwoSteps(s: Machine.State, a: Machine.Action, b: Machine.Action)
    ensures Machine.Execution(s, [a, b]) == Machine.Step(Machine.Step(s, a), b)
  {
    assert [a, b][..1] == [a] && [a][..0] == [];
    assert Machine.Execution(s, [a]) == Machine.Step(s, a);
  }

  lemma ThreeSteps(s: Machine.State, a: Machine.Action, b: Machine.Action, c: Machine.Action)
    ensures Machine.Execution(s, [a, b, c]) == Machine.Step(Machine.Step(Machine.Step(s, a), b), c)
  {
    hide Machine.Step;
    TwoSteps(s, a, b);
    assert [a, b, c][..2] == [a, b];
  }

  /** With no row held, one iteration is one transaction of the machine of many workers: it may pick
      the same rows, and leaves the same table with no row held. */
  lemma IterationIsTransaction(d: Desk, w: nat, id: string, answer: Answer, accepted: set<Machine.Accepted>)
    ensures Machine.IsNext(Machine.State(d.rows, map[], accepted), id) <==> IsOldest(d.rows, id)
    ensures IsOldest(d.rows, id) ==>
      var t := Machine.Execution(Machine.State(d.rows, map[], accepted), StepsOf(w, id, answer));
      t.rows == Attempt(d, id, answer).rows && t.held == map[]
  {
    hide Machine.Execution, IsConnectionErr, Refused, Sent;
    if IsOldest(d.rows, id) {
      var s := Machine.State(d.rows, map[], accepted);
      match answer
      case Accepted(hash) => ThreeSteps(s, Machine.Pick(w, id), Machine.Submit(w, hash), Machine.CommitSent(w));
      case Failure(err) =>
        TwoSteps(s, Machine.Pick(w, id), Machine.Release(w));
        TwoSteps(s, Machine.Pick(w, id), Machine.CommitRefused(w, err));
        var row := d.rows[id];
        assert row.(retryCount := row.retryCount) == row;
        RefusedCounts(row, err);
    }
  }

  lemma RefusedCounts(row: Row, err: string)
    ensures Refused(row, err).(retryCount := row.retryCount + 1) == Refused(row, err)
  {
  }

  // ----- attempts are conserved -----

  ghost function Attempts(rows: Table): nat {
    if rows == map[] then 0 else
      var id :| id in rows;
      rows[id].retryCount + Attempts(rows - {id})
  }

  lemma {:induction false} AttemptsWithout(rows: Table, id: string)
    requires id in rows
    ensures Attempts(rows) == rows[id].retryCount + Attempts(rows - {id})
    decreases |rows|
  {
    var first :| first in rows && Attempts(rows) == rows[first].retryCount + Attempts(rows - {first});
    if first != id {
      AttemptsWithout(rows - {first}, id);
      AttemptsWithout(rows - {id}, first);
      assert rows - {first} - {id} == rows - {id} - {first};
    }
  }

  lemma AttemptsUpdate(rows: Table, id: string, row: Row)
    ensures id in rows ==> Attempts(rows[id := row]) == Attempts(rows) - rows[id].retryCount + row.retryCount
    ensures id !in rows ==> Attempts(rows[id := row]) == Attempts(rows) + row.retryCount
  {
    AttemptsWithout(rows[id := row], id);
    if id in rows {
      AttemptsWithout(rows, id);
      assert rows[id := row] - {id} == rows - {id};
    } else {
      assert rows[id := row] - {id} == rows;
    }
  }

  lemma {:induction false} AttemptsSame(a: Table, b: Table)
    requires a.Keys == b.Keys && forall id :: id in a ==> a[id].retryCount == b[id].retryCount
    ensures Attempts(a) == Attempts(b)
    decreases |a|
  {
    if a != map[] {
      var id :| id in a;
      AttemptsWithout(a, id);
      AttemptsWithout(b, id);
      AttemptsSame(a - {id}, b - {id});
    }
  }

  ghost predicate Conserved(d: Desk, e: Desk) {
    && e.retried - d.retried == (e.failed - d.failed) + (e.dead - d.dead)
    && (e.submitted - d.submitted) + (e.retried - d.retried) == Attempts(e.rows) - Attempts(d.rows)
  }

  lemma TickConserves(d: Desk, tick: Tick, e: Desk)
    requires TickStep(d, tick, e)
    ensures Conserved(d, e)
  {
    match tick
    case Enqueued(id, pallet, call, payload, now) => AttemptsUpdate(d.rows, id, e.rows[id]);
    case Patched(task, agent) => AttemptsSame(d.rows, e.rows);
    case Finalized(tx, task, agent) => AttemptsSame(d.rows, e.rows);
    case Iteration(answer) =>
      if PendingIds(d.rows) != {} {
        var id :| IsOldest(d.rows, id) && e == Attempt(d, id, answer);
        if e != d {
          AttemptsUpdate(d.rows, id, e.rows[id]);
        }
      }
  }

  /** At every loop head: retried is failed plus dead, and submitted plus retried is the growth of
      all retry counts since the process started. */
  lemma {:induction false} AttemptsConserved(d: Desk, ticks: seq<Tick>, e: Desk)
    requires Trace(d, ticks, e)
    ensures Conserved(d, e)
  {
    if ticks != [] {
      var m :| Trace(d, ticks[..|ticks| - 1], m) && TickStep(m, ticks[|ticks| - 1], e);
      AttemptsConserved(d, ticks[..|ticks| - 1], m);
      TickConserves(m, ticks[|ticks| - 1], e);
    }
  }

  // ----- every counter counts what it says -----

  function Count(ends: seq<Status>, status: Status): nat {
    if ends == [] then 0 else Count(ends[..|ends| - 1], status) + if ends[|ends| - 1] == status then 1 else 0
  }

  /** The status each committed row was left with, commit by commit. */
  ghost predicate Ends(d: Desk, ticks: seq<Tick>, e: Desk, ends: seq<Status>) {
    if ticks == [] then e == d && ends == []
    else
      var front, last := ticks[..|ticks| - 1], ticks[|ticks| - 1];
      exists m, before ::
        && Ends(d, front, m, before) && TickStep(m, last, e)
        && if e.done == m.done then ends == before
           else
             var n := |m.done|;
             |e.done| == n + 1 && e.done[n] in e.rows && ends == before + [e.rows[e.done[n]].status]
  }

  lemma TickCounts(d: Desk, tick: Tick, e: Desk)
    requires TickStep(d, tick, e)
    ensures if e.done == d.done then e.(rows := d.rows) == d
      else
        && |e.done| == |d.done| + 1 && e.done[|d.done|] in e.rows
        && var status := e.rows[e.done[|d.done|]].status;
           && status != Pending
           && e.submitted == d.submitted + (if status == Status.Finalized then 1 else 0)
           && e.failed == d.failed + (if status == Failed then 1 else 0)
           && e.dead == d.dead + (if status == Dead then 1 else 0)
           && e.retried == d.retried + (if status == Status.Finalized then 0 else 1)
  {
  }

  /** Every run has such a list. */
  lemma {:induction false} EveryTraceEnds(d: Desk, ticks: seq<Tick>, e: Desk)
    requires Trace(d, ticks, e)
    ensures exists ends :: Ends(d, ticks, e, ends)
  {
    hide TickStep;
    if ticks == [] {
      assert Ends(d, ticks, e, []);
    } else {
      var front, last := ticks[..|ticks| - 1], ticks[|ticks| - 1];
      var m :| Trace(d, front, m) && TickStep(m, last, e);
      EveryTraceEnds(d, front, m);
      var before :| Ends(d, front, m, before);
      TickCounts(m, last, e);
      assert Ends(d, ticks, e, if e.done == m.done then before else before + [e.rows[e.done[|m.done|]].status]);
    }
  }

  /** Submitted counts the commits that leave their row finalized, failed those that leave it
      failed, dead those that leave it dead, and retried the latter two. */
  lemma {:induction false} CountersCount(d: Desk, ticks: seq<Tick>, e: Desk, ends: seq<Status>)
    requires Ends(d, ticks, e, ends)
    ensures e.submitted == d.submitted + Count(ends, Status.Finalized)
    ensures e.failed == d.failed + Count(ends, Failed)
    ensures e.dead == d.dead + Count(ends, Dead)
    ensures e.retried == d.retried + Count(ends, Failed) + Count(ends, Dead)
    ensures |e.done| == |d.done| + |ends|
  {
    hide TickStep;
    if ticks != [] {
      var front, last := ticks[..|ticks| - 1], ticks[|ticks| - 1];
      var m, before :|
        && Ends(d, front, m, before) && TickStep(m, last, e)
        && if e.done == m.done then ends == before
           else
             var n := |m.done|;
             |e.done| == n + 1 && e.done[n] in e.rows && ends == before + [e.rows[e.done[n]].status];
      CountersCount(d, front, m, before);
      TickCounts(m, last, e);
      assert e.done != m.done ==> ends[..|ends| - 1] == before;
    }
  }

  // ----- first in, first out -----

  /** Arrivals are new rows with increasing stamps, and the replay worker finalizes no pending row:
      it cannot, as long as no submitted row is enqueued anew. */
  ghost predicate OrderlyTick(d: Desk, tick: Tick) {
    match tick
    case Enqueued(id, _, _, _, now) => id !in d.rows && forall other :: other in d.rows ==> d.rows[other].createdAt < now
    case Finalized(tx, _, _) => forall id :: id in d.rows && d.rows[id].status.Pending? ==> d.rows[id].txHash != Some(tx)
    case _ => true
  }

  ghost predicate OrderlyTrace(d: Desk, ticks: seq<Tick>, e: Desk) {
    if ticks == [] then e == d
    else
      var front, last := ticks[..|ticks| - 1], ticks[|ticks| - 1];
      exists m :: OrderlyTrace(d, front, m) && OrderlyTick(m, last) && TickStep(m, last, e)
  }

  /** Committed ids in order of their stamps, and before everything still pending. */
  ghost predicate InOrder(d: Desk) {
    && (forall i :: 0 <= i < |d.done| ==> d.done[i] in d.rows && !d.rows[d.done[i]].status.Pending?)
    && (forall i, j :: 0 <= i < j < |d.done| ==>
          d.done[i] in d.rows && d.done[j] in d.rows && d.rows[d.done[i]].createdAt <= d.rows[d.done[j]].createdAt)
    && (forall i, id :: 0 <= i < |d.done| && id in PendingIds(d.rows) ==>
          d.done[i] in d.rows && d.rows[d.done[i]].createdAt <= d.rows[id].createdAt)
  }

  lemma PendingAfterPatch(rows: Table, task: Option<int>, agent: Option<int>)
    ensures PendingIds(PatchIds(rows, task, agent)) == PendingIds(rows)
    ensures forall id :: id in rows ==>
      id in PatchIds(rows, task, agent) && PatchIds(rows, task, agent)[id].createdAt == rows[id].createdAt
      && PatchIds(rows, task, agent)[id].status == rows[id].status
  {
  }

  lemma PendingAfterArrival(rows: Table, id: string, pallet: string, call: string, payload: Option<Value>, now: nat)
    requires id !in rows
    ensures PendingIds(Enqueue(rows, id, pallet, call, payload, now)) == PendingIds(rows) + {id}
  {
  }

  lemma PendingAfterFinalization(rows: Table, tx: string, task: Option<int>, agent: Option<int>)
    requires forall id :: id in rows && rows[id].status.Pending? ==> rows[id].txHash != Some(tx)
    ensures PendingIds(FinalizeByHash(rows, tx, task, agent)) == PendingIds(rows)
  {
  }

  lemma PendingAfterAttempt(d: Desk, id: string, answer: Answer)
    requires id in PendingIds(d.rows)
    ensures var e := Attempt(d, id, answer);
      if answer.Failure? && IsConnectionErr(answer.err) then e == d
      else PendingIds(e.rows) == PendingIds(d.rows) - {id} && e.done == d.done + [id]
  {
  }

  lemma TickInOrder(d: Desk, tick: Tick, e: Desk)
    requires InOrder(d) && OrderlyTick(d, tick) && TickStep(d, tick, e)
    ensures InOrder(e)
  {
    match tick
    case Iteration(answer) =>
      if PendingIds(d.rows) != {} {
        var id :| IsOldest(d.rows, id) && e == Attempt(d, id, answer);
        assert id in PendingIds(d.rows);
        AttemptInOrder(d, id, answer);
      }
    case Patched(task, agent) => PendingAfterPatch(d.rows, task, agent);
    case Finalized(tx, task, agent) => PendingAfterFinalization(d.rows, tx, task, agent);
    case Enqueued(id, pallet, call, payload, now) => PendingAfterArrival(d.rows, id, pallet, call, payload, now);
  }

  lemma AttemptInOrder(d: Desk, id: string, answer: Answer)
    requires InOrder(d) && IsOldest(d.rows, id) && id in PendingIds(d.rows)
    ensures InOrder(Attempt(d, id, answer))
  {
    var e := Attempt(d, id, answer);
    if e != d {
      PendingAfterAttempt(d, id, answer);
      assert forall other :: other in d.rows ==> e.rows[other].createdAt == d.rows[other].createdAt;
      assert forall i :: 0 <= i < |d.done| ==> e.done[i] == d.done[i] && d.done[i] != id;
    }
  }

  /** Rows leave 'pending' in enqueue order; connection errors and patches never reorder them. */
  lemma {:induction false} QueueOrder(d: Desk, ticks: seq<Tick>, e: Desk)
    requires d.done == [] && OrderlyTrace(d, ticks, e)
    ensures InOrder(e)
  {
    if ticks != [] {
      var m :| OrderlyTrace(d, ticks[..|ticks| - 1], m) && OrderlyTick(m, ticks[|ticks| - 1])
               && TickStep(m, ticks[|ticks| - 1], e);
      QueueOrder(d, ticks[..|ticks| - 1], m);
      TickInOrder(m, ticks[|ticks| - 1], e);
    }
  }

  // ----- draining -----

  function Arrivals(ticks: seq<Tick>): nat {
    if ticks == [] then 0 else Arrivals(ticks[..|ticks| - 1]) + if ticks[|ticks| - 1].Enqueued? then 1 else 0
  }

  lemma TickDrains(d: Desk, tick: Tick, e: Desk)
    requires OrderlyTick(d, tick) && TickStep(d, tick, e)
    ensures |PendingIds(e.rows)| + |e.done| == |PendingIds(d.rows)| + |d.done| + if tick.Enqueued? then 1 else 0
  {
    match tick
    case Iteration(answer) =>
      if PendingIds(d.rows) != {} {
        var id :| IsOldest(d.rows, id) && e == Attempt(d, id, answer);
        PendingAfterAttempt(d, id, answer);
      }
    case Patched(task, agent) => PendingAfterPatch(d.rows, task, agent);
    case Finalized(tx, task, agent) => PendingAfterFinalization(d.rows, tx, task, agent);
    case Enqueued(id, pallet, call, payload, now) => PendingAfterArrival(d.rows, id, pallet, call, payload, now);
  }

  /** The pending count falls by exactly one per committed job. */
  lemma {:induction false} DrainMeasure(d: Desk, ticks: seq<Tick>, e: Desk)
    requires OrderlyTrace(d, ticks, e)
    ensures |PendingIds(e.rows)| + |e.done| == |PendingIds(d.rows)| + |d.done| + Arrivals(ticks)
  {
    if ticks != [] {
      var m :| OrderlyTrace(d, ticks[..|ticks| - 1], m) && OrderlyTick(m, ticks[|ticks| - 1])
               && TickStep(m, ticks[|ticks| - 1], e);
      DrainMeasure(d, ticks[..|ticks| - 1], m);
      TickDrains(m, ticks[|ticks| - 1], e);
    }
  }

  predicate Decides(tick: Tick) {
    tick.Iteration? && (tick.answer.Failure? ==> !IsConnectionErr(tick.answer.err))
  }

  function Decisions(ticks: seq<Tick>): nat {
    if ticks == [] then 0 else Decisions(ticks[..|ticks| - 1]) + if Decides(ticks[|ticks| - 1]) then 1 else 0
  }

  /** Without arrivals n pending jobs are drained by n iterations whose answers are not connection
      errors, however these are mixed with others, with patches and with finalizations. */
  lemma {:induction false} DrainsCompletely(d: Desk, ticks: seq<Tick>, e: Desk)
    requires OrderlyTrace(d, ticks, e) && forall i :: 0 <= i < |ticks| ==> !ticks[i].Enqueued?
    ensures |PendingIds(e.rows)|
      == if Decisions(ticks) >= |PendingIds(d.rows)| then 0 else |PendingIds(d.rows)| - Decisions(ticks)
  {
    if ticks != [] {
      var m :| OrderlyTrace(d, ticks[..|ticks| - 1], m) && OrderlyTick(m, ticks[|ticks| - 1])
               && TickStep(m, ticks[|ticks| - 1], e);
      DrainsCompletely(d, ticks[..|ticks| - 1], m);
      TickDecides(m, ticks[|ticks| - 1], e);
    }
  }

  lemma TickDecides(d: Desk, tick: Tick, e: Desk)
    requires OrderlyTick(d, tick) && TickStep(d, tick, e) && !tick.Enqueued?
    ensures |PendingIds(e.rows)|
      == if Decides(tick) && PendingIds(d.rows) != {} then |PendingIds(d.rows)| - 1 else |PendingIds(d.rows)|
  {
    match tick
    case Iteration(answer) =>
      if PendingIds(d.rows) != {} {
        var id :| IsOldest(d.rows, id) && e == Attempt(d, id, answer);
        PendingAfterAttempt(d, id, answer);
      }
    case Patched(task, agent) => PendingAfterPatch(d.rows, task, agent);
    case Finalized(tx, task, agent) => PendingAfterFinalization(d.rows, tx, task, agent);
  }

  /** The other side of it: a job whose own error text mentions a closed connection is taken for a
      connection error every time. It stays at the head of the queue, whatever arrives, is patched
      or is finalized meanwhile; no job moves, and no counter. */
  lemma {:induction false} HeadOfLineBlocks(d: Desk, ticks: seq<Tick>, e: Desk, head: string)
    requires OrderlyTrace(d, ticks, e) && IsOldest(d.rows, head)
    requires forall i :: 0 <= i < |ticks| && ticks[i].Iteration? ==> !Decides(ticks[i])
    ensures IsOldest(e.rows, head) && PendingIds(d.rows) <= PendingIds(e.rows)
    ensures e.(rows := d.rows) == d
  {
    if ticks != [] {
      var m :| OrderlyTrace(d, ticks[..|ticks| - 1], m) && OrderlyTick(m, ticks[|ticks| - 1])
               && TickStep(m, ticks[|ticks| - 1], e);
      HeadOfLineBlocks(d, ticks[..|ticks| - 1], m, head);
      TickKeepsHead(m, ticks[|ticks| - 1], e, head);
    }
  }

  lemma TickKeepsHead(d: Desk, tick: Tick, e: Desk, head: string)
    requires OrderlyTick(d, tick) && TickStep(d, tick, e) && IsOldest(d.rows, head)
    requires tick.Iteration? ==> !Decides(tick)
    ensures IsOldest(e.rows, head) && PendingIds(d.rows) <= PendingIds(e.rows)
    ensures e.(rows := d.rows) == d
  {
    match tick
    case Iteration(answer) =>
    case Patched(task, agent) => PendingAfterPatch(d.rows, task, agent);
    case Finalized(tx, task, agent) => PendingAfterFinalization(d.rows, tx, task, agent);
    case Enqueued(id, pallet, call, payload, now) => PendingAfterArrival(d.rows, id, pallet, call, payload, now);
  }
}
