/** Any number of outbox workers, the replay worker's finalizations and patches, the backfiller
    and the enqueuers, interleaved row by row. A worker holds its row locked from the SELECT ...
    FOR UPDATE SKIP LOCKED to the end of its transaction; every other statement waits for it. */
module OutboxMachine {
  import opened Basics
  import opened OutboxRows
  import opened Json

  /** What a worker remembers of the row it holds. `sent` is the hash the chain accepted it under,
      while that is not yet committed. */
  datatype Job = Job(id: string, payload: Option<Value>, retryCount: nat, sent: Option<string>)

  /** One extrinsic the chain has accepted. History only: no table records it. */
  datatype Accepted = Accepted(id: string, payload: Option<Value>, hash: string)

  datatype State = State(rows: Table, held: map<nat, Job>, accepted: set<Accepted>)

  datatype Action =
    | Pick(worker: nat, id: string)
    | Submit(worker: nat, hash: string)
    | CommitSent(worker: nat)
    | CommitRefused(worker: nat, err: string)
    | Release(worker: nat)
    | Record(id: string, pallet: string, call: string, payload: Option<Value>, now: nat)
    | FinalizeOne(id: string, task: Option<int>, agent: Option<int>, tx: string)
    | PatchOne(id: string, key: IdKey, v: int)
    | FillOne(id: string, task: Option<int>, agent: Option<int>)

  predicate Locked(s: State, id: string) {
    exists w :: w in s.held && s.held[w].id == id
  }

  /** The oldest pending row that nobody holds. */
  predicate IsNext(s: State, id: string) {
    id in s.rows && s.rows[id].status.Pending? && !Locked(s, id)
    && forall other :: other in s.rows && s.rows[other].status.Pending? && !Locked(s, other) ==>
         s.rows[id].createdAt <= s.rows[other].createdAt
  }

  function Missing(old': Option<int>, new': Option<int>): Option<int> {
    if old'.Some? then old' else new'
  }

  /** One atomic step; an impossible one changes nothing. */
  function Step(s: State, a: Action): State {
    match a
    case Pick(w, id) =>
      if w !in s.held && IsNext(s, id)
      then s.(held := s.held[w := Job(id, s.rows[id].payload, s.rows[id].retryCount, None)])
      else s
    case Submit(w, hash) =>
      if w in s.held && s.held[w].sent.None? then
        var job := s.held[w];
        s.(held := s.held[w := job.(sent := Some(hash))], accepted := s.accepted + {Accepted(job.id, job.payload, hash)})
      else s
    case CommitSent(w) =>
      if w in s.held && s.held[w].sent.Some? && s.held[w].id in s.rows then
        var job := s.held[w];
        s.(rows := s.rows[job.id := Sent(s.rows[job.id], job.sent.value)], held := s.held - {w})
      else s
    case CommitRefused(w, err) =>
      if w in s.held && s.held[w].sent.None? && s.held[w].id in s.rows then
        var job := s.held[w];
        // the new status is computed from the retry count read when the row was picked
        s.(rows := s.rows[job.id := Refused(s.rows[job.id].(retryCount := job.retryCount), err)
                                       .(retryCount := s.rows[job.id].retryCount + 1)],
           held := s.held - {w})
      else s
    case Release(w) => s.(held := s.held - {w})
    case Record(id, pallet, call, payload, now) =>
      if !Locked(s, id) then s.(rows := Enqueue(s.rows, id, pallet, call, payload, now)) else s
    case FinalizeOne(id, task, agent, tx) =>
      if id in s.rows && s.rows[id].txHash == Some(tx) && !Locked(s, id)
      then s.(rows := s.rows[id := FinalizeRow(s.rows[id], task, agent)])
      else s
    case PatchOne(id, key, v) =>
      if id in s.rows && !Locked(s, id) then s.(rows := s.rows[id := PatchRow(s.rows[id], key, v)]) else s
    case FillOne(id, task, agent) =>
      if id in s.rows && !Locked(s, id) then
        s.(rows := s.rows[id := s.rows[id].(chainTask := Missing(s.rows[id].chainTask, task),
                                            chainAgent := Missing(s.rows[id].chainAgent, agent))])
      else s
  }

  function Execution(s: State, actions: seq<Action>): State {
    if actions == [] then s else Step(Execution(s, actions[..|actions| - 1]), actions[|actions| - 1])
  }

  // The statements of the other actors, row by row: on a row that nobody holds a step does what the
  // statement on the whole table does to that row, and on a held row it waits.

  lemma FinalizeRowByRow(s: State, id: string, tx: string, task: Option<int>, agent: Option<int>)
    requires id in s.rows
    ensures Step(s, FinalizeOne(id, task, agent, tx))
      == if Locked(s, id) then s else s.(rows := s.rows[id := FinalizeByHash(s.rows, tx, task, agent)[id]])
  {
    assert s.rows[id := s.rows[id]] == s.rows;
  }

  lemma PatchRowByRow(s: State, id: string, k: IdKey, v: int)
    requires id in s.rows && !Poisoned(s.rows, k)
    ensures Step(s, PatchOne(id, k, v)) == if Locked(s, id) then s else s.(rows := s.rows[id := Patch(s.rows, k, v)[id]])
  {
    hide Poisoned, PatchRow;
  }

  lemma FillRowByRow(s: State, id: string, task: Option<int>, agent: Option<int>)
    requires id in s.rows
    ensures var row := s.rows[id];
      Step(s, FillOne(id, task, agent))
      == if Locked(s, id) then s
         else s.(rows := s.rows[id := row.(chainTask := if row.chainTask.None? then task else row.chainTask,
                                           chainAgent := if row.chainAgent.None? then agent else row.chainAgent)])
  {
  }

  // ----- what holds in every state -----

  /** The lifecycle of one row. */
  ghost predicate RowInv(row: Row) {
    && (row.status.Failed? ==> 1 <= row.retryCount <= 5)
    && (row.status.Dead? ==> row.retryCount >= 6)
    && (row.status.Finalized? ==> row.txHash.Some?)
    && (row.txHash.Some? ==> row.retryCount >= 1)
    && (row.lastError.Some? ==> |row.lastError.value| <= 512)
  }

  /** A held row is held once, is still pending, and is as its worker read it. */
  ghost predicate LockInv(s: State) {
    && (forall v, w :: v in s.held && w in s.held && s.held[v].id == s.held[w].id ==> v == w)
    && (forall w :: w in s.held ==>
          var job := s.held[w];
          job.id in s.rows && s.rows[job.id].status.Pending?
          && s.rows[job.id].payload == job.payload && s.rows[job.id].retryCount == job.retryCount)
  }

  /** No transaction hash is invented: the chain accepted that very row under it. */
  ghost predicate HashInv(s: State) {
    && (forall id :: id in s.rows && s.rows[id].txHash.Some? ==>
          exists a :: a in s.accepted && a.id == id && a.hash == s.rows[id].txHash.value)
    && (forall w :: w in s.held && s.held[w].sent.Some? ==>
          Accepted(s.held[w].id, s.held[w].payload, s.held[w].sent.value) in s.accepted)
  }

  ghost predicate Inv(s: State) {
    (forall id :: id in s.rows ==> RowInv(s.rows[id])) && LockInv(s) && HashInv(s)
  }

  lemma StepKeepsRows(s: State, a: Action)
    requires Inv(s)
    ensures forall id :: id in Step(s, a).rows ==> RowInv(Step(s, a).rows[id])
  {
  }

  /** A row that a worker still holds after the step was not touched by it. */
  lemma HeldRowUntouched(s: State, a: Action, w: nat)
    requires LockInv(s) && w in s.held && w in Step(s, a).held
    ensures var id := s.held[w].id;
      id in Step(s, a).rows && Step(s, a).rows[id] == s.rows[id]
      && Step(s, a).held[w] == s.held[w].(sent := Step(s, a).held[w].sent)
  {
    assert Locked(s, s.held[w].id);
  }

  lemma NewHold(s: State, a: Action, w: nat)
    requires w !in s.held && w in Step(s, a).held
    ensures a.Pick? && a.worker == w && IsNext(s, a.id)
    ensures Step(s, a) == s.(held := s.held[w := Job(a.id, s.rows[a.id].payload, s.rows[a.id].retryCount, None)])
  {
  }

  lemma StepKeepsLocks(s: State, a: Action)
    requires LockInv(s)
    ensures LockInv(Step(s, a))
  {
    var t := Step(s, a);
    forall w | w in t.held
      ensures var job := t.held[w];
        job.id in t.rows && t.rows[job.id].status.Pending?
        && t.rows[job.id].payload == job.payload && t.rows[job.id].retryCount == job.retryCount
    {
      if w in s.held {
        HeldRowUntouched(s, a, w);
      } else {
        NewHold(s, a, w);
      }
    }
    forall v, w | v in t.held && w in t.held && t.held[v].id == t.held[w].id
      ensures v == w
    {
      HoldsStayApart(s, a, v, w);
    }
  }

  lemma HoldsStayApart(s: State, a: Action, v: nat, w: nat)
    requires LockInv(s) && v in Step(s, a).held && w in Step(s, a).held
    requires Step(s, a).held[v].id == Step(s, a).held[w].id
    ensures v == w
  {
    if v in s.held {
      HeldRowUntouched(s, a, v);
      assert Locked(s, s.held[v].id);
    } else {
      NewHold(s, a, v);
    }
    if w in s.held {
      HeldRowUntouched(s, a, w);
      assert Locked(s, s.held[w].id);
    } else {
      NewHold(s, a, w);
    }
  }

  lemma StepKeepsHashes(s: State, a: Action)
    requires Inv(s)
    ensures HashInv(Step(s, a))
  {
    var t := Step(s, a);
    forall id | id in t.rows && t.rows[id].txHash.Some?
      ensures exists x :: x in t.accepted && x.id == id && x.hash == t.rows[id].txHash.value
    {
      if id in s.rows && s.rows[id].txHash == t.rows[id].txHash {
        var x :| x in s.accepted && x.id == id && x.hash == s.rows[id].txHash.value;
        assert x in t.accepted;
      } else {
        var job := s.held[a.worker];
        assert Accepted(job.id, job.payload, job.sent.value) in t.accepted;
      }
    }
  }

  /** Lifecycle, locks and hashes over every interleaving, from any table that is in order. */
  lemma {:induction false} RunKeepsInv(s: State, actions: seq<Action>)
    requires Inv(s)
    ensures Inv(Execution(s, actions))
  {
    if actions != [] {
      var before := Execution(s, actions[..|actions| - 1]);
      RunKeepsInv(s, actions[..|actions| - 1]);
      StepKeepsRows(before, actions[|actions| - 1]);
      StepKeepsLocks(before, actions[|actions| - 1]);
      StepKeepsHashes(before, actions[|actions| - 1]);
    }
  }

  /** What a worker commits is what the row held, and the row held what it submitted. */
  lemma CommittedPayload(s: State, actions: seq<Action>, w: nat)
    requires Inv(s)
    ensures var t := Execution(s, actions);
      w in t.held && t.held[w].sent.Some? ==>
        var job := t.held[w];
        && job.id in t.rows
        && Accepted(job.id, t.rows[job.id].payload, job.sent.value) in t.accepted
        && Step(t, CommitSent(w)).rows[job.id] == Sent(t.rows[job.id], job.sent.value)
  {
    RunKeepsInv(s, actions);
  }

  // ----- what holds between any two states of a run -----

  ghost predicate RowGrows(before: Row, after: Row) {
    && after.retryCount >= before.retryCount
    && (before.txHash.Some? ==> after.txHash.Some?)
    && (before.chainTask.Some? ==> after.chainTask.Some?)
    && (before.chainAgent.Some? ==> after.chainAgent.Some?)
    && after.pallet == before.pallet && after.call == before.call && after.createdAt == before.createdAt
  }

  ghost predicate Grows(s: State, t: State) {
    forall id :: id in s.rows ==> id in t.rows && RowGrows(s.rows[id], t.rows[id])
  }

  lemma StepGrows(s: State, a: Action, id: string)
    requires id in s.rows
    ensures id in Step(s, a).rows && RowGrows(s.rows[id], Step(s, a).rows[id])
  {
  }

  /** Between any two states of a run: retry counts never fall, hashes and chain ids are never
      cleared, rows are never deleted. */
  lemma {:induction false} RunGrows(s: State, actions: seq<Action>)
    ensures Grows(s, Execution(s, actions))
  {
    if actions != [] {
      var before := Execution(s, actions[..|actions| - 1]);
      var after := Execution(s, actions);
      RunGrows(s, actions[..|actions| - 1]);
      forall id | id in s.rows
        ensures id in after.rows && RowGrows(s.rows[id], after.rows[id])
      {
        StepGrows(before, actions[|actions| - 1], id);
        GrowsTwice(s.rows[id], before.rows[id], after.rows[id]);
      }
    }
  }

  lemma GrowsTwice(a: Row, b: Row, c: Row)
    requires RowGrows(a, b) && RowGrows(b, c)
    ensures RowGrows(a, c)
  {
  }

  /** Only recording wakes a settled row; everything else leaves its attempts and payload. */
  lemma StepSettled(s: State, a: Action, id: string)
    requires Inv(s) && id in s.rows && !s.rows[id].status.Pending?
    requires a.Record? ==> a.id != id
    ensures var t := Step(s, a);
      && id in t.rows && !t.rows[id].status.Pending? && t.rows[id].payload == s.rows[id].payload
      && t.rows[id].retryCount == s.rows[id].retryCount && t.rows[id].txHash == s.rows[id].txHash
  {
  }

  /** A row that is not pending keeps its payload, its retry count and its hash until it is
      recorded anew under its own id, whatever all the actors do meanwhile: a failed row is
      not tried again. */
  lemma {:induction false} SettledRowRests(s: State, actions: seq<Action>, id: string)
    requires Inv(s) && id in s.rows && !s.rows[id].status.Pending?
    requires forall i :: 0 <= i < |actions| && actions[i].Record? ==> actions[i].id != id
    ensures var t := Execution(s, actions);
      && id in t.rows && !t.rows[id].status.Pending? && t.rows[id].payload == s.rows[id].payload
      && t.rows[id].retryCount == s.rows[id].retryCount && t.rows[id].txHash == s.rows[id].txHash
  {
    if actions != [] {
      var front := actions[..|actions| - 1];
      SettledRowRests(s, front, id);
      RunKeepsInv(s, front);
      StepSettled(Execution(s, front), actions[|actions| - 1], id);
    }
  }

  lemma ExecutionSnoc(s: State, actions: seq<Action>, a: Action)
    ensures Execution(s, actions + [a]) == Step(Execution(s, actions), a)
  {
    assert (actions + [a])[..|actions|] == actions;
  }

  /** A worker picks a row, submits it under a hash, and then stops. */
  lemma SubmitThenStop(s: State, id: string, w: nat, hash: string)
    requires s.held == map[] && IsNext(s, id)
    ensures Execution(s, [Pick(w, id), Submit(w, hash), Release(w)])
         == s.(accepted := s.accepted + {Accepted(id, s.rows[id].payload, hash)})
  {
    ExecutionSnoc(s, [], Pick(w, id));
    ExecutionSnoc(s, [Pick(w, id)], Submit(w, hash));
    ExecutionSnoc(s, [Pick(w, id), Submit(w, hash)], Release(w));
    assert [] + [Pick(w, id)] == [Pick(w, id)];
    assert [Pick(w, id)] + [Submit(w, hash)] == [Pick(w, id), Submit(w, hash)];
    assert [Pick(w, id), Submit(w, hash)] + [Release(w)] == [Pick(w, id), Submit(w, hash), Release(w)];
    var held := map[w := Job(id, s.rows[id].payload, s.rows[id].retryCount, Some(hash))];
    assert held - {w} == map[];
  }

  /** Delivery is at least once, not exactly once: a worker that stops between the chain's answer
      and its commit leaves the row as it was, next in line, to be submitted again. */
  lemma AcceptedTwice(s: State, id: string, g: string, h: string)
    requires s.held == map[] && IsNext(s, id)
    ensures var once := Execution(s, [Pick(0, id), Submit(0, g), Release(0)]);
      var twice := Execution(once, [Pick(1, id), Submit(1, h), Release(1)]);
      && IsNext(twice, id) && twice.rows == s.rows
      && Accepted(id, s.rows[id].payload, g) in twice.accepted && Accepted(id, s.rows[id].payload, h) in twice.accepted
  {
    SubmitThenStop(s, id, 0, g);
    var once := Execution(s, [Pick(0, id), Submit(0, g), Release(0)]);
    assert IsNext(once, id);
    SubmitThenStop(once, id, 1, h);
    var twice := Execution(once, [Pick(1, id), Submit(1, h), Release(1)]);
    assert forall x :: Locked(twice, x) <==> Locked(s, x);
  }

  // ----- how often the chain accepts a row -----

  /** This step is the chain's answer to a submission of the row. */
  predicate Accepts(s: State, a: Action, id: string) {
    a.Submit? && a.worker in s.held && s.held[a.worker].id == id && s.held[a.worker].sent.None?
  }

  function Acceptances(s: State, actions: seq<Action>, id: string): nat {
    if actions == [] then 0
    else
      var front := actions[..|actions| - 1];
      Acceptances(s, front, id) + if Accepts(Execution(s, front), actions[|actions| - 1], id) then 1 else 0
  }

  /** A worker has the chain's answer for the row and has not committed it. */
  predicate Answered(s: State, id: string) {
    exists w :: w in s.held && s.held[w].id == id && s.held[w].sent.Some?
  }

  /** The worker stops, or its transaction ends, between the chain's answer and the commit. */
  predicate StopsAnswered(s: State, a: Action, id: string) {
    a.Release? && a.worker in s.held && s.held[a.worker].id == id && s.held[a.worker].sent.Some?
  }

  /** A finalized row is enqueued anew. */
  predicate RecordsAnew(s: State, a: Action, id: string) {
    a.Record? && a.id == id && IsFinalized(s, id)
  }

  predicate IsFinalized(s: State, id: string) {
    id in s.rows && s.rows[id].status.Finalized?
  }

  ghost predicate Allowed(s: State, actions: seq<Action>, id: string, mayStop: bool, mayRecordAnew: bool) {
    forall i :: 0 <= i < |actions| ==>
      var t := Execution(s, actions[..i]);
      (StopsAnswered(t, actions[i], id) ==> mayStop) && (RecordsAnew(t, actions[i], id) ==> mayRecordAnew)
  }

  lemma OnceStep(s: State, a: Action, id: string)
    requires LockInv(s) && !StopsAnswered(s, a, id) && !RecordsAnew(s, a, id)
    ensures var t := Step(s, a);
      && (Accepts(s, a, id) ==> !Answered(s, id) && !IsFinalized(s, id) && Answered(t, id))
      && (Answered(s, id) ==> Answered(t, id) || IsFinalized(t, id))
      && (IsFinalized(s, id) ==> IsFinalized(t, id))
      && (!Answered(s, id) && !Accepts(s, a, id) ==> !Answered(t, id))
  {
    hide SetId, FieldOf;
    var t := Step(s, a);
    if Accepts(s, a, id) {
      assert t.held[a.worker].id == id && t.held[a.worker].sent.Some?;
    } else if Answered(s, id) {
      var w :| w in s.held && s.held[w].id == id && s.held[w].sent.Some?;
      if w in t.held {
        HeldRowUntouched(s, a, w);
        assert t.held[w].sent.Some?;
      } else {
        assert IsFinalized(t, id);
      }
    }
  }

  /** A row is accepted at most once in every run in which no worker stops between the chain's
      answer for it and the commit, and in which it is not enqueued anew once finalized. */
  lemma {:induction false} AcceptedAtMostOnce(s: State, actions: seq<Action>, id: string)
    requires Inv(s) && !Answered(s, id) && Allowed(s, actions, id, false, false)
    ensures var t := Execution(s, actions);
      && Acceptances(s, actions, id) <= 1
      && (Acceptances(s, actions, id) == 1 ==> Answered(t, id) || IsFinalized(t, id))
      && (Acceptances(s, actions, id) == 0 ==> !Answered(t, id))
  {
    if actions != [] {
      var front := actions[..|actions| - 1];
      AllowedPrefix(s, actions, id, false, false);
      AcceptedAtMostOnce(s, front, id);
      RunKeepsInv(s, front);
      OnceStep(Execution(s, front), actions[|actions| - 1], id);
    }
  }

  lemma AllowedPrefix(s: State, actions: seq<Action>, id: string, mayStop: bool, mayRecordAnew: bool)
    requires actions != [] && Allowed(s, actions, id, mayStop, mayRecordAnew)
    ensures Allowed(s, actions[..|actions| - 1], id, mayStop, mayRecordAnew)
  {
    var front := actions[..|actions| - 1];
    assert forall i :: 0 <= i < |front| ==> front[..i] == actions[..i];
  }

  ghost predicate AtMostOnce(s: State, actions: seq<Action>, id: string, mayStop: bool, mayRecordAnew: bool) {
    Inv(s) && !Answered(s, id) && Allowed(s, actions, id, mayStop, mayRecordAnew) ==> Acceptances(s, actions, id) <= 1
  }

  function OnePending(): State {
    State(map["a" := Row("", "", None, Pending, 0, None, None, None, None, 0)], map[], {})
  }

  lemma RunSnoc(s: State, front: seq<Action>, a: Action, id: string)
    ensures Execution(s, front + [a]) == Step(Execution(s, front), a)
    ensures Acceptances(s, front + [a], id) == Acceptances(s, front, id) + if Accepts(Execution(s, front), a, id) then 1 else 0
  {
    assert (front + [a])[..|front|] == front;
  }

  /** From a pending row that is next in line: picked and accepted. */
  lemma PickAndSubmit(s: State, front: seq<Action>, w: nat, hash: string)
    requires Execution(s, front).held == map[] && IsNext(Execution(s, front), "a")
    ensures var t, u := Execution(s, front), Execution(s, front + [Pick(w, "a"), Submit(w, hash)]);
      && u.rows == t.rows && u.held.Keys == {w} && u.held[w].id == "a" && u.held[w].sent == Some(hash)
      && Acceptances(s, front + [Pick(w, "a"), Submit(w, hash)], "a") == Acceptances(s, front, "a") + 1
  {
    RunSnoc(s, front, Pick(w, "a"), "a");
    RunSnoc(s, front + [Pick(w, "a")], Submit(w, hash), "a");
    assert front + [Pick(w, "a")] + [Submit(w, hash)] == front + [Pick(w, "a"), Submit(w, hash)];
  }

  function AnsweredAndStopped(): seq<Action> {
    [Pick(0, "a"), Submit(0, "g"), Release(0)]
  }

  lemma AnsweredAndStoppedRun()
    ensures var t := Execution(OnePending(), AnsweredAndStopped());
      t.held == map[] && IsNext(t, "a") && Acceptances(OnePending(), AnsweredAndStopped(), "a") == 1
  {
    var s := OnePending();
    var first := [Pick(0, "a"), Submit(0, "g")];
    assert [] + first == first;
    PickAndSubmit(s, [], 0, "g");
    RunSnoc(s, first, Release(0), "a");
    assert first + [Release(0)] == AnsweredAndStopped();
    assert Execution(s, AnsweredAndStopped()).held == map[];
  }

  lemma StoppingAcceptsTwice()
    ensures exists actions :: !AtMostOnce(OnePending(), actions, "a", true, false)
  {
    hide Step, IsNext;
    AnsweredAndStoppedRun();
    PickAndSubmit(OnePending(), AnsweredAndStopped(), 1, "h");
    assert !AtMostOnce(OnePending(), AnsweredAndStopped() + [Pick(1, "a"), Submit(1, "h")], "a", true, false);
  }

  function SentAndRecorded(): seq<Action> {
    [Pick(0, "a"), Submit(0, "g"), CommitSent(0), Record("a", "", "", None, 1)]
  }

  lemma SentAndRecordedRun()
    ensures var t := Execution(OnePending(), SentAndRecorded());
      t.held == map[] && IsNext(t, "a") && Acceptances(OnePending(), SentAndRecorded(), "a") == 1
  {
    var s := OnePending();
    var first := [Pick(0, "a"), Submit(0, "g")];
    assert [] + first == first;
    PickAndSubmit(s, [], 0, "g");
    RunSnoc(s, first, CommitSent(0), "a");
    assert Execution(s, first + [CommitSent(0)]).held == map[];
    RunSnoc(s, first + [CommitSent(0)], Record("a", "", "", None, 1), "a");
    assert first + [CommitSent(0)] + [Record("a", "", "", None, 1)] == SentAndRecorded();
  }

  lemma RecordingAcceptsTwice()
    ensures exists actions :: !AtMostOnce(OnePending(), actions, "a", false, true)
  {
    hide Step, IsNext;
    SentAndRecordedRun();
    PickAndSubmit(OnePending(), SentAndRecorded(), 1, "h");
    assert !AtMostOnce(OnePending(), SentAndRecorded() + [Pick(1, "a"), Submit(1, "h")], "a", false, true);
  }

  lemma MoreAllowed(s: State, actions: seq<Action>, id: string, mayStop: bool, mayRecordAnew: bool, stop: bool, record: bool)
    requires !AtMostOnce(s, actions, id, stop, record) && (stop ==> mayStop) && (record ==> mayRecordAnew)
    ensures !AtMostOnce(s, actions, id, mayStop, mayRecordAnew)
  {
  }

  /** Every row is accepted at most once in every run exactly when both are ruled out: stopping
      between the answer and the commit, and enqueueing a finalized row anew. */
  lemma AtMostOnceIff(mayStop: bool, mayRecordAnew: bool)
    ensures (forall s, actions, id :: AtMostOnce(s, actions, id, mayStop, mayRecordAnew)) <==> !mayStop && !mayRecordAnew
  {
    if mayStop {
      StoppingAcceptsTwice();
      var actions :| !AtMostOnce(OnePending(), actions, "a", true, false);
      MoreAllowed(OnePending(), actions, "a", mayStop, mayRecordAnew, true, false);
    } else if mayRecordAnew {
      RecordingAcceptsTwice();
      var actions :| !AtMostOnce(OnePending(), actions, "a", false, true);
    } else {
      forall s, actions, id
        ensures AtMostOnce(s, actions, id, false, false)
      {
        if Inv(s) && !Answered(s, id) && Allowed(s, actions, id, false, false) {
          AcceptedAtMostOnce(s, actions, id);
        }
      }
    }
  }
}
