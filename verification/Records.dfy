/** Where the stored records come from: over any interleaving of the handlers every task, bid and
    result is, field by field, the one that some request submitted. */
module Records {
  import opened Basics
  import opened StorageModel
  import opened Handlers

  /** A record as it was submitted; the status of a task is left out of account. */
  datatype Record = OfTask(task: Task) | OfBid(bid: Bid) | OfResult(result: Outcome)

  predicate Stored(m: Mem, x: Record) {
    match x
    case OfTask(task) => exists id :: id in m.tasks && m.tasks[id].(completed := false) == task
    case OfBid(bid) => exists id :: id in m.bids && m.bids[id] == bid
    case OfResult(result) => exists id :: id in m.results && m.results[id] == result
  }

  predicate Carries(s: State, r: nat, x: Record) {
    && r in s.requests
    && match s.requests[r]
       case TaskReady(task) => x == OfTask(task)
       case BidReady(bid) => x == OfBid(bid)
       case ResultRead(_, result) => x == OfResult(result)
       case ResultMarked(result) => x == OfResult(result)
  }

  ghost predicate Carried(s: State, x: Record) {
    exists r :: Carries(s, r, x)
  }

  /** The request starts here with these contents; a bid or a result only for a stored task. */
  predicate Submits(s: State, a: Action, x: Record) {
    match a
    case StartTask(_, maxCost, deadline, body) =>
      x == OfTask(Task(Canonical(s.next), maxCost, deadline, false, body))
    case StartBid(_, taskId, agentHash, value, body) =>
      taskId in s.store.tasks && x == OfBid(Bid(Canonical(s.next), taskId, agentHash, value, body))
    case StartResult(_, taskId, agentHash, body) =>
      taskId in s.store.tasks && x == OfResult(Outcome(Canonical(s.next), taskId, agentHash, body))
    case _ => false
  }

  predicate SubmittedAt(s: State, actions: seq<Action>, i: nat, x: Record) {
    i < |actions| && Submits(Execution(s, actions[..i]), actions[i], x)
  }

  lemma CarriedStep(s: State, a: Action, r: nat, x: Record)
    requires Inv(s) && Carries(Step(s, a), r, x)
    ensures Carries(s, r, x) || Submits(s, a, x)
  {
  }

  lemma StoredTaskStep(s: State, a: Action, task: Task)
    requires Inv(s) && Stored(Step(s, a).store, OfTask(task))
    ensures Stored(s.store, OfTask(task)) || Carried(s, OfTask(task))
  {
    var after := Step(s, a).store.tasks;
    var id :| id in after && after[id].(completed := false) == task;
    StepTasksGrow(s, a);
    if id !in s.store.tasks {
      assert PhaseInv(s, s.requests[a.request]);
      assert Carries(s, a.request, OfTask(task));
    }
  }

  lemma StoredOtherStep(s: State, a: Action, x: Record)
    requires Inv(s) && !x.OfTask? && Stored(Step(s, a).store, x)
    ensures Stored(s.store, x) || Carried(s, x)
  {
    if !Stored(s.store, x) {
      assert a.Advance? && Carries(s, a.request, x);
    }
  }

  /** Whatever is stored or on its way was so at the start, or is what some action of the run
      submitted in the state it found: with its own fields, and under the id it was given. */
  lemma {:induction false} EveryRecordWasSubmitted(s: State, actions: seq<Action>, x: Record)
    requires Inv(s)
    ensures var t := Execution(s, actions);
      (Stored(t.store, x) || Carried(t, x)) ==>
        (Stored(s.store, x) || Carried(s, x) || exists i :: SubmittedAt(s, actions, i, x))
  {
    hide Step, Inv;
    if actions != [] {
      var n := |actions| - 1;
      var before, t := Execution(s, actions[..n]), Execution(s, actions);
      EveryInterleaving(s, actions[..n]);
      EveryRecordWasSubmitted(s, actions[..n], x);
      assert forall i :: 0 <= i < n ==> actions[..n][..i] == actions[..i];
      if Carried(t, x) {
        var r :| Carries(t, r, x);
        CarriedStep(before, actions[n], r, x);
      } else if Stored(t.store, x) {
        match x
        case OfTask(task) => StoredTaskStep(before, actions[n], task);
        case _ => StoredOtherStep(before, actions[n], x);
      }
      assert Submits(before, actions[n], x) ==> SubmittedAt(s, actions, n, x);
      assert forall i :: SubmittedAt(s, actions[..n], i, x) ==> SubmittedAt(s, actions, i, x);
    }
  }

  /** The request ends here without its next write. */
  predicate Ends(a: Action, r: nat) {
    a.request == r && (a.Abandon? || (a.Advance? && a.fails))
  }

  /** What is submitted is carried by its own request, and stays with it until it is stored, unless
      that request ends before. */
  lemma SubmittedIsStored(s: State, a: Action, r: nat, x: Record)
    requires Inv(s)
    ensures Submits(s, a, x) && a.request !in s.requests ==> Carries(Step(s, a), a.request, x)
    ensures Carries(s, r, x) && !Ends(a, r) ==> Carries(Step(s, a), r, x) || Stored(Step(s, a).store, x)
    ensures Ends(a, r) ==> Step(s, a) == s.(requests := s.requests - {r})
  {
    if Carries(s, r, x) && a == Advance(r, false) {
      assert PhaseInv(s, s.requests[r]);
      var t := Step(s, a).store;
      match s.requests[r]
      case TaskReady(task) => assert t.tasks[task.id].(completed := false) == task;
      case BidReady(bid) => assert t.bids[bid.id] == bid;
      case ResultRead(_, _) =>
      case ResultMarked(result) => assert t.results[result.id] == result;
    }
  }
}
