/** The request handlers as sequences of storage calls, any number of them in flight at once. A
    request may be abandoned between two calls, and any write may fail and end its request. */
module Handlers {
  import opened Basics
  import opened StorageModel
  import opened Storage
  import Base64
  import Calls
  import Json
  import Outbox = OutboxRows
  import Submissions

  /** A request between two storage calls. `ResultRead` serves both `submit_result` and
      `execute_task_local`: it holds the copy of the task it has read. */
  datatype Phase =
    | TaskReady(task: Task)
    | BidReady(bid: Bid)
    | ResultRead(task: Task, result: Outcome)
    | ResultMarked(result: Outcome)

  /** `next` is the supply of generated ids. */
  datatype State = State(store: Mem, requests: map<nat, Phase>, next: nat)

  datatype Action =
    | StartTask(request: nat, maxCost: nat, deadline: u64, body: string)
    | StartBid(request: nat, taskId: IdText, agentHash: seq<byte>, value: nat, body: string)
    | StartResult(request: nat, taskId: IdText, agentHash: seq<byte>, body: string)
    | Advance(request: nat, fails: bool)
    | Abandon(request: nat)

  function Step(s: State, a: Action): State {
    match a
    case StartTask(r, maxCost, deadline, body) =>
      if r in s.requests then s
      else s.(requests := s.requests[r := TaskReady(Task(Canonical(s.next), maxCost, deadline, false, body))],
              next := s.next + 1)
    case StartBid(r, taskId, agentHash, value, body) =>
      if r in s.requests || taskId !in s.store.tasks then s
      else
        var task := s.store.tasks[taskId];
        s.(requests := s.requests[r := BidReady(Bid(Canonical(s.next), task.id, agentHash, value, body))],
           next := s.next + 1)
    case StartResult(r, taskId, agentHash, body) =>
      if r in s.requests || taskId !in s.store.tasks then s
      else
        var task := s.store.tasks[taskId];
        var result := Outcome(Canonical(s.next), task.id, agentHash, body);
        s.(requests := s.requests[r := ResultRead(task, result)], next := s.next + 1)
    case Advance(r, fails) =>
      if r !in s.requests then s
      else if fails then s.(requests := s.requests - {r})
      else (
        match s.requests[r]
        case TaskReady(task) => s.(store := MemNext(s.store, InsertTask(task)), requests := s.requests - {r})
        case BidReady(bid) => s.(store := MemNext(s.store, InsertBid(bid)), requests := s.requests - {r})
        case ResultRead(task, result) =>
          s.(store := MemNext(s.store, UpsertTask(task.(completed := true))),
             requests := s.requests[r := ResultMarked(result)])
        case ResultMarked(result) => s.(store := MemNext(s.store, InsertResult(result)), requests := s.requests - {r}))
    case Abandon(r) => s.(requests := s.requests - {r})
  }

  function Execution(s: State, actions: seq<Action>): State {
    if actions == [] then s else Step(Execution(s, actions[..|actions| - 1]), actions[|actions| - 1])
  }

  // ----- what holds in every state -----

  ghost predicate StoreInv(m: Mem, next: nat) {
    && (forall id :: id in m.tasks ==> m.tasks[id].id == id && id.Canonical? && id.uuid < next)
    && (forall b :: b in m.bids ==> m.bids[b].taskId in m.tasks)
    && (forall r :: r in m.results ==> m.results[r].taskId in m.tasks && m.tasks[m.results[r].taskId].completed)
  }

  ghost predicate PhaseInv(s: State, phase: Phase) {
    match phase
    case TaskReady(task) =>
      task.id.Canonical? && task.id.uuid < s.next && task.id !in s.store.tasks && !task.completed
    case BidReady(bid) => bid.taskId in s.store.tasks
    case ResultRead(task, result) =>
      && task.id in s.store.tasks && result.taskId == task.id
      && task.(completed := true) == s.store.tasks[task.id].(completed := true)
    case ResultMarked(result) => result.taskId in s.store.tasks && s.store.tasks[result.taskId].completed
  }

  ghost predicate SameNewTask(s: State, q: nat, r: nat)
    requires q in s.requests && r in s.requests
  {
    s.requests[q].TaskReady? && s.requests[r].TaskReady? && s.requests[q].task.id == s.requests[r].task.id
  }

  /** No two requests carry the same new task. */
  ghost predicate NewTasksDiffer(s: State) {
    forall q, r :: (q in s.requests && r in s.requests && SameNewTask(s, q, r)) ==> q == r
  }

  ghost predicate Inv(s: State) {
    && StoreInv(s.store, s.next)
    && (forall r :: r in s.requests ==> PhaseInv(s, s.requests[r]))
    && NewTasksDiffer(s)
  }

  /** A task keeps every field but its status, and that only ever moves to completed. */
  ghost predicate TasksGrow(m: Mem, m': Mem) {
    forall id :: id in m.tasks ==>
      id in m'.tasks
      && (m'.tasks[id] == m.tasks[id] || m'.tasks[id] == m.tasks[id].(completed := true))
  }

  lemma StepTasksGrow(s: State, a: Action)
    requires Inv(s)
    ensures TasksGrow(s.store, Step(s, a).store)
  {
    if a.Advance? && a.request in s.requests {
      assert PhaseInv(s, s.requests[a.request]);
    }
  }

  lemma PhaseStays(s: State, a: Action, r: nat)
    requires Inv(s) && r in s.requests && r in Step(s, a).requests && Step(s, a).requests[r] == s.requests[r]
    ensures PhaseInv(Step(s, a), s.requests[r])
  {
    StepTasksGrow(s, a);
    assert PhaseInv(s, s.requests[r]);
    if s.requests[r].TaskReady? && a.Advance? && a.request in s.requests {
      assert PhaseInv(s, s.requests[a.request]);
    }
  }

  lemma NewPhase(s: State, a: Action, r: nat)
    requires Inv(s) && r in Step(s, a).requests && (r in s.requests ==> Step(s, a).requests[r] != s.requests[r])
    ensures PhaseInv(Step(s, a), Step(s, a).requests[r])
  {
    if a.Advance? {
      assert PhaseInv(s, s.requests[r]);
    }
  }

  lemma StoreStays(s: State, a: Action)
    requires Inv(s)
    ensures StoreInv(Step(s, a).store, Step(s, a).next)
  {
    StepTasksGrow(s, a);
    if a.Advance? && a.request in s.requests {
      assert PhaseInv(s, s.requests[a.request]);
    }
  }

  lemma StepKeepsInv(s: State, a: Action)
    requires Inv(s)
    ensures Inv(Step(s, a))
  {
    var t := Step(s, a);
    StoreStays(s, a);
    forall r | r in t.requests
      ensures PhaseInv(t, t.requests[r])
    {
      if r in s.requests && t.requests[r] == s.requests[r] {
        PhaseStays(s, a, r);
      } else {
        NewPhase(s, a, r);
      }
    }
    FreshTasks(s, a);
  }

  lemma NewTaskBefore(s: State, a: Action, r: nat)
    requires r in Step(s, a).requests && Step(s, a).requests[r].TaskReady?
    ensures if r in s.requests then s.requests[r] == Step(s, a).requests[r]
      else a.StartTask? && a.request == r && Step(s, a).requests[r].task.id == Canonical(s.next)
  {
  }

  lemma FreshTasks(s: State, a: Action)
    requires Inv(s)
    ensures NewTasksDiffer(Step(s, a))
  {
    hide Step;
    var t := Step(s, a);
    forall q, r | q in t.requests && r in t.requests && SameNewTask(t, q, r)
      ensures q == r
    {
      NewTaskBefore(s, a, q);
      NewTaskBefore(s, a, r);
      assert q in s.requests ==> PhaseInv(s, s.requests[q]);
      assert r in s.requests ==> PhaseInv(s, s.requests[r]);
      assert q in s.requests && r in s.requests ==> SameNewTask(s, q, r);
    }
  }

  lemma GrowTwice(a: Mem, b: Mem, c: Mem)
    requires TasksGrow(a, b) && TasksGrow(b, c)
    ensures TasksGrow(a, c)
  {
  }

  /** In every interleaving, with requests abandoned and writes failing anywhere: each stored
      result's task exists and is completed, each bid's task exists, no task ever goes back from
      completed to pending, and no other task field ever changes. */
  lemma {:induction false} EveryInterleaving(s: State, actions: seq<Action>)
    requires Inv(s)
    ensures Inv(Execution(s, actions)) && TasksGrow(s.store, Execution(s, actions).store)
  {
    if actions != [] {
      var before := Execution(s, actions[..|actions| - 1]);
      EveryInterleaving(s, actions[..|actions| - 1]);
      StepKeepsInv(before, actions[|actions| - 1]);
      StepTasksGrow(before, actions[|actions| - 1]);
      GrowTwice(s.store, before.store, Execution(s, actions).store);
    }
  }

  // ----- completed tasks and their results -----

  predicate CarriesResult(phase: Phase) {
    phase.ResultRead? || phase.ResultMarked?
  }

  ghost predicate StoredIds(s: State) {
    forall k :: k in s.store.results ==> k.Canonical? && k.uuid < s.next
  }

  ghost predicate CarriedId(s: State, r: nat)
    requires r in s.requests && CarriesResult(s.requests[r])
  {
    var id := s.requests[r].result.id;
    id.Canonical? && id.uuid < s.next && id !in s.store.results
  }

  predicate SameResultId(s: State, q: nat, r: nat) {
    && q in s.requests && r in s.requests && CarriesResult(s.requests[q]) && CarriesResult(s.requests[r])
    && s.requests[q].result.id == s.requests[r].result.id
  }

  /** Every result has a generated id of its own, stored or on its way. */
  ghost predicate OwnIds(s: State) {
    && StoredIds(s)
    && (forall r :: (r in s.requests && CarriesResult(s.requests[r])) ==> CarriedId(s, r))
    && (forall q, r :: SameResultId(s, q, r) ==> q == r)
  }

  predicate HasResult(s: State, id: IdText) {
    exists k :: k in s.store.results && s.store.results[k].taskId == id
  }

  /** A request has marked the task as completed and has yet to insert its result. */
  predicate Awaited(s: State, id: IdText) {
    exists r :: r in s.requests && s.requests[r].ResultMarked? && s.requests[r].result.taskId == id
  }

  ghost predicate Backed(s: State) {
    forall id :: id in s.store.tasks && s.store.tasks[id].completed ==> HasResult(s, id) || Awaited(s, id)
  }

  /** A request that has marked its task is abandoned, or its insert fails. */
  predicate LosesResult(s: State, a: Action) {
    (a.Abandon? || (a.Advance? && a.fails)) && a.request in s.requests && s.requests[a.request].ResultMarked?
  }

  /** A result on its way is one that was on its way before, or has just been given the next id. */
  lemma CarriedBefore(s: State, a: Action, r: nat)
    requires r in Step(s, a).requests && CarriesResult(Step(s, a).requests[r])
    ensures var result := Step(s, a).requests[r].result;
      if r in s.requests then CarriesResult(s.requests[r]) && s.requests[r].result == result
      else a.StartResult? && a.request == r && result.id == Canonical(s.next) && Step(s, a).next == s.next + 1
  {
  }

  lemma NewlyStored(s: State, a: Action, k: IdText)
    requires k in Step(s, a).store.results && k !in s.store.results
    ensures a.Advance? && a.request in s.requests && s.requests[a.request].ResultMarked?
    ensures k == s.requests[a.request].result.id && a.request !in Step(s, a).requests
  {
  }

  lemma NextGrows(s: State, a: Action)
    ensures Step(s, a).next >= s.next
  {
  }

  lemma StepKeepsOwnIds(s: State, a: Action)
    requires OwnIds(s)
    ensures OwnIds(Step(s, a))
  {
    hide Step;
    var t := Step(s, a);
    NextGrows(s, a);
    forall k | k in t.store.results
      ensures k.Canonical? && k.uuid < t.next
    {
      if k !in s.store.results {
        NewlyStored(s, a, k);
        assert CarriedId(s, a.request);
      }
    }
    forall q, r | SameResultId(t, q, r)
      ensures q == r
    {
      CarriedBefore(s, a, q);
      CarriedBefore(s, a, r);
      assert q in s.requests ==> CarriedId(s, q);
      assert r in s.requests ==> CarriedId(s, r);
      assert q in s.requests && r in s.requests ==> SameResultId(s, q, r);
    }
    forall r | r in t.requests && CarriesResult(t.requests[r])
      ensures CarriedId(t, r)
    {
      CarriedIdStays(s, a, r);
    }
  }

  lemma CarriedIdStays(s: State, a: Action, r: nat)
    requires OwnIds(s) && r in Step(s, a).requests && CarriesResult(Step(s, a).requests[r])
    ensures CarriedId(Step(s, a), r)
  {
    hide Step;
    var t := Step(s, a);
    var id := t.requests[r].result.id;
    NextGrows(s, a);
    CarriedBefore(s, a, r);
    assert r in s.requests ==> CarriedId(s, r);
    forall k | k in t.store.results
      ensures k != id
    {
      if k !in s.store.results {
        NewlyStored(s, a, k);
        assert CarriedId(s, a.request);
        assert !SameResultId(s, r, a.request);
      }
    }
  }

  lemma HasResultStays(s: State, a: Action, id: IdText)
    requires OwnIds(s) && HasResult(s, id)
    ensures HasResult(Step(s, a), id)
  {
    var k :| k in s.store.results && s.store.results[k].taskId == id;
    assert k in Step(s, a).store.results && Step(s, a).store.results[k] == s.store.results[k];
  }

  lemma AwaitedStays(s: State, a: Action, id: IdText)
    requires Awaited(s, id) && !LosesResult(s, a)
    ensures HasResult(Step(s, a), id) || Awaited(Step(s, a), id)
  {
    var t := Step(s, a);
    var r :| r in s.requests && s.requests[r].ResultMarked? && s.requests[r].result.taskId == id;
    if r in t.requests {
      assert t.requests[r] == s.requests[r];
    } else {
      var result := s.requests[r].result;
      assert result.id in t.store.results && t.store.results[result.id].taskId == id;
    }
  }

  lemma StepKeepsBacked(s: State, a: Action)
    requires Inv(s) && OwnIds(s) && Backed(s) && !LosesResult(s, a)
    ensures Backed(Step(s, a))
  {
    var t := Step(s, a);
    forall id | id in t.store.tasks && t.store.tasks[id].completed
      ensures HasResult(t, id) || Awaited(t, id)
    {
      if id in s.store.tasks && s.store.tasks[id].completed {
        if HasResult(s, id) {
          HasResultStays(s, a, id);
        } else {
          AwaitedStays(s, a, id);
        }
      } else {
        assert PhaseInv(s, s.requests[a.request]);
        assert t.requests[a.request].ResultMarked? && t.requests[a.request].result.taskId == id;
      }
    }
  }

  ghost predicate KeepsResults(s: State, actions: seq<Action>, mayLose: bool) {
    forall i :: 0 <= i < |actions| && LosesResult(Execution(s, actions[..i]), actions[i]) ==> mayLose
  }

  /** Every completed task has its result, or a request on its way to insert one, over every run in
      which no request is abandoned between its two writes and no insert of a result fails. */
  lemma {:induction false} CompletedHasResult(s: State, actions: seq<Action>)
    requires Inv(s) && OwnIds(s) && Backed(s) && KeepsResults(s, actions, false)
    ensures var t := Execution(s, actions); Inv(t) && OwnIds(t) && Backed(t)
  {
    if actions != [] {
      var front := actions[..|actions| - 1];
      assert forall i :: 0 <= i < |front| ==> front[..i] == actions[..i];
      CompletedHasResult(s, front);
      StepKeepsInv(Execution(s, front), actions[|actions| - 1]);
      StepKeepsOwnIds(Execution(s, front), actions[|actions| - 1]);
      StepKeepsBacked(Execution(s, front), actions[|actions| - 1]);
    }
  }

  ghost predicate StaysBacked(s: State, actions: seq<Action>, mayLose: bool) {
    Inv(s) && OwnIds(s) && Backed(s) && KeepsResults(s, actions, mayLose) ==> Backed(Execution(s, actions))
  }

  /** What can be left half done: a task completed without a result. A request abandoned between
      its two writes leaves one, and nothing repairs it. */
  lemma CompletedWithoutResult(s: State, id: IdText, r: nat)
    requires Inv(s) && id in s.store.tasks && r !in s.requests && !HasResult(s, id)
    ensures var t := Execution(s, [StartResult(r, id, [], ""), Advance(r, false), Abandon(r)]);
      && id in t.store.tasks && t.store.tasks[id].completed && !HasResult(t, id)
      && t.requests == s.requests
  {
    var start, mark, leave := StartResult(r, id, [], ""), Advance(r, false), Abandon(r);
    assert [start, mark, leave][..2] == [start, mark] && [start, mark][..1] == [start] && [start][..0] == [];
    var t := Step(Step(Step(s, start), mark), leave);
    assert Execution(s, [start]) == Step(s, start);
    assert Execution(s, [start, mark]) == Step(Step(s, start), mark);
    assert Execution(s, [start, mark, leave]) == t;
    assert t.store.results == s.store.results;
    assert t.requests == s.requests;
  }

  /** So every completed task has or awaits its result, over all runs, exactly when such losses are
      ruled out. */
  lemma CompletedHasResultIff(mayLose: bool)
    ensures (forall s, actions :: StaysBacked(s, actions, mayLose)) <==> !mayLose
  {
    if mayLose {
      var id := Canonical(0);
      var s := State(Mem(map[], map[id := Task(id, 0, 0, false, "")], map[], map[]), map[], 1);
      var actions := [StartResult(0, id, [], ""), Advance(0, false), Abandon(0)];
      CompletedWithoutResult(s, id, 0);
      assert !Awaited(Execution(s, actions), id);
      assert !StaysBacked(s, actions, mayLose);
    } else {
      forall s, actions
        ensures StaysBacked(s, actions, false)
      {
        if Inv(s) && OwnIds(s) && Backed(s) && KeepsResults(s, actions, false) {
          CompletedHasResult(s, actions);
        }
      }
    }
  }

  // ----- one handler, uninterrupted -----

  /** Check a payload and enqueue it; a failure of the write is only logged. */
  method Queue(outbox: Outbox.OutboxTable, call: string, payload: Json.Value, correlation: string, now: nat, fails: bool)
    modifies outbox
    ensures outbox.rows == if fails || Calls.Refusal("TaskMarket", call, payload).Some? then old(outbox.rows)
      else Outbox.Enqueue(old(outbox.rows), correlation, "TaskMarket", call, Some(payload), now)
  {
    hide Calls.Refusal;
    if Calls.Refusal("TaskMarket", call, payload).None? && !fails {
      outbox.Record(correlation, "TaskMarket", call, Some(payload), now);
    }
  }

  /** `submit_task`: check, insert, enqueue. The payload is never refused by the check before
      queueing, and a failure to queue is only logged; a budget beyond 64 bits aborts the request
      after its task has been stored. */
  method SubmitTask(store: InMemoryStorage, outbox: Outbox.OutboxTable, description: string, inputBase64: string, maxCost: nat,
                    deadline: u64, body: string, specHash: seq<byte>, newId: nat, correlation: string, now: nat,
                    queueFails: bool) returns (r: Result<Task, Error>)
    requires |specHash| == 32
    modifies store, outbox
    ensures r == Err(BadRequest) <==> Submissions.Blank(description) || Base64.Decode(inputBase64).None?
    ensures r == Err(BadRequest) ==> store.Contents() == old(store.Contents())
    ensures r != Err(BadRequest) ==>
      var before := State(old(store.Contents()), map[], newId);
      store.Contents() == Step(Step(before, StartTask(0, maxCost, deadline, body)), Advance(0, false)).store
    ensures r != Err(BadRequest) ==>
      var task := Task(Canonical(newId), maxCost, deadline, false, body);
      && store.Contents() == old(store.Contents()).(tasks := old(store.tasks)[Canonical(newId) := task])
      && (r.Ok? ==> r.value == task)
    ensures r != Err(BadRequest) ==> (r.Ok? <==> maxCost < TWO_64)
    ensures outbox.rows == if r.Err? || queueFails then old(outbox.rows) else
      Outbox.Enqueue(old(outbox.rows), correlation, "TaskMarket", "create_task",
                     Calls.TaskPayload(specHash, maxCost, deadline), now)
  {
    hide Calls.Refusal, Outbox.Enqueue, Base64.Decode, Submissions.Blank;
    if Submissions.Blank(description) || Base64.Decode(inputBase64).None? {
      return Err(BadRequest);
    }
    var task := Task(Canonical(newId), maxCost, deadline, false, body);
    store.InsertTask(task);
    var payload := Calls.TaskPayload(specHash, maxCost, deadline);
    if payload.None? {
      return Err(Internal);
    }
    Calls.TaskPayloadBuilds(specHash, maxCost, deadline, NoAddress);
    Queue(outbox, "create_task", payload.value, correlation, now, queueFails);
    return Ok(task);
  }

  function NoAddress(text: string): Option<seq<byte>> {
    None
  }

  /** `submit_bid`: read, check, insert, enqueue with the chain ids known so far, zero for none. */
  method SubmitBid(store: InMemoryStorage, outbox: Outbox.OutboxTable, taskId: IdText, agentId: string, agentHash: seq<byte>,
                   value: nat, time: u64, body: string, chainTask: int, chainAgent: int, commitment: seq<byte>,
                   newId: nat, correlation: string, now: nat, queueFails: bool) returns (r: Result<Bid, Error>)
    requires |commitment| == 32 && -TWO_63 <= chainTask < TWO_63 && -TWO_63 <= chainAgent < TWO_63
    modifies store, outbox
    ensures r.Ok? <==> taskId in old(store.tasks) && !Submissions.Blank(agentId)
    ensures r.Err? ==> r.error == if taskId in old(store.tasks) then BadRequest else NotFound
    ensures r.Err? ==> store.Contents() == old(store.Contents())
    ensures r.Ok? ==>
      var before := State(old(store.Contents()), map[], newId);
      store.Contents() == Step(Step(before, StartBid(0, taskId, agentHash, value, body)), Advance(0, false)).store
    ensures r.Ok? ==>
      && r.value == Bid(Canonical(newId), old(store.tasks)[taskId].id, agentHash, value, body)
      && store.Contents() == old(store.Contents()).(bids := old(store.bids)[Canonical(newId) := r.value])
    ensures outbox.rows == if r.Err? || queueFails then old(outbox.rows) else
      Outbox.Enqueue(old(outbox.rows), correlation, "TaskMarket", "submit_bid",
                     Some(Calls.BidPayload(chainTask, chainAgent, commitment, time)), now)
  {
    hide Calls.Refusal, Calls.BidPayload, Outbox.Enqueue, Submissions.Blank;
    var found := store.GetTask(taskId);
    if found.Err? {
      return Err(found.error);
    }
    if Submissions.Blank(agentId) {
      return Err(BadRequest);
    }
    var bid := Bid(Canonical(newId), found.value.id, agentHash, value, body);
    store.InsertBid(bid);
    var payload := Calls.BidPayload(chainTask, chainAgent, commitment, time);
    Calls.BidPayloadBuildsIff(chainTask, chainAgent, commitment, time, NoAddress);
    Queue(outbox, "submit_bid", payload, correlation, now, queueFails);
    return Ok(bid);
  }

  /** The task is completed under its own id, and the result is there under its own. */
  ghost function WithResult(m: Mem, task: Task, result: Outcome): Mem {
    m.(tasks := m.tasks[task.id := task.(completed := true)], results := m.results[result.id := result])
  }

  /** What `submit_result` and `execute_task_local` do with a task they have read: mark it, insert
      the result. */
  method Complete(store: InMemoryStorage, taskId: IdText, task: Task, agentHash: seq<byte>, body: string, newId: nat)
    returns (result: Outcome)
    requires taskId in store.tasks && store.tasks[taskId] == task
    modifies store
    ensures var before := State(old(store.Contents()), map[], newId);
      var after := Step(Step(Step(before, StartResult(0, taskId, agentHash, body)), Advance(0, false)), Advance(0, false));
      store.Contents() == after.store
    ensures result == Outcome(Canonical(newId), task.id, agentHash, body)
    ensures store.Contents() == WithResult(old(store.Contents()), task, result)
  {
    result := Outcome(Canonical(newId), task.id, agentHash, body);
    store.UpsertTask(task.(completed := true));
    store.InsertResult(result);
  }

  /** `submit_result`: read, check, mark, insert, enqueue. */
  method SubmitResult(store: InMemoryStorage, outbox: Outbox.OutboxTable, taskId: IdText, agentId: string, agentHash: seq<byte>,
                      outputBase64: string, body: string, chainTask: int, chainAgent: int, resultHash: seq<byte>,
                      newId: nat, correlation: string, now: nat, queueFails: bool) returns (r: Result<Outcome, Error>)
    requires |resultHash| == 32 && -TWO_63 <= chainTask < TWO_63 && -TWO_63 <= chainAgent < TWO_63
    modifies store, outbox
    ensures r.Ok? <==> taskId in old(store.tasks) && !Submissions.Blank(agentId) && Base64.Decode(outputBase64).Some?
    ensures r.Err? ==> r.error == if taskId in old(store.tasks) then BadRequest else NotFound
    ensures r.Err? ==> store.Contents() == old(store.Contents())
    ensures r.Ok? ==>
      var before := State(old(store.Contents()), map[], newId);
      var after := Step(Step(Step(before, StartResult(0, taskId, agentHash, body)), Advance(0, false)), Advance(0, false));
      store.Contents() == after.store
    ensures r.Ok? ==>
      && r.value == Outcome(Canonical(newId), old(store.tasks)[taskId].id, agentHash, body)
      && store.Contents() == WithResult(old(store.Contents()), old(store.tasks)[taskId], r.value)
    ensures outbox.rows == if r.Err? || queueFails then old(outbox.rows) else
      Outbox.Enqueue(old(outbox.rows), correlation, "TaskMarket", "submit_result",
                     Some(Calls.ResultPayload(chainTask, chainAgent, resultHash)), now)
  {
    hide Calls.Refusal, Calls.ResultPayload, Outbox.Enqueue, Base64.Decode, Submissions.Blank, Step;
    var found := store.GetTask(taskId);
    if found.Err? {
      return Err(found.error);
    }
    if Submissions.Blank(agentId) || Base64.Decode(outputBase64).None? {
      return Err(BadRequest);
    }
    var result := Complete(store, taskId, found.value, agentHash, body, newId);
    var payload := Calls.ResultPayload(chainTask, chainAgent, resultHash);
    Calls.ResultPayloadBuildsIff(chainTask, chainAgent, resultHash, NoAddress);
    Queue(outbox, "submit_result", payload, correlation, now, queueFails);
    return Ok(result);
  }

  /** `execute_task_local`: read, run the engine, mark, insert. An engine that fails leaves the
      storage as it was. */
  method ExecuteTaskLocal(store: InMemoryStorage, taskId: IdText, agentHash: seq<byte>, engine: Task -> Option<string>,
                          newId: nat) returns (r: Result<Outcome, Error>)
    modifies store
    ensures r.Ok? <==> taskId in old(store.tasks) && engine(old(store.tasks)[taskId]).Some?
    ensures r.Err? ==> store.Contents() == old(store.Contents())
    ensures r.Ok? ==>
      var before := State(old(store.Contents()), map[], newId);
      var body := engine(old(store.tasks)[taskId]).value;
      var after := Step(Step(Step(before, StartResult(0, taskId, agentHash, body)), Advance(0, false)), Advance(0, false));
      store.Contents() == after.store
    ensures r.Ok? ==>
      var task := old(store.tasks)[taskId];
      && r.value == Outcome(Canonical(newId), task.id, agentHash, engine(task).value)
      && store.Contents() == WithResult(old(store.Contents()), task, r.value)
  {
    var found := store.GetTask(taskId);
    if found.Err? {
      return Err(found.error);
    }
    var task := found.value;
    var output := engine(task);
    if output.None? {
      return Err(Internal);
    }
    var result := Complete(store, taskId, task, agentHash, output.value, newId);
    return Ok(result);
  }
}
