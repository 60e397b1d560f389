/** The two implementations of the storage interface as objects that update their maps and tables
    in place. Each method answers and leaves behind what StorageModel says. */
module Storage {
  import opened Basics
  import opened StorageModel

  class InMemoryStorage {
    var agents: map<string, Agent>
    var tasks: map<IdText, Task>
    var bids: map<IdText, Bid>
    var results: map<IdText, Outcome>

    ghost function Contents(): Mem
      reads this
    {
      Mem(agents, tasks, bids, results)
    }

    constructor ()
      ensures Contents() == Mem(map[], map[], map[], map[])
    {
      agents, tasks, bids, results := map[], map[], map[], map[];
    }

    method RegisterAgent(agent: Agent)
      modifies this
      ensures Contents() == MemNext(old(Contents()), Call.RegisterAgent(agent))
    {
      agents := agents[agent.id := agent];
    }

    method InsertTask(task: Task)
      modifies this
      ensures Contents() == MemNext(old(Contents()), Call.InsertTask(task))
    {
      tasks := tasks[task.id := task];
    }

    method UpsertTask(task: Task)
      modifies this
      ensures Contents() == MemNext(old(Contents()), Call.UpsertTask(task))
    {
      tasks := tasks[task.id := task];
    }

    method GetTask(id: IdText) returns (r: Result<Task, Error>)
      ensures MayAnswer(Contents(), Call.GetTask(id), if r.Ok? then OneTask(r.value) else Failed(r.error))
    {
      r := if id in tasks then Ok(tasks[id]) else Err(NotFound);
    }

    method InsertBid(bid: Bid)
      modifies this
      ensures Contents() == MemNext(old(Contents()), Call.InsertBid(bid))
    {
      bids := bids[bid.id := bid];
    }

    method InsertResult(result: Outcome)
      modifies this
      ensures Contents() == MemNext(old(Contents()), Call.InsertResult(result))
    {
      results := results[result.id := result];
    }

    /** `values().find(...)`: the map is walked in no particular order. */
    method GetResultForTask(taskId: IdText) returns (r: Result<Outcome, Error>)
      ensures MayAnswer(Contents(), Call.GetResult(taskId), if r.Ok? then OneResult(r.value) else Failed(r.error))
    {
      var rest := results.Keys;
      while rest != {}
        invariant rest <= results.Keys
        invariant forall id :: id in results && id !in rest ==> results[id].taskId != taskId
        decreases rest
      {
        var id :| id in rest;
        rest := rest - {id};
        if results[id].taskId == taskId {
          return Ok(results[id]);
        }
      }
      return Err(NotFound);
    }

    /** Counting completed tasks; the rest are pending. */
    method DashboardCounts() returns (agentCount: nat, taskCount: nat, completed: nat, pending: nat)
      ensures MayAnswer(Contents(), Call.DashboardCounts, Counts(agentCount, taskCount, completed, pending))
    {
      taskCount := |tasks|;
      completed := 0;
      var rest := tasks.Keys;
      while rest != {}
        invariant rest <= tasks.Keys
        invariant completed == |CompletedIn(tasks) - rest|
        decreases rest
      {
        var id :| id in rest;
        ghost var before := rest;
        rest := rest - {id};
        if tasks[id].completed {
          assert CompletedIn(tasks) - rest == (CompletedIn(tasks) - before) + {id};
          completed := completed + 1;
        } else {
          assert CompletedIn(tasks) - rest == CompletedIn(tasks) - before;
        }
      }
      assert CompletedIn(tasks) - {} == CompletedIn(tasks);
      pending := SaturatingSub(taskCount, completed);
      agentCount := |agents|;
    }
  }

  class PostgresStorage {
    var agents: map<string, string>
    var tasks: map<nat, TaskRow>
    var bids: map<nat, BidRow>
    var results: map<nat, ResultRow>

    ghost function Contents(): Pg
      reads this
    {
      Pg(agents, tasks, bids, results)
    }

    constructor ()
      ensures Contents() == Pg(map[], map[], map[], map[])
    {
      agents, tasks, bids, results := map[], map[], map[], map[];
    }

    method RegisterAgent(agent: Agent) returns (r: Result<(), Error>)
      modifies this
      ensures PgAnswer(old(Contents()), Call.RegisterAgent(agent)) == if r.Ok? then Unit else Failed(r.error)
      ensures Contents() == PgNext(old(Contents()), Call.RegisterAgent(agent))
    {
      if !Storable(agent.id) || !Storable(agent.title) {
        return Err(Internal);
      }
      agents := agents[agent.id := agent.title];
      return Ok(());
    }

    /** The checks and conversions every task write goes through before its statement. */
    method CheckTask(task: Task) returns (r: Result<nat, Error>)
      ensures TaskError(task) == if r.Ok? then None else Some(r.error)
      ensures r.Ok? ==> ParseUuid(task.id) == Some(r.value)
    {
      var uuid := ParseUuid(task.id);
      if uuid.None? {
        return Err(BadRequest);
      }
      if task.maxCost >= TWO_63 {
        return Err(BadRequest);
      }
      if !Storable(task.body) || !IsTimestamp(AsI64(task.deadline)) {
        return Err(Internal);
      }
      return Ok(uuid.value);
    }

    method InsertTask(task: Task) returns (r: Result<(), Error>)
      modifies this
      ensures PgAnswer(old(Contents()), Call.InsertTask(task)) == if r.Ok? then Unit else Failed(r.error)
      ensures Contents() == PgNext(old(Contents()), Call.InsertTask(task))
    {
      var uuid := CheckTask(task);
      if uuid.Err? {
        return Err(uuid.error);
      }
      if uuid.value !in tasks {
        tasks := tasks[uuid.value := TaskRow(task.completed, task)];
      }
      return Ok(());
    }

    method UpsertTask(task: Task) returns (r: Result<(), Error>)
      modifies this
      ensures PgAnswer(old(Contents()), Call.UpsertTask(task)) == if r.Ok? then Unit else Failed(r.error)
      ensures Contents() == PgNext(old(Contents()), Call.UpsertTask(task))
    {
      var uuid := CheckTask(task);
      if uuid.Err? {
        return Err(uuid.error);
      }
      tasks := tasks[uuid.value := TaskRow(task.completed, task)];
      return Ok(());
    }

    /** The status column overrides the status inside the stored value. */
    method GetTask(id: IdText) returns (r: Result<Task, Error>)
      ensures PgAnswer(Contents(), Call.GetTask(id)) == if r.Ok? then OneTask(r.value) else Failed(r.error)
    {
      var uuid := ParseUuid(id);
      if uuid.None? {
        return Err(BadRequest);
      }
      if uuid.value !in tasks {
        return Err(NotFound);
      }
      var row := tasks[uuid.value];
      return Ok(row.json.(completed := row.completed));
    }

    method InsertBid(bid: Bid) returns (r: Result<(), Error>)
      modifies this
      ensures PgAnswer(old(Contents()), Call.InsertBid(bid)) == if r.Ok? then Unit else Failed(r.error)
      ensures Contents() == PgNext(old(Contents()), Call.InsertBid(bid))
    {
      var uuid, task := ParseUuid(bid.id), ParseUuid(bid.taskId);
      if uuid.None? || task.None? || bid.value >= TWO_63 {
        return Err(BadRequest);
      }
      if !Storable(bid.body) {
        return Err(Internal);
      }
      if uuid.value in bids {
        return Ok(());
      }
      if task.value !in tasks {
        return Err(Internal);
      }
      if exists n :: n in bids && bids[n].task == task.value && bids[n].agentHash == bid.agentHash {
        return Err(Internal);
      }
      bids := bids[uuid.value := BidRow(task.value, bid.agentHash, bid)];
      return Ok(());
    }

    method InsertResult(result: Outcome) returns (r: Result<(), Error>)
      modifies this
      ensures PgAnswer(old(Contents()), Call.InsertResult(result)) == if r.Ok? then Unit else Failed(r.error)
      ensures Contents() == PgNext(old(Contents()), Call.InsertResult(result))
    {
      var uuid, task := ParseUuid(result.id), ParseUuid(result.taskId);
      if uuid.None? || task.None? {
        return Err(BadRequest);
      }
      if !Storable(result.body) || task.value !in tasks {
        return Err(Internal);
      }
      if exists t :: t in results && t != task.value && results[t].id == uuid.value {
        return Err(Internal);
      }
      results := results[task.value := ResultRow(uuid.value, result.agentHash, result)];
      return Ok(());
    }

    method GetResultForTask(taskId: IdText) returns (r: Result<Outcome, Error>)
      ensures PgAnswer(Contents(), Call.GetResult(taskId)) == if r.Ok? then OneResult(r.value) else Failed(r.error)
    {
      var uuid := ParseUuid(taskId);
      if uuid.None? {
        return Err(BadRequest);
      }
      r := if uuid.value in results then Ok(results[uuid.value].json) else Err(NotFound);
    }
  }
}
