/** The hash maps and the tables give the same answers. They do so call by call exactly under a
    condition on the call, so over every run whose calls all meet it. */
module StorageRefinement {
  import opened Basics
  import opened StorageModel

  // ----- corresponding states -----

  ghost predicate AgentsMatch(m: map<string, Agent>, p: map<string, string>) {
    m.Keys == p.Keys && forall id :: id in m ==> m[id] == Agent(id, p[id])
  }

  ghost predicate TasksMatch(m: map<IdText, Task>, p: map<nat, TaskRow>) {
    && (forall id :: id in m ==> id.Canonical? && id.uuid in p)
    && (forall n :: n in p ==> Canonical(n) in m && m[Canonical(n)] == Decode(p[n]) && p[n].json.id == Canonical(n))
  }

  ghost predicate BidsMatch(m: map<IdText, Bid>, p: map<nat, BidRow>) {
    && (forall id :: id in m ==> id.Canonical? && id.uuid in p)
    && (forall n :: n in p ==>
          && Canonical(n) in m && m[Canonical(n)].id == Canonical(n) && m[Canonical(n)].taskId.Canonical?
          && p[n] == BidRow(m[Canonical(n)].taskId.uuid, m[Canonical(n)].agentHash, m[Canonical(n)]))
  }

  ghost predicate ResultsMatch(m: map<IdText, Outcome>, p: map<nat, ResultRow>) {
    && (forall id :: id in m ==>
          && id.Canonical? && m[id].id == id && m[id].taskId.Canonical? && m[id].taskId.uuid in p
          && p[m[id].taskId.uuid] == ResultRow(id.uuid, m[id].agentHash, m[id]))
    && (forall t :: t in p ==> Canonical(p[t].id) in m && m[Canonical(p[t].id)].taskId == Canonical(t))
  }

  ghost predicate Match(m: Mem, p: Pg) {
    && AgentsMatch(m.agents, p.agents) && TasksMatch(m.tasks, p.tasks)
    && BidsMatch(m.bids, p.bids) && ResultsMatch(m.results, p.results)
  }

  // ----- the exact condition on a call -----

  predicate HasBid(bids: map<IdText, Bid>, taskId: IdText, agentHash: seq<byte>) {
    exists id :: id in bids && bids[id].taskId == taskId && bids[id].agentHash == agentHash
  }

  predicate TaskFits(t: Task) {
    t.id.Canonical? && t.maxCost < TWO_63 && Storable(t.body) && IsTimestamp(AsI64(t.deadline))
  }

  predicate BidFits(m: Mem, b: Bid) {
    && b.id.Canonical? && b.taskId.Canonical? && b.value < TWO_63 && Storable(b.body)
    && if b.id in m.bids then m.bids[b.id] == b else b.taskId in m.tasks && !HasBid(m.bids, b.taskId, b.agentHash)
  }

  /** At most one result per task, under one id. */
  predicate ResultFits(m: Mem, r: Outcome) {
    && r.id.Canonical? && r.taskId in m.tasks && Storable(r.body)
    && forall id :: id in m.results ==> (m.results[id].taskId == r.taskId <==> id == r.id)
  }

  predicate BidsKnow(bids: map<IdText, Bid>, taskId: IdText) {
    exists id :: id in bids && bids[id].taskId == taskId
  }

  predicate ResultsKnow(results: map<IdText, Outcome>, taskId: IdText) {
    exists id :: id in results && results[id].taskId == taskId
  }

  predicate Admissible(m: Mem, c: Call) {
    match c
    case RegisterAgent(a) => Storable(a.id) && Storable(a.title)
    case GetAgent(id) => Storable(id)
    case InsertTask(t) => TaskFits(t) && (t.id in m.tasks ==> m.tasks[t.id] == t)
    case UpsertTask(t) => TaskFits(t)
    case InsertBid(b) => BidFits(m, b)
    case InsertResult(r) => ResultFits(m, r)
    // an id in another spelling must not name anything
    case GetTask(id) => id.Canonical? || (id.Respelled? && Canonical(id.uuid) !in m.tasks)
    case GetBids(id) => id.Canonical? || (id.Respelled? && !BidsKnow(m.bids, Canonical(id.uuid)))
    case GetResult(id) => id.Canonical? || (id.Respelled? && !ResultsKnow(m.results, Canonical(id.uuid)))
    case _ => true
  }

  ghost predicate SameAnswer(m: Mem, p: Pg, c: Call) {
    forall a :: MayAnswer(m, c, a) <==> a == PgAnswer(p, c)
  }

  ghost predicate Agree(m: Mem, p: Pg, c: Call) {
    SameAnswer(m, p, c) && Match(MemNext(m, c), PgNext(p, c))
  }

  // ----- agents -----

  lemma RegisterAgentAgrees(m: Mem, p: Pg, a: Agent)
    requires Match(m, p)
    ensures Agree(m, p, RegisterAgent(a)) <==> Admissible(m, RegisterAgent(a))
  {
    assert MayAnswer(m, RegisterAgent(a), Unit);
    if Storable(a.id) && Storable(a.title) {
      assert AgentsMatch(m.agents[a.id := a], p.agents[a.id := a.title]);
    }
  }

  lemma GetAgentAgrees(m: Mem, p: Pg, id: string)
    requires Match(m, p)
    ensures Agree(m, p, GetAgent(id)) <==> Admissible(m, GetAgent(id))
  {
    assert MayAnswer(m, GetAgent(id), if id in m.agents then OneAgent(m.agents[id]) else Failed(NotFound));
  }

  lemma ListAgentsAgrees(m: Mem, p: Pg)
    requires Match(m, p)
    ensures Agree(m, p, ListAgents)
  {
    assert (set id | id in m.agents :: m.agents[id]) == (set id | id in p.agents :: Agent(id, p.agents[id]));
  }

  // ----- tasks -----

  /** Inserting keeps the correspondence exactly for a canonical id that is new or says the same. */
  lemma PutTaskMatch(m: map<IdText, Task>, p: map<nat, TaskRow>, t: Task)
    requires TasksMatch(m, p) && !t.id.NoUuid?
    ensures TasksMatch(m[t.id := t], PutIfAbsent(p, t)) <==> t.id.Canonical? && (t.id in m ==> m[t.id] == t)
  {
    var m', p' := m[t.id := t], PutIfAbsent(p, t);
    assert t.id in m';
    if t.id.Canonical? && t.id in m {
      if m[t.id] == t {
        assert m' == m;
      } else {
        assert m'[Canonical(t.id.uuid)] != Decode(p'[t.id.uuid]);
      }
    }
  }

  lemma InsertTaskAgrees(m: Mem, p: Pg, t: Task)
    requires Match(m, p)
    ensures Agree(m, p, InsertTask(t)) <==> Admissible(m, InsertTask(t))
  {
    assert SameAnswer(m, p, InsertTask(t)) <==> TaskError(t).None? by {
      assert MayAnswer(m, InsertTask(t), Unit);
    }
    if TaskError(t).None? {
      PutTaskMatch(m.tasks, p.tasks, t);
    }
  }

  lemma OverwriteTaskMatch(m: map<IdText, Task>, p: map<nat, TaskRow>, t: Task)
    requires TasksMatch(m, p) && !t.id.NoUuid?
    ensures TasksMatch(m[t.id := t], p[t.id.uuid := TaskRow(t.completed, t)]) <==> t.id.Canonical?
  {
    assert t.id in m[t.id := t];
  }

  lemma UpsertTaskAgrees(m: Mem, p: Pg, t: Task)
    requires Match(m, p)
    ensures Agree(m, p, UpsertTask(t)) <==> Admissible(m, UpsertTask(t))
  {
    assert SameAnswer(m, p, UpsertTask(t)) <==> TaskError(t).None? by {
      assert MayAnswer(m, UpsertTask(t), Unit);
    }
    if TaskError(t).None? {
      OverwriteTaskMatch(m.tasks, p.tasks, t);
    }
  }

  lemma GetTaskAgrees(m: Mem, p: Pg, id: IdText)
    requires Match(m, p)
    ensures Agree(m, p, GetTask(id)) <==> Admissible(m, GetTask(id))
  {
    assert MayAnswer(m, GetTask(id), if id in m.tasks then OneTask(m.tasks[id]) else Failed(NotFound));
    assert id.Canonical? ==> (id in m.tasks <==> id.uuid in p.tasks);
    assert id.Respelled? ==> id !in m.tasks && (Canonical(id.uuid) in m.tasks <==> id.uuid in p.tasks);
  }

  lemma ListTasksAgrees(m: Mem, p: Pg)
    requires Match(m, p)
    ensures Agree(m, p, ListTasks)
  {
    ListedTasks(m.tasks, p.tasks);
  }

  lemma ListedTasks(m: map<IdText, Task>, p: map<nat, TaskRow>)
    requires TasksMatch(m, p)
    ensures (set id | id in m :: m[id]) == (set n | n in p :: Decode(p[n]))
  {
    var inMemory, inTable := set id | id in m :: m[id], set n | n in p :: Decode(p[n]);
    forall t
      ensures t in inMemory <==> t in inTable
    {
      if t in inMemory {
        var id :| id in m && m[id] == t;
        assert Decode(p[id.uuid]) == t;
      }
      if t in inTable {
        var n :| n in p && Decode(p[n]) == t;
        assert m[Canonical(n)] == t;
      }
    }
  }

  // ----- bids -----

  lemma BidLookups(m: map<IdText, Bid>, p: map<nat, BidRow>, task: nat, agentHash: seq<byte>)
    requires BidsMatch(m, p)
    ensures HasBid(m, Canonical(task), agentHash)
       <==> exists n :: n in p && p[n].task == task && p[n].agentHash == agentHash
  {
    if HasBid(m, Canonical(task), agentHash) {
      var id :| id in m && m[id].taskId == Canonical(task) && m[id].agentHash == agentHash;
      assert p[id.uuid].task == task && p[id.uuid].agentHash == agentHash;
    }
    if n :| n in p && p[n].task == task && p[n].agentHash == agentHash {
      assert m[Canonical(n)].taskId == Canonical(task);
    }
  }

  /** Inserting keeps the correspondence exactly for canonical ids, the bid's own new or its
      stored value the same. */
  lemma PutBidMatch(m: map<IdText, Bid>, p: map<nat, BidRow>, b: Bid)
    requires BidsMatch(m, p) && !b.id.NoUuid? && !b.taskId.NoUuid?
    ensures BidsMatch(m[b.id := b], PutBidIfAbsent(p, b))
       <==> b.id.Canonical? && b.taskId.Canonical? && (b.id in m ==> m[b.id] == b)
  {
    var m', p' := m[b.id := b], PutBidIfAbsent(p, b);
    assert b.id in m' && m'[b.id] == b;
    if b.id in m && m[b.id] == b {
      assert m' == m;
    }
    if BidsMatch(m', p') {
      assert p'[b.id.uuid].json == b;
    }
  }

  lemma BidErrors(m: Mem, p: Pg, b: Bid)
    requires Match(m, p) && b.id.Canonical? && b.taskId.Canonical?
    ensures BidError(p, b).None? <==>
      b.value < TWO_63 && Storable(b.body) && (b.id in m.bids || (b.taskId in m.tasks && !HasBid(m.bids, b.taskId, b.agentHash)))
  {
    BidLookups(m.bids, p.bids, b.taskId.uuid, b.agentHash);
    assert b.id in m.bids <==> b.id.uuid in p.bids;
    assert b.taskId in m.tasks <==> b.taskId.uuid in p.tasks;
  }

  /** What agreement on an insert comes down to. */
  lemma InsertBidUnfolds(m: Mem, p: Pg, b: Bid)
    requires Match(m, p)
    ensures Agree(m, p, InsertBid(b)) <==>
      BidError(p, b).None? && BidsMatch(m.bids[b.id := b], PutBidIfAbsent(p.bids, b))
  {
    assert MayAnswer(m, InsertBid(b), Unit);
  }

  lemma InsertBidAgrees(m: Mem, p: Pg, b: Bid)
    requires Match(m, p)
    ensures Agree(m, p, InsertBid(b)) <==> Admissible(m, InsertBid(b))
  {
    InsertBidUnfolds(m, p, b);
    if !b.id.NoUuid? && !b.taskId.NoUuid? {
      PutBidMatch(m.bids, p.bids, b);
    }
    if b.id.Canonical? && b.taskId.Canonical? {
      BidErrors(m, p, b);
    }
  }

  lemma BidsOfTask(m: map<IdText, Bid>, p: map<nat, BidRow>, id: IdText)
    requires BidsMatch(m, p) && !id.NoUuid?
    ensures BidsOf(m, Canonical(id.uuid)) == RowsOf(p, id.uuid)
    ensures id.Respelled? ==> BidsOf(m, id) == {}
    ensures BidsOf(m, Canonical(id.uuid)) == {} <==> !BidsKnow(m, Canonical(id.uuid))
  {
    forall k | k in m && m[k].taskId == Canonical(id.uuid)
      ensures m[k] in RowsOf(p, id.uuid) && m[k] in BidsOf(m, Canonical(id.uuid))
    {
      assert p[k.uuid].json == m[k];
    }
    forall n | n in p && p[n].task == id.uuid
      ensures p[n].json in BidsOf(m, Canonical(id.uuid))
    {
      assert m[Canonical(n)] == p[n].json;
    }
  }

  lemma GetBidsAgrees(m: Mem, p: Pg, id: IdText)
    requires Match(m, p)
    ensures Agree(m, p, GetBids(id)) <==> Admissible(m, GetBids(id))
  {
    assert MayAnswer(m, GetBids(id), Bids(BidsOf(m.bids, id)));
    if !id.NoUuid? {
      BidsOfTask(m.bids, p.bids, id);
    }
  }

  // ----- results -----

  lemma PutResultMatch(m: map<IdText, Outcome>, p: map<nat, ResultRow>, r: Outcome)
    requires ResultsMatch(m, p) && r.id.Canonical? && r.taskId.Canonical?
    requires forall id :: id in m ==> (m[id].taskId == r.taskId <==> id == r.id)
    ensures ResultsMatch(m[r.id := r], p[r.taskId.uuid := ResultRow(r.id.uuid, r.agentHash, r)])
    ensures forall t :: t in p && t != r.taskId.uuid ==> p[t].id != r.id.uuid
  {
    forall t | t in p && t != r.taskId.uuid
      ensures p[t].id != r.id.uuid
    {
      assert m[Canonical(p[t].id)].taskId == Canonical(t);
    }
  }

  /** Conversely, a second result for a task, or a used id, breaks the correspondence. */
  lemma OtherResultBreaks(m: map<IdText, Outcome>, p: map<nat, ResultRow>, r: Outcome, id: IdText)
    requires ResultsMatch(m, p) && r.id.Canonical? && r.taskId.Canonical?
    requires forall t :: t in p && t != r.taskId.uuid ==> p[t].id != r.id.uuid
    requires ResultsMatch(m[r.id := r], p[r.taskId.uuid := ResultRow(r.id.uuid, r.agentHash, r)])
    requires id in m
    ensures m[id].taskId == r.taskId <==> id == r.id
  {
    if id != r.id {
      assert m[r.id := r][id] == m[id];
    } else {
      assert p[m[id].taskId.uuid].id == r.id.uuid;
    }
  }

  lemma InsertResultUnfolds(m: Mem, p: Pg, r: Outcome)
    requires Match(m, p)
    ensures Agree(m, p, InsertResult(r)) <==>
      ResultError(p, r).None? && ResultsMatch(m.results[r.id := r], PutResult(p.results, r))
  {
    assert MayAnswer(m, InsertResult(r), Unit);
  }

  lemma InsertResultAgrees(m: Mem, p: Pg, r: Outcome)
    requires Match(m, p)
    ensures Agree(m, p, InsertResult(r)) <==> Admissible(m, InsertResult(r))
  {
    InsertResultUnfolds(m, p, r);
    if ResultFits(m, r) {
      PutResultMatch(m.results, p.results, r);
    }
    if Agree(m, p, InsertResult(r)) {
      AgreeingResultFits(m, p, r);
    }
  }

  lemma AgreeingResultFits(m: Mem, p: Pg, r: Outcome)
    requires Match(m, p) && ResultError(p, r).None?
    requires ResultsMatch(m.results[r.id := r], PutResult(p.results, r))
    ensures ResultFits(m, r)
  {
    assert r.id in m.results[r.id := r];
    assert r.id.Canonical? && r.taskId.Canonical? && r.taskId in m.tasks;
    forall id | id in m.results
      ensures m.results[id].taskId == r.taskId <==> id == r.id
    {
      OtherResultBreaks(m.results, p.results, r, id);
    }
  }

  lemma ResultLookup(m: map<IdText, Outcome>, p: map<nat, ResultRow>, n: nat)
    requires ResultsMatch(m, p)
    ensures ResultsKnow(m, Canonical(n)) <==> n in p
    ensures n in p ==> forall id :: id in m && m[id].taskId == Canonical(n) ==> m[id] == p[n].json
    ensures forall id: IdText :: id.Respelled? || id.NoUuid? ==> !ResultsKnow(m, id)
  {
    if n in p {
      assert m[Canonical(p[n].id)].taskId == Canonical(n);
    }
  }

  lemma GetResultAgrees(m: Mem, p: Pg, id: IdText)
    requires Match(m, p)
    ensures Agree(m, p, GetResult(id)) <==> Admissible(m, GetResult(id))
  {
    var n: nat := if id.NoUuid? then 0 else id.uuid;
    ResultLookup(m.results, p.results, n);
    if id.Canonical? && n in p.results {
      var k :| k in m.results && m.results[k].taskId == id;
      assert MayAnswer(m, GetResult(id), OneResult(m.results[k]));
      forall a | MayFind(m.results, id, a)
        ensures a == OneResult(p.results[n].json)
      {
      }
    } else {
      assert !ResultsKnow(m.results, id);
      assert MayAnswer(m, GetResult(id), Failed(NotFound));
    }
    assert Match(MemNext(m, GetResult(id)), PgNext(p, GetResult(id)));
  }

  // ----- counts -----

  lemma SameSize<A, B>(a: set<A>, b: set<B>, f: A -> B)
    requires forall x :: x in a ==> f(x) in b
    requires forall y :: y in b ==> exists x :: x in a && f(x) == y
    requires forall x, x' :: x in a && x' in a && f(x) == f(x') ==> x == x'
    ensures |a| == |b|
  {
    if a != {} {
      var x :| x in a;
      SameSize(a - {x}, b - {f(x)}, f);
    } else {
      assert b == {};
    }
  }

  lemma TaskCounts(m: map<IdText, Task>, p: map<nat, TaskRow>)
    requires TasksMatch(m, p)
    ensures |m| == |p| && |CompletedIn(m)| == |CompletedRows(p)| && |PendingRows(p)| == |p| - |CompletedRows(p)|
  {
    var key := (n: nat) => Canonical(n);
    assert forall id :: id in m ==> key(id.uuid) == id && id.uuid in p.Keys;
    SameSize(p.Keys, m.Keys, key);
    assert forall id :: id in CompletedIn(m) ==> key(id.uuid) == id && id.uuid in CompletedRows(p);
    assert forall n :: n in CompletedRows(p) ==> key(n) in CompletedIn(m);
    SameSize(CompletedRows(p), CompletedIn(m), key);
    assert CompletedRows(p) + PendingRows(p) == p.Keys;
  }

  lemma DashboardAgrees(m: Mem, p: Pg)
    requires Match(m, p)
    ensures Agree(m, p, DashboardCounts)
  {
    TaskCounts(m.tasks, p.tasks);
    assert |m.agents.Keys| == |p.agents.Keys|;
  }

  /** One call, from corresponding states: the answers are equal and the states correspond again
      exactly when the call is admissible. */
  lemma StepAgreesIff(m: Mem, p: Pg, c: Call)
    requires Match(m, p)
    ensures Agree(m, p, c) <==> Admissible(m, c)
  {
    match c
    case RegisterAgent(a) => RegisterAgentAgrees(m, p, a);
    case GetAgent(id) => GetAgentAgrees(m, p, id);
    case ListAgents => ListAgentsAgrees(m, p);
    case InsertTask(t) => InsertTaskAgrees(m, p, t);
    case UpsertTask(t) => UpsertTaskAgrees(m, p, t);
    case GetTask(id) => GetTaskAgrees(m, p, id);
    case ListTasks => ListTasksAgrees(m, p);
    case InsertBid(b) => InsertBidAgrees(m, p, b);
    case GetBids(id) => GetBidsAgrees(m, p, id);
    case InsertResult(r) => InsertResultAgrees(m, p, r);
    case GetResult(id) => GetResultAgrees(m, p, id);
    case DashboardCounts => DashboardAgrees(m, p);
  }

  // ----- runs -----

  function MemRun(m: Mem, calls: seq<Call>): Mem {
    if calls == [] then m else MemNext(MemRun(m, calls[..|calls| - 1]), calls[|calls| - 1])
  }

  function PgRun(p: Pg, calls: seq<Call>): Pg {
    if calls == [] then p else PgNext(PgRun(p, calls[..|calls| - 1]), calls[|calls| - 1])
  }

  /** Every call of the run is admissible at its point. */
  ghost predicate AllAdmissible(m: Mem, calls: seq<Call>) {
    forall i :: 0 <= i < |calls| ==> Admissible(MemRun(m, calls[..i]), calls[i])
  }

  lemma {:induction false} RunsMatch(m: Mem, p: Pg, calls: seq<Call>)
    requires Match(m, p) && AllAdmissible(m, calls)
    ensures Match(MemRun(m, calls), PgRun(p, calls))
  {
    if calls != [] {
      var front := calls[..|calls| - 1];
      forall i | 0 <= i < |front|
        ensures Admissible(MemRun(m, front[..i]), front[i])
      {
        assert front[..i] == calls[..i];
      }
      RunsMatch(m, p, front);
      StepAgreesIff(MemRun(m, front), PgRun(p, front), calls[|calls| - 1]);
    }
  }

  /** From empty storage, over every admissible run, every call is answered alike. */
  lemma BackendsAnswerAlike(calls: seq<Call>, i: nat)
    requires i < |calls| && AllAdmissible(Mem(map[], map[], map[], map[]), calls)
    ensures SameAnswer(MemRun(Mem(map[], map[], map[], map[]), calls[..i]),
                       PgRun(Pg(map[], map[], map[], map[]), calls[..i]), calls[i])
  {
    var m, p := Mem(map[], map[], map[], map[]), Pg(map[], map[], map[], map[]);
    forall j | 0 <= j < |calls[..i]|
      ensures Admissible(MemRun(m, calls[..i][..j]), calls[..i][j])
    {
      assert calls[..i][..j] == calls[..j];
    }
    RunsMatch(m, p, calls[..i]);
    StepAgreesIff(MemRun(m, calls[..i]), PgRun(p, calls[..i]), calls[i]);
  }
}
