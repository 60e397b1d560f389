/** Convergence needs the outbox to be calm, and nothing less will do: from any outbox that is
    not calm some causal block, interrupted once, is replayed to a different result. */
module Divergence {
  import opened Basics
  import opened OutboxRows
  import opened PatchCalm
  import opened Projection
  import opened Convergence
  import Json

  ghost predicate Replays(db: Db, ops: seq<Op>, k: nat) {
    Causal(db.tasks.Keys, ops) && k <= |ops| ==> Alike(Run(ops, Run(ops[..k], db)), Run(ops, db))
  }

  /** Every causal block can be interrupted anywhere and replayed safely from this database. */
  ghost predicate ConvergesFrom(db: Db) {
    forall events: seq<Event>, block: nat, cursor: Cursor, pick: Pick, k: nat ::
      Replays(db, BlockOps(events, block, cursor, pick, |events|), k)
  }

  // ----- the effect of the witness block on the outbox -----

  /** One TaskCreated and one TaskCompleted, both without an extrinsic, patch three times. */
  function Thrice(rows: Table, v: int): Table {
    Patch(Patch(Patch(rows, TaskKey, v), TaskKey, v), AgentKey, v)
  }

  function FinalizeAll(rows: Table, hashes: seq<string>): Table {
    if hashes == [] then rows
    else FinalizeByHash(FinalizeAll(rows, hashes[..|hashes| - 1]), hashes[|hashes| - 1], Some(1), Some(1))
  }

  /** Equal as far as patches of one key can tell. */
  ghost predicate SameFor(rows: Table, after: Table, k: IdKey) {
    after.Keys == rows.Keys
    && forall id :: id in rows ==>
         after[id].txHash == rows[id].txHash && after[id].status == rows[id].status
         && FieldOf(after[id].payload, k) == FieldOf(rows[id].payload, k)
         && (NotJsonb(after[id].payload) <==> NotJsonb(rows[id].payload))
  }

  lemma SameForPoison(rows: Table, after: Table, k: IdKey)
    requires SameFor(rows, after, k)
    ensures Poisoned(after, k) <==> Poisoned(rows, k)
  {
    if Poisoned(rows, k) {
      var id :| id in rows && Poison(rows[id], k);
      assert Poison(after[id], k);
    }
    if Poisoned(after, k) {
      var id :| id in after && Poison(after[id], k);
      assert Poison(rows[id], k);
    }
  }

  lemma PatchOneSameFor(rows: Table, key: IdKey, v: int, k: IdKey, id: string)
    requires 0 < v < TWO_63 && id in rows && !Poisoned(rows, key) && key != k
    ensures var after := PatchRow(rows[id], key, v);
      FieldOf(after.payload, k) == FieldOf(rows[id].payload, k) && (NotJsonb(after.payload) <==> NotJsonb(rows[id].payload))
  {
    PatchRowFrame(rows[id], key, v);
    assert !Poison(rows[id], key);
  }

  lemma PatchSameFor(rows: Table, key: IdKey, v: int, k: IdKey)
    requires 0 < v < TWO_63 && (key != k || Poisoned(rows, k))
    ensures SameFor(rows, Patch(rows, key, v), k)
  {
    if !Poisoned(rows, key) {
      forall id | id in rows
        ensures var after := PatchRow(rows[id], key, v);
          FieldOf(after.payload, k) == FieldOf(rows[id].payload, k) && (NotJsonb(after.payload) <==> NotJsonb(rows[id].payload))
      {
        PatchOneSameFor(rows, key, v, k, id);
      }
    }
  }

  lemma ThriceWhilePoisoned(rows: Table, v: int, k: IdKey)
    requires 0 < v < TWO_63 && Poisoned(rows, k)
    ensures SameFor(rows, Thrice(rows, v), k)
  {
    var r1 := Patch(rows, TaskKey, v);
    var r2 := Patch(r1, TaskKey, v);
    PatchSameFor(rows, TaskKey, v, k);
    SameForPoison(rows, r1, k);
    PatchSameFor(r1, TaskKey, v, k);
    SameForPoison(r1, r2, k);
    PatchSameFor(r2, AgentKey, v, k);
  }

  /** An id that is set stays, whatever is patched or finalized. */
  lemma SetIdStays(rows: Table, key: IdKey, v: int, k: IdKey, z: string)
    requires z in rows && FieldOf(rows[z].payload, k).Id? && FieldOf(rows[z].payload, k).n != 0
    requires -TWO_63 <= v < TWO_63
    ensures FieldOf(Patch(rows, key, v)[z].payload, k) == FieldOf(rows[z].payload, k)
  {
    PatchRowFrame(rows[z], key, v);
  }

  lemma ThriceWhenClean(rows: Table, v: int, k: IdKey, z: string)
    requires 0 < v < TWO_63 && !Poisoned(rows, k) && z in rows && Placeholder(rows[z], k)
    ensures z in Thrice(rows, v) && FieldOf(Thrice(rows, v)[z].payload, k) == Id(v)
  {
    var r1 := Patch(rows, TaskKey, v);
    var r2 := Patch(r1, TaskKey, v);
    if k.TaskKey? {
      PatchRowFrame(rows[z], k, v);
      SetIdStays(r1, TaskKey, v, k, z);
      SetIdStays(r2, AgentKey, v, k, z);
    } else {
      PatchSameFor(rows, TaskKey, v, k);
      SameForPoison(rows, r1, k);
      PatchSameFor(r1, TaskKey, v, k);
      SameForPoison(r1, r2, k);
      PatchRowFrame(r2[z], k, v);
    }
  }

  lemma ThriceKeepsSetId(rows: Table, v: int, k: IdKey, z: string)
    requires z in rows && FieldOf(rows[z].payload, k).Id? && FieldOf(rows[z].payload, k).n != 0
    requires -TWO_63 <= v < TWO_63
    ensures z in Thrice(rows, v) && FieldOf(Thrice(rows, v)[z].payload, k) == FieldOf(rows[z].payload, k)
  {
    SetIdStays(rows, TaskKey, v, k, z);
    SetIdStays(Patch(rows, TaskKey, v), TaskKey, v, k, z);
    SetIdStays(Patch(Patch(rows, TaskKey, v), TaskKey, v), AgentKey, v, k, z);
  }

  lemma {:induction false} FinalizeAllRow(rows: Table, hashes: seq<string>, id: string)
    requires id in rows
    ensures id in FinalizeAll(rows, hashes)
    ensures var after := FinalizeAll(rows, hashes)[id];
      && after.payload == rows[id].payload && after.txHash == rows[id].txHash
      && after.status == if rows[id].txHash.Some? && rows[id].txHash.value in hashes then Finalized else rows[id].status
  {
    if hashes != [] {
      FinalizeAllRow(rows, hashes[..|hashes| - 1], id);
      assert hashes == hashes[..|hashes| - 1] + [hashes[|hashes| - 1]];
    }
  }

  lemma {:induction false} FinalizeAllKeys(rows: Table, hashes: seq<string>)
    ensures FinalizeAll(rows, hashes).Keys == rows.Keys
  {
    if hashes != [] {
      FinalizeAllKeys(rows, hashes[..|hashes| - 1]);
    }
  }

  lemma FinalizeAllEffect(rows: Table, hashes: seq<string>)
    ensures FinalizeAll(rows, hashes).Keys == rows.Keys
    ensures forall id :: id in rows ==>
      var after := FinalizeAll(rows, hashes)[id];
      && after.payload == rows[id].payload && after.txHash == rows[id].txHash
      && after.status == if rows[id].txHash.Some? && rows[id].txHash.value in hashes then Finalized else rows[id].status
  {
    hide FinalizeAll;
    FinalizeAllKeys(rows, hashes);
    forall id | id in rows
      ensures var after := FinalizeAll(rows, hashes)[id];
        && after.payload == rows[id].payload && after.txHash == rows[id].txHash
        && after.status == if rows[id].txHash.Some? && rows[id].txHash.value in hashes then Finalized else rows[id].status
    {
      FinalizeAllRow(rows, hashes, id);
    }
  }

  /** The heart of the counterexample: the interrupted pass lifts the blockade before the first
      patch is replayed, so the first id wins where the last one had. */
  lemma PatchOrderMatters(rows: Table, k: IdKey, z: string, hashes: seq<string>)
    requires Poisoned(rows, k) && z in rows && Placeholder(rows[z], k)
    requires forall id :: id in rows && Poison(rows[id], k) ==> rows[id].txHash.Some? && rows[id].txHash.value in hashes
    requires rows[z].txHash.Some? ==> rows[z].txHash.value !in hashes
    ensures var cut := FinalizeAll(Thrice(rows, 1), hashes);
      && Thrice(cut, 2) != Thrice(FinalizeAll(Thrice(cut, 1), hashes), 2)
  {
    hide Patch, PatchRow, Cast, Thrice, FinalizeAll;
    var first := Thrice(rows, 1);
    var cut := FinalizeAll(first, hashes);
    ThriceWhilePoisoned(rows, 1, k);
    FinalizeAllEffect(first, hashes);
    assert forall id :: id in cut && Poison(cut[id], k) ==> Poison(rows[id], k);
    assert !Poisoned(cut, k);
    ThriceWhenClean(cut, 2, k, z);
    ThriceWhenClean(cut, 1, k, z);
    var again := Thrice(cut, 1);
    FinalizeAllEffect(again, hashes);
    ThriceKeepsSetId(FinalizeAll(again, hashes), 2, k, z);
  }

  // ----- the witness block -----

  function Created(v: u64): Event {
    Event("TaskMarket", "TaskCreated", TaskCreated(v, "", 0), "", None)
  }

  function Completion(v: u64): Event {
    Event("TaskMarket", "TaskCompleted", TaskCompleted(v, v, ""), "", None)
  }

  function Bid(hash: string): Event {
    Event("TaskMarket", "BidSubmitted", BidSubmitted(1, 1), "", Some(hash))
  }

  function NoPick(known: set<string>): string {
    ""
  }

  function Witness(hashes: seq<string>): seq<Event> {
    [Created(1), Completion(1)] + seq(|hashes|, i requires 0 <= i < |hashes| => Bid(hashes[i])) + [Created(2), Completion(2)]
  }

  /** The statements of the first `count` events of the witness, taken as block 1. */
  function Statements(hashes: seq<string>, count: nat): seq<Op>
    requires count <= |hashes| + 4
  {
    BlockOps(Witness(hashes), 1, (0, 0), NoPick, count)
  }

  lemma StatementsSnoc(hashes: seq<string>, count: nat)
    requires 0 < count <= |hashes| + 4
    ensures Statements(hashes, count)
         == Statements(hashes, count - 1) + EventOps(Witness(hashes)[count - 1], 1, count - 1, NoPick)
  {
    var e := Witness(hashes)[count - 1];
    assert IsSupported(e.pallet, e.variant);
  }

  lemma StatementsPrefix(hashes: seq<string>, m: nat, count: nat)
    requires m <= count <= |hashes| + 4
    ensures Statements(hashes, m) <= Statements(hashes, count)
    decreases count
  {
    if m < count {
      StatementsPrefix(hashes, m, count - 1);
      StatementsSnoc(hashes, count);
    }
  }

  /** The part of the database the argument looks at: the outbox and the known tasks. */
  datatype View = View(outbox: Table, tasks: set<int>)

  function ViewOf(db: Db): View {
    View(db.outbox, db.tasks.Keys)
  }

  function Step(op: Op, v: View): View {
    if !Ready(op, v.tasks) then v else
    match op
    case PutTask(task, _, _) => v.(tasks := v.tasks + {AsI64(task)})
    case Finalize(_, tx, task, agent) => v.(outbox := FinalizeByHash(v.outbox, tx, OptI64(task), OptI64(agent)))
    case PatchPending(_, key, id) => v.(outbox := Patch(v.outbox, key, AsI64(id)))
    case _ => v
  }

  function Steps(ops: seq<Op>, v: View): View {
    if ops == [] then v else Step(ops[|ops| - 1], Steps(ops[..|ops| - 1], v))
  }

  lemma StepView(op: Op, db: Db)
    ensures ViewOf(Apply(op, db)) == Step(op, ViewOf(db))
  {
    match op
    case PutTask(task, _, _) => assert Apply(op, db).tasks.Keys == db.tasks.Keys + {AsI64(task)};
    case CompleteTask(task, _) => assert Apply(op, db).tasks.Keys == db.tasks.Keys;
    case _ =>
  }

  lemma {:induction false} StepsView(ops: seq<Op>, db: Db)
    ensures ViewOf(Run(ops, db)) == Steps(ops, ViewOf(db))
  {
    if ops != [] {
      StepsView(ops[..|ops| - 1], db);
      StepView(ops[|ops| - 1], Run(ops[..|ops| - 1], db));
    }
  }

  lemma StepsSnoc(ops: seq<Op>, op: Op, v: View)
    ensures Steps(ops + [op], v) == Step(op, Steps(ops, v))
  {
    assert (ops + [op])[..|ops|] == ops;
  }

  lemma ThreeSteps(a: Op, b: Op, c: Op, v: View)
    ensures Steps([a, b, c], v) == Step(c, Step(b, Step(a, v)))
  {
    assert [a, b, c] == [] + [a] + [b] + [c];
    StepsSnoc([], a, v);
    StepsSnoc([] + [a], b, v);
    StepsSnoc([] + [a] + [b], c, v);
  }

  lemma TwoMoreSteps(front: seq<Op>, a: Op, b: Op, v: View)
    ensures Steps(front + [a, b], v) == Step(b, Step(a, Steps(front, v)))
  {
    assert front + [a, b] == front + [a] + [b];
    StepsSnoc(front, a, v);
    StepsSnoc(front + [a], b, v);
  }

  function LogOf(e: Event, index: nat): Op {
    WriteLog((1, index), LogRow(e.pallet, e.variant, e.payload, e.correlation))
  }

  lemma WitnessOps(v: u64, hash: string, index: nat)
    ensures EventOps(Created(v), 1, index, NoPick)
         == [PutTask(v, "", 0), PatchPending(None, TaskKey, v), LogOf(Created(v), index)]
    ensures EventOps(Completion(v), 1, index, NoPick)
         == [PutResult(v, v, 1), CompleteTask(v, ""), PatchPending(Some(v), TaskKey, v)]
          + [PatchPending(Some(v), AgentKey, v), LogOf(Completion(v), index)]
    ensures EventOps(Bid(hash), 1, index, NoPick)
         == [PutBid(1, 1, 1, NoPick), Finalize(Some(1), hash, Some(1), Some(1)), LogOf(Bid(hash), index)]
  {
  }

  lemma CreatedSteps(v: u64, log: Op, start: View)
    requires 0 < v < TWO_63 && log.WriteLog?
    ensures Steps([PutTask(v, "", 0), PatchPending(None, TaskKey, v), log], start)
         == View(Patch(start.outbox, TaskKey, v), start.tasks + {v})
  {
    hide Patch;
    ThreeSteps(PutTask(v, "", 0), PatchPending(None, TaskKey, v), log, start);
  }

  lemma ResultSteps(v: u64, start: View)
    requires 0 < v < TWO_63 && v in start.tasks
    ensures Steps([PutResult(v, v, 1), CompleteTask(v, ""), PatchPending(Some(v), TaskKey, v)], start)
         == View(Patch(start.outbox, TaskKey, v), start.tasks)
  {
    hide Patch;
    ThreeSteps(PutResult(v, v, 1), CompleteTask(v, ""), PatchPending(Some(v), TaskKey, v), start);
  }

  lemma CompletionSteps(v: u64, log: Op, start: View)
    requires 0 < v < TWO_63 && v in start.tasks && log.WriteLog?
    ensures Steps([PutResult(v, v, 1), CompleteTask(v, ""), PatchPending(Some(v), TaskKey, v)]
                  + [PatchPending(Some(v), AgentKey, v), log], start)
         == View(Patch(Patch(start.outbox, TaskKey, v), AgentKey, v), start.tasks)
  {
    hide Patch;
    ResultSteps(v, start);
    TwoMoreSteps([PutResult(v, v, 1), CompleteTask(v, ""), PatchPending(Some(v), TaskKey, v)],
                 PatchPending(Some(v), AgentKey, v), log, start);
  }

  lemma BidSteps(hash: string, log: Op, start: View)
    requires 1 in start.tasks && log.WriteLog?
    ensures Steps([PutBid(1, 1, 1, NoPick), Finalize(Some(1), hash, Some(1), Some(1)), log], start)
         == View(FinalizeByHash(start.outbox, hash, Some(1), Some(1)), start.tasks)
  {
    hide Patch, FinalizeByHash;
    ThreeSteps(PutBid(1, 1, 1, NoPick), Finalize(Some(1), hash, Some(1), Some(1)), log, start);
  }

  lemma {:induction false} StepsConcat(a: seq<Op>, b: seq<Op>, v: View)
    ensures Steps(a + b, v) == Steps(b, Steps(a, v))
  {
    if b == [] {
      assert a + b == a;
    } else {
      StepsConcat(a, b[..|b| - 1], v);
      assert (a + b)[..|a + b| - 1] == a + b[..|b| - 1];
    }
  }

  lemma FirstTaskEffect(hashes: seq<string>, v: View)
    ensures Steps(Statements(hashes, 2), v) == View(Thrice(v.outbox, 1), v.tasks + {1})
  {
    hide Patch;
    StatementsSnoc(hashes, 1);
    StatementsSnoc(hashes, 2);
    var front := EventOps(Created(1), 1, 0, NoPick);
    assert Statements(hashes, 1) == front;
    StepsConcat(front, EventOps(Completion(1), 1, 1, NoPick), v);
    WitnessOps(1, "", 0);
    CreatedSteps(1, LogOf(Created(1), 0), v);
    WitnessOps(1, "", 1);
    CompletionSteps(1, LogOf(Completion(1), 1), View(Patch(v.outbox, TaskKey, 1), v.tasks + {1}));
  }

  lemma NextBidEffect(hashes: seq<string>, j: nat, v: View)
    requires j < |hashes| && 1 in Steps(Statements(hashes, j + 2), v).tasks
    ensures var before := Steps(Statements(hashes, j + 2), v);
      Steps(Statements(hashes, j + 3), v)
      == View(FinalizeByHash(before.outbox, hashes[j], Some(1), Some(1)), before.tasks)
  {
    hide Patch, FinalizeByHash, Step, Steps, Statements;
    StatementsSnoc(hashes, j + 3);
    var front := Statements(hashes, j + 2);
    assert Witness(hashes)[j + 2] == Bid(hashes[j]);
    StepsConcat(front, EventOps(Bid(hashes[j]), 1, j + 2, NoPick), v);
    WitnessOps(1, hashes[j], j + 2);
    BidSteps(hashes[j], LogOf(Bid(hashes[j]), j + 2), Steps(front, v));
  }

  /** The view after the first task and some bids, and after the whole witness. */
  lemma {:induction false} BidsEffect(hashes: seq<string>, j: nat, v: View)
    requires j <= |hashes|
    ensures Steps(Statements(hashes, j + 2), v) == View(FinalizeAll(Thrice(v.outbox, 1), hashes[..j]), v.tasks + {1})
  {
    hide Patch, FinalizeByHash;
    if j == 0 {
      FirstTaskEffect(hashes, v);
    } else {
      BidsEffect(hashes, j - 1, v);
      NextBidEffect(hashes, j - 1, v);
      assert hashes[..j][..j - 1] == hashes[..j - 1];
    }
  }

  lemma WitnessEffect(hashes: seq<string>, v: View)
    ensures Steps(Statements(hashes, |hashes| + 4), v).outbox == Thrice(FinalizeAll(Thrice(v.outbox, 1), hashes), 2)
  {
    hide Patch, FinalizeByHash;
    var m := |hashes| + 2;
    BidsEffect(hashes, |hashes|, v);
    assert hashes[..|hashes|] == hashes;
    var cut := Steps(Statements(hashes, m), v);
    StatementsSnoc(hashes, m + 1);
    StepsConcat(Statements(hashes, m), EventOps(Created(2), 1, m, NoPick), v);
    WitnessOps(2, "", m);
    CreatedSteps(2, LogOf(Created(2), m), cut);
    StatementsSnoc(hashes, m + 2);
    StepsConcat(Statements(hashes, m + 1), EventOps(Completion(2), 1, m + 1, NoPick), v);
    WitnessOps(2, "", m + 1);
    CompletionSteps(2, LogOf(Completion(2), m + 1), View(Patch(cut.outbox, TaskKey, 2), cut.tasks + {2}));
  }

  // ----- the witness is causal -----

  ghost predicate Strict(known: set<int>, ops: seq<Op>) {
    forall j :: 0 <= j < |ops| && Need(ops[j]).Some? ==>
      Need(ops[j]).value in known || Creates(ops[..j], Need(ops[j]).value)
  }

  lemma CreatesGrows(a: seq<Op>, b: seq<Op>, t: int)
    requires Creates(a, t) && a <= b
    ensures Creates(b, t)
  {
    var i :| 0 <= i < |a| && CreatesTask(a[i], t);
    assert CreatesTask(b[i], t);
  }

  lemma StrictConcat(known: set<int>, a: seq<Op>, b: seq<Op>)
    requires Strict(known, a)
    requires forall j :: 0 <= j < |b| && Need(b[j]).Some? ==> Creates(a, Need(b[j]).value)
    ensures Strict(known, a + b)
  {
    forall j | 0 <= j < |a + b| && Need((a + b)[j]).Some?
      ensures Need((a + b)[j]).value in known || Creates((a + b)[..j], Need((a + b)[j]).value)
    {
      if j < |a| {
        assert (a + b)[..j] == a[..j];
      } else {
        assert (a + b)[j] == b[j - |a|];
        CreatesGrows(a, (a + b)[..j], Need(b[j - |a|]).value);
      }
    }
  }

  /** A witness event depends on task 1, or on task 2 at the very end, and may create either. */
  lemma WitnessNeeds(hashes: seq<string>, count: nat, j: nat)
    requires 0 < count <= |hashes| + 4
    requires j < |EventOps(Witness(hashes)[count - 1], 1, count - 1, NoPick)|
    ensures var need := Need(EventOps(Witness(hashes)[count - 1], 1, count - 1, NoPick)[j]);
      need == None || (need == Some(1) && count > 1) || (need == Some(2) && count == |hashes| + 4)
  {
    var e := Witness(hashes)[count - 1];
    assert e == Created(1) || e == Created(2) || e == Completion(1) || e == Completion(2) || e.fields == BidSubmitted(1, 1);
  }

  lemma {:induction false} WitnessStrict(hashes: seq<string>, count: nat)
    requires count <= |hashes| + 4
    ensures Strict({}, Statements(hashes, count))
    ensures count > 0 ==> Creates(Statements(hashes, count), 1)
    ensures count > |hashes| + 2 ==> Creates(Statements(hashes, count), 2)
  {
    if count > 0 {
      WitnessStrict(hashes, count - 1);
      StatementsSnoc(hashes, count);
      var front := Statements(hashes, count - 1);
      var ops := EventOps(Witness(hashes)[count - 1], 1, count - 1, NoPick);
      forall j | 0 <= j < |ops| && Need(ops[j]).Some?
        ensures Creates(front, Need(ops[j]).value)
      {
        WitnessNeeds(hashes, count, j);
      }
      StrictConcat({}, front, ops);
      WitnessCreates(hashes, count, front, ops);
    }
  }

  lemma WitnessCreates(hashes: seq<string>, count: nat, front: seq<Op>, ops: seq<Op>)
    requires 0 < count <= |hashes| + 4
    requires ops == EventOps(Witness(hashes)[count - 1], 1, count - 1, NoPick)
    requires count > 1 ==> Creates(front, 1)
    requires count > |hashes| + 3 ==> Creates(front, 2)
    ensures Creates(front + ops, 1)
    ensures count > |hashes| + 2 ==> Creates(front + ops, 2)
  {
    if count == 1 || count == |hashes| + 3 {
      assert CreatesTask((front + ops)[|front|], if count == 1 then 1 else 2);
    }
    if count > 1 {
      CreatesGrows(front, front + ops, 1);
    }
    if count > |hashes| + 3 {
      CreatesGrows(front, front + ops, 2);
    }
  }

  lemma StrictIsCausal(known: set<int>, ops: seq<Op>)
    requires Strict({}, ops)
    ensures Causal(known, ops)
  {
  }

  // ----- the exact condition -----

  ghost function Listing(s: set<string>): (list: seq<string>)
    ensures forall h :: h in list <==> h in s
  {
    if s == {} then [] else
      var h :| h in s;
      var rest := Listing(s - {h});
      assert forall g :: g in s <==> g == h || g in s - {h};
      [h] + rest
  }

  lemma WitnessOutbox(hashes: seq<string>, db: Db)
    ensures Run(Statements(hashes, |hashes| + 2), db).outbox == FinalizeAll(Thrice(db.outbox, 1), hashes)
    ensures Run(Statements(hashes, |hashes| + 4), db).outbox == Thrice(FinalizeAll(Thrice(db.outbox, 1), hashes), 2)
  {
    hide Patch, FinalizeByHash;
    StepsView(Statements(hashes, |hashes| + 2), db);
    StepsView(Statements(hashes, |hashes| + 4), db);
    BidsEffect(hashes, |hashes|, ViewOf(db));
    assert hashes[..|hashes|] == hashes;
    WitnessEffect(hashes, ViewOf(db));
  }

  lemma WitnessDiverges(db: Db, hashes: seq<string>)
    requires var cut := FinalizeAll(Thrice(db.outbox, 1), hashes);
      Thrice(cut, 2) != Thrice(FinalizeAll(Thrice(cut, 1), hashes), 2)
    ensures !Replays(db, Statements(hashes, |hashes| + 4), |Statements(hashes, |hashes| + 2)|)
  {
    hide Patch, FinalizeByHash;
    var front, ops := Statements(hashes, |hashes| + 2), Statements(hashes, |hashes| + 4);
    StatementsPrefix(hashes, |hashes| + 2, |hashes| + 4);
    assert ops[..|front|] == front;
    WitnessOutbox(hashes, db);
    WitnessOutbox(hashes, Run(front, db));
    WitnessStrict(hashes, |hashes| + 4);
    StrictIsCausal(db.tasks.Keys, ops);
  }

  lemma NotCalmDiverges(db: Db, key: IdKey)
    requires !Calm(db.outbox, key)
    ensures !ConvergesFrom(db)
  {
    var rows := db.outbox;
    var z :| z in rows && Placeholder(rows[z], key) && !Doomed(rows, rows[z], key);
    var found := set id | id in rows && Poison(rows[id], key) && rows[id].txHash.Some? :: rows[id].txHash.value;
    var hashes := Listing(found);
    assert forall id :: id in rows && Poison(rows[id], key) ==> rows[id].txHash.Some? && rows[id].txHash.value in found;
    PatchOrderMatters(rows, key, z, hashes);
    WitnessDiverges(db, hashes);
    WitnessRefutes(db, hashes);
  }

  lemma WitnessRefutes(db: Db, hashes: seq<string>)
    requires !Replays(db, Statements(hashes, |hashes| + 4), |Statements(hashes, |hashes| + 2)|)
    ensures !ConvergesFrom(db)
  {
    hide Replays, BlockOps;
    var events := Witness(hashes);
    assert |events| == |hashes| + 4;
    assert !Replays(db, BlockOps(events, 1, (0, 0), NoPick, |events|), |Statements(hashes, |hashes| + 2)|);
  }

  /** Interrupted replay is harmless, for every causal block and every point of interruption,
      exactly when the outbox is calm. */
  lemma ConvergesIffCalm(db: Db)
    ensures ConvergesFrom(db) <==> Calmed(db.outbox)
  {
    if Calmed(db.outbox) {
      forall events: seq<Event>, block: nat, cursor: Cursor, pick: Pick, k: nat
        ensures Replays(db, BlockOps(events, block, cursor, pick, |events|), k)
      {
        var ops := BlockOps(events, block, cursor, pick, |events|);
        if Causal(db.tasks.Keys, ops) && k <= |ops| {
          ReplayConverges(ops, k, db);
        }
      }
    } else if !Calm(db.outbox, TaskKey) {
      NotCalmDiverges(db, TaskKey);
    } else {
      NotCalmDiverges(db, AgentKey);
    }
  }

  /** Causal order matters too: a bid logged before its task is lost by a clean pass and kept by
      an interrupted one. */
  lemma BidBeforeTaskDiverges(db: Db)
    requires 1 !in db.tasks && forall k :: k !in db.bids
    ensures var ops := [PutBid(1, 1, 1, NoPick), PutTask(1, "", 0)];
      !Causal(db.tasks.Keys, ops) && !Alike(Run(ops, Run(ops, db)), Run(ops, db))
  {
    var bid, put := PutBid(1, 1, 1, NoPick), PutTask(1, "", 0);
    var ops := [bid, put];
    assert ops[..1] == [bid] && [bid][..0] == [];
    forall x
      ensures Run(ops, x) == Apply(put, Apply(bid, x))
    {
      assert Run(ops[..1], x) == Apply(bid, Run([], x));
    }
    var once := Run(ops, db);
    assert once.bids == db.bids;
    InsertBidAdds(once);
    assert Need(ops[0]) == Some(1) && CreatesTask(ops[0..][1], 1) && ops[..0] == [];
  }

  lemma InsertBidAdds(db: Db)
    requires 1 in db.tasks
    ensures (1, AgentBytes(1)) in Apply(PutTask(1, "", 0), Apply(PutBid(1, 1, 1, NoPick), db)).bids
  {
  }
}
