/** From the placeholders of a queued payload to the call that is submitted: the ids that patching
    writes are the ids that the built call carries. */
module PatchedCalls {
  import opened Basics
  import opened Json
  import opened OutboxRows
  import Calls
  import Decimal

  /** The key of an id, in the payloads and in the text of the statements. */
  function Key(k: IdKey): string {
    if k.TaskKey? then "task_id" else "agent_id"
  }

  /** A placeholder is a zero under the key of the id, as an integer, a whole number or a text. */
  lemma PlaceholderSpells(row: Row, k: IdKey)
    ensures Placeholder(row, k) <==>
      && row.status.Pending? && row.payload.Some?
      && match Get(row.payload.value, Key(k))
         case Some(Num(n)) => n == 0
         case Some(Frac(text)) => WholeOf(text) == Some(0)
         case Some(Str(s)) => Decimal.ParseBigint(s) == Some(0)
         case _ => false
  {
  }

  /** An id cannot be cast where the field is there and is neither null nor a 64-bit integer, be it as
      a number or as a text; a row cannot where it holds such a field or a U+0000. */
  lemma PoisonSpells(row: Row, k: IdKey)
    ensures Poison(row, k) <==>
      && row.status.Pending? && row.payload.Some?
      && (HasNul(row.payload.value) ||
          match Get(row.payload.value, Key(k))
          case None => false
          case Some(Null) => false
          case Some(Num(n)) => n < -TWO_63 || TWO_63 <= n
          case Some(Frac(text)) => WholeOf(text) == None || WholeOf(text).value < -TWO_63 || TWO_63 <= WholeOf(text).value
          case Some(Str(s)) => Decimal.ParseBigint(s) == None
          case Some(_) => true)
  {
  }

  /** The id that stands under a key after one statement for it. */
  ghost function Shown(rows: Table, k: IdKey, was: int, v: int): int {
    if was == 0 && !Poisoned(rows, k) then v else was
  }

  lemma PoisonStays(rows: Table, key: IdKey, v: int, k: IdKey)
    requires -TWO_63 <= v < TWO_63
    ensures Poisoned(Patch(rows, key, v), k) <==> Poisoned(rows, k)
  {
    var after := Patch(rows, key, v);
    forall id | id in rows
      ensures Poison(after[id], k) <==> Poison(rows[id], k)
    {
      PatchRowFrame(rows[id], key, v);
      assert NotJsonb(rows[id].payload) && rows[id].status.Pending? ==> Poison(rows[id], key);
    }
  }

  // ----- payloads whose fields are read again as they are -----

  lemma PatchedAt(rows: Table, id: string, k: IdKey, payload: Value, was: int, v: int)
    requires id in rows && rows[id].status.Pending? && rows[id].payload == Some(payload)
    requires payload.Obj? && Reread(payload) == payload && Get(payload, Key(k)) == Some(Num(was))
    ensures id in Patch(rows, k, v)
    ensures Patch(rows, k, v)[id]
      == rows[id].(payload := Some(Obj(payload.fields[Key(k) := Num(Shown(rows, k, was, v))])))
  {
    hide Reread, Poisoned;
    assert payload.fields[Key(k) := Num(was)] == payload.fields;
    if !Poisoned(rows, k) {
      assert Placeholder(rows[id], k) <==> was == 0;
    }
  }

  /** Texts and integers are read again as they are. */
  lemma FlatStays(fields: map<string, Value>)
    requires forall key :: key in fields ==> fields[key].Num? || fields[key].Str?
    ensures Reread(Obj(fields)) == Obj(fields)
  {
    assert Reread(Obj(fields)).fields == fields;
  }

  lemma BidFields(task: int, agent: int, hash: seq<byte>, time: u64, v: int)
    ensures var payload := Calls.BidPayload(task, agent, hash, time);
      && payload.Obj? && Reread(payload) == payload
      && Get(payload, "task_id") == Some(Num(task)) && Get(payload, "agent_id") == Some(Num(agent))
      && Obj(payload.fields["task_id" := Num(v)]) == Calls.BidPayload(v, agent, hash, time)
      && Obj(payload.fields["agent_id" := Num(v)]) == Calls.BidPayload(task, v, hash, time)
  {
    hide Reread;
    var payload := Calls.BidPayload(task, agent, hash, time);
    FlatStays(payload.fields);
    assert payload.fields["task_id" := Num(v)] == Calls.BidPayload(v, agent, hash, time).fields;
    assert payload.fields["agent_id" := Num(v)] == Calls.BidPayload(task, v, hash, time).fields;
  }

  lemma ResultFields(task: int, agent: int, hash: seq<byte>, v: int)
    ensures var payload := Calls.ResultPayload(task, agent, hash);
      && payload.Obj? && Reread(payload) == payload
      && Get(payload, "task_id") == Some(Num(task)) && Get(payload, "agent_id") == Some(Num(agent))
      && Obj(payload.fields["task_id" := Num(v)]) == Calls.ResultPayload(v, agent, hash)
      && Obj(payload.fields["agent_id" := Num(v)]) == Calls.ResultPayload(task, v, hash)
  {
    hide Reread;
    var payload := Calls.ResultPayload(task, agent, hash);
    FlatStays(payload.fields);
    assert payload.fields["task_id" := Num(v)] == Calls.ResultPayload(v, agent, hash).fields;
    assert payload.fields["agent_id" := Num(v)] == Calls.ResultPayload(task, v, hash).fields;
  }

  lemma BidIdsPatched(rows: Table, id: string, bid: (int, int), hash: seq<byte>, time: u64, task: int, agent: int)
    requires id in rows && rows[id].status.Pending?
    requires rows[id].payload == Some(Calls.BidPayload(bid.0, bid.1, hash, time))
    requires -TWO_63 <= task < TWO_63 && -TWO_63 <= agent < TWO_63
    ensures id in PatchIds(rows, Some(task), Some(agent))
    ensures PatchIds(rows, Some(task), Some(agent))[id]
      == rows[id].(payload := Some(Calls.BidPayload(Shown(rows, TaskKey, bid.0, task),
                                                   Shown(rows, AgentKey, bid.1, agent), hash, time)))
  {
    hide Patch, Poisoned, Reread, Calls.BidPayload, Get;
    var t, a := Shown(rows, TaskKey, bid.0, task), Shown(rows, AgentKey, bid.1, agent);
    BidFields(bid.0, bid.1, hash, time, t);
    PatchedAt(rows, id, TaskKey, Calls.BidPayload(bid.0, bid.1, hash, time), bid.0, task);
    BidFields(t, bid.1, hash, time, a);
    PoisonStays(rows, TaskKey, task, AgentKey);
    PatchedAt(Patch(rows, TaskKey, task), id, AgentKey, Calls.BidPayload(t, bid.1, hash, time), bid.1, agent);
  }

  lemma ResultIdsPatched(rows: Table, id: string, ids: (int, int), hash: seq<byte>, task: int, agent: int)
    requires id in rows && rows[id].status.Pending?
    requires rows[id].payload == Some(Calls.ResultPayload(ids.0, ids.1, hash))
    requires -TWO_63 <= task < TWO_63 && -TWO_63 <= agent < TWO_63
    ensures id in PatchIds(rows, Some(task), Some(agent))
    ensures PatchIds(rows, Some(task), Some(agent))[id]
      == rows[id].(payload := Some(Calls.ResultPayload(Shown(rows, TaskKey, ids.0, task),
                                                      Shown(rows, AgentKey, ids.1, agent), hash)))
  {
    hide Patch, Poisoned, Reread, Calls.ResultPayload, Get;
    var t, a := Shown(rows, TaskKey, ids.0, task), Shown(rows, AgentKey, ids.1, agent);
    ResultFields(ids.0, ids.1, hash, t);
    PatchedAt(rows, id, TaskKey, Calls.ResultPayload(ids.0, ids.1, hash), ids.0, task);
    ResultFields(t, ids.1, hash, a);
    PoisonStays(rows, TaskKey, task, AgentKey);
    PatchedAt(Patch(rows, TaskKey, task), id, AgentKey, Calls.ResultPayload(t, ids.1, hash), ids.1, agent);
  }

  /** A bid that was queued without ids is submitted with the ids of the first patch, under the keys
      the call reads; where some pending payload cannot be cast, the zero of that key is submitted. */
  lemma PatchedBidIsSubmitted(rows: Table, id: string, hash: seq<byte>, time: u64, task: int, agent: int,
                              ss58: string -> Option<seq<byte>>)
    requires id in rows && rows[id].status.Pending? && |hash| == 32
    requires rows[id].payload == Some(Calls.BidPayload(0, 0, hash, time))
    requires 0 <= task < TWO_63 && 0 <= agent < TWO_63
    ensures id in PatchIds(rows, Some(task), Some(agent))
    ensures var after := PatchIds(rows, Some(task), Some(agent))[id].payload;
      var t, a := if Poisoned(rows, TaskKey) then 0 else task, if Poisoned(rows, AgentKey) then 0 else agent;
      && after.Some?
      && Get(after.value, "task_id") == Some(Num(t)) && Get(after.value, "agent_id") == Some(Num(a))
      && Calls.Prepare("TaskMarket", "submit_bid", Calls.Parsed(after.value), ss58)
         == Ok(Calls.SubmitBid(t, a, hash, Calls.Truncated(time)))
  {
    hide Calls.Prepare, PatchIds, Poisoned;
    BidIdsPatched(rows, id, (0, 0), hash, time, task, agent);
    Calls.BidPayloadBuildsIff(Shown(rows, TaskKey, 0, task), Shown(rows, AgentKey, 0, agent), hash, time, ss58);
  }

  /** The same for a result. */
  lemma PatchedResultIsSubmitted(rows: Table, id: string, hash: seq<byte>, task: int, agent: int,
                                 ss58: string -> Option<seq<byte>>)
    requires id in rows && rows[id].status.Pending? && |hash| == 32
    requires rows[id].payload == Some(Calls.ResultPayload(0, 0, hash))
    requires 0 <= task < TWO_63 && 0 <= agent < TWO_63
    ensures id in PatchIds(rows, Some(task), Some(agent))
    ensures var after := PatchIds(rows, Some(task), Some(agent))[id].payload;
      var t, a := if Poisoned(rows, TaskKey) then 0 else task, if Poisoned(rows, AgentKey) then 0 else agent;
      && after.Some?
      && Get(after.value, "task_id") == Some(Num(t)) && Get(after.value, "agent_id") == Some(Num(a))
      && Calls.Prepare("TaskMarket", "submit_result", Calls.Parsed(after.value), ss58)
         == Ok(Calls.SubmitResult(t, a, hash, []))
  {
    hide Calls.Prepare, PatchIds, Poisoned;
    ResultIdsPatched(rows, id, (0, 0), hash, task, agent);
    Calls.ResultPayloadBuildsIff(Shown(rows, TaskKey, 0, task), Shown(rows, AgentKey, 0, agent), hash, ss58);
  }
}
