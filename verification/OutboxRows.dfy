/** The `outbound_extrinsics` table: its rows, the statements that every actor issues against
    it, and the patching of placeholder ids inside pending payloads. */
module OutboxRows {
  import opened Basics
  import Decimal
  import opened Json

  datatype Status = Pending | Finalized | Failed | Dead

  datatype Row = Row(
    pallet: string,
    call: string,
    payload: Option<Value>,
    status: Status,
    retryCount: nat,
    lastError: Option<string>,
    txHash: Option<string>,
    chainTask: Option<int>,
    chainAgent: Option<int>,
    createdAt: nat)

  /** Rows by correlation id, the primary key. */
  type Table = map<string, Row>

  const MAX_RETRIES: nat := 5
  const MAX_ERR: nat := 512

  // ----- statements of the enqueuer, the outbox worker and the replay worker -----

  /** INSERT ... ON CONFLICT (correlation_id) DO UPDATE, always with status 'pending'. */
  function Enqueue(rows: Table, id: string, pallet: string, call: string, payload: Option<Value>, now: nat): Table {
    if id in rows then
      rows[id := rows[id].(payload := if payload.Some? then payload else rows[id].payload, status := Pending)]
    else
      rows[id := Row(pallet, call, payload, Pending, 0, None, None, None, None, now)]
  }

  function Sent(row: Row, hash: string): Row {
    row.(status := Finalized, retryCount := row.retryCount + 1, lastError := None, txHash := Some(hash))
  }

  function Refused(row: Row, err: string): Row {
    row.(status := if row.retryCount + 1 > MAX_RETRIES then Dead else Failed,
         retryCount := row.retryCount + 1,
         lastError := Some(if |err| > MAX_ERR then err[..MAX_ERR] else err))
  }

  function FinalizeRow(row: Row, task: Option<int>, agent: Option<int>): Row {
    row.(status := Finalized,
         chainTask := if task.Some? then task else row.chainTask,
         chainAgent := if agent.Some? then agent else row.chainAgent)
  }

  /** UPDATE ... SET status = 'finalized', <ids> WHERE tx_hash = tx. */
  function FinalizeByHash(rows: Table, tx: string, task: Option<int>, agent: Option<int>): Table {
    map id | id in rows :: if rows[id].txHash == Some(tx) then FinalizeRow(rows[id], task, agent) else rows[id]
  }

  // ----- placeholder ids -----

  datatype IdKey = TaskKey | AgentKey

  /** The key of an id, in payloads as in the text of the statements. */
  function Name(k: IdKey): string {
    if k.TaskKey? then "task_id" else "agent_id"
  }

  /** What `(payload ->> key)::bigint` makes of a field; `NoId` is a statement error. */
  datatype IdField = Absent | SqlNull | Id(n: int) | NoId

  function CastInt(n: int): IdField {
    if -TWO_63 <= n < TWO_63 then Id(n) else NoId
  }

  function Cast(v: Value): IdField {
    match v
    case Null => SqlNull
    case Num(n) => CastInt(n)
    case Frac(text) => (match WholeOf(text) case Some(n) => CastInt(n) case None => NoId)
    case Str(s) => (match Decimal.ParseBigint(s) case Some(n) => Id(n) case None => NoId)
    case _ => NoId
  }

  function FieldOf(payload: Option<Value>, k: IdKey): IdField {
    if payload.Some? && payload.value.Obj? && Name(k) in payload.value.fields
    then Cast(payload.value.fields[Name(k)])
    else Absent
  }

  predicate Placeholder(row: Row, k: IdKey) {
    row.status.Pending? && FieldOf(row.payload, k) == Id(0)
  }

  /** `payload::jsonb` refuses U+0000 in any text, whichever key is asked for. */
  predicate NotJsonb(payload: Option<Value>) {
    payload.Some? && HasNul(payload.value)
  }

  predicate Poison(row: Row, k: IdKey) {
    row.status.Pending? && (NotJsonb(row.payload) || FieldOf(row.payload, k) == NoId)
  }

  /** One pending row that cannot be cast makes the whole UPDATE fail. */
  predicate Poisoned(rows: Table, k: IdKey) {
    exists id :: id in rows && Poison(rows[id], k)
  }

  /** `jsonb_set(payload::jsonb, '{key}', to_jsonb(n))::text`, as it is read again later. */
  function SetId(payload: Value, k: IdKey, n: int): Value
    requires payload.Obj?
  {
    Obj(Reread(payload).fields[Name(k) := Num(n)])
  }

  function PatchRow(row: Row, k: IdKey, v: int): Row {
    if Placeholder(row, k) then row.(payload := Some(SetId(row.payload.value, k, v))) else row
  }

  /** The UPDATE for one key; its error, if any, is discarded by the caller. */
  function Patch(rows: Table, k: IdKey, v: int): Table {
    if Poisoned(rows, k) then rows else map id | id in rows :: PatchRow(rows[id], k, v)
  }

  function PatchIds(rows: Table, task: Option<int>, agent: Option<int>): Table {
    var first := if task.Some? then Patch(rows, TaskKey, task.value) else rows;
    if agent.Some? then Patch(first, AgentKey, agent.value) else first
  }

  lemma RereadField(payload: Value, key: string)
    requires payload.Obj? && key in payload.fields
    ensures Reread(payload).fields[key] == Reread(payload.fields[key])
    ensures Cast(Reread(payload.fields[key])) == Cast(payload.fields[key])
  {
  }

  /** The payload is the same but for one key: the same keys, and under every other key the same
      value, printed as jsonb and read again. */
  ghost predicate SameBut(before: Option<Value>, after: Option<Value>, changed: string) {
    && before.Some? && before.value.Obj? && after.Some? && after.value.Obj?
    && after.value.fields.Keys == before.value.fields.Keys
    && forall key :: key in before.value.fields && key != changed ==>
         after.value.fields[key] == Reread(before.value.fields[key])
  }

  /** A row's patch touches the payload only, there only the one key, and only a placeholder. */
  lemma PatchRowFrame(row: Row, k: IdKey, v: int)
    requires -TWO_63 <= v < TWO_63
    ensures PatchRow(row, k, v).(payload := row.payload) == row
    ensures !Placeholder(row, k) ==> PatchRow(row, k, v) == row
    ensures Placeholder(row, k) ==>
      FieldOf(PatchRow(row, k, v).payload, k) == Id(v)
      && SameBut(row.payload, PatchRow(row, k, v).payload, if k.TaskKey? then "task_id" else "agent_id")
    ensures forall k' :: k' != k ==> FieldOf(PatchRow(row, k, v).payload, k') == FieldOf(row.payload, k')
    ensures NotJsonb(PatchRow(row, k, v).payload) ==> NotJsonb(row.payload)
  {
    if Placeholder(row, k) {
      var payload := row.payload.value;
      PatchedText(payload, k, v);
      forall key | key in payload.fields
        ensures Reread(payload).fields[key] == Reread(payload.fields[key])
        ensures Cast(Reread(payload.fields[key])) == Cast(payload.fields[key])
      {
        RereadField(payload, key);
      }
    }
  }

  lemma PatchedText(payload: Value, k: IdKey, v: int)
    requires payload.Obj?
    ensures HasNul(SetId(payload, k, v)) ==> HasNul(payload)
  {
    var after := SetId(payload, k, v);
    RereadKeepsText(payload);
    if HasNul(after) {
      var key :| key in after.fields && ('\0' in key || HasNul(after.fields[key]));
      assert '\0' !in Name(k);
      assert key != Name(k) && key in Reread(payload).fields && after.fields[key] == Reread(payload).fields[key];
      assert HasNul(Reread(payload));
    }
  }

  /** After one statement no placeholder is left exactly when there was none before, or the
      id is nonzero and no pending row is poisoned. Nothing but placeholders changes, and of them
      only the one key. */
  lemma PatchClearsPlaceholders(rows: Table, k: IdKey, v: int)
    requires -TWO_63 <= v < TWO_63
    ensures (forall id :: id in rows ==> !Placeholder(Patch(rows, k, v)[id], k))
       <==> (forall id :: id in rows ==> !Placeholder(rows[id], k)) || (v != 0 && !Poisoned(rows, k))
    ensures Patch(rows, k, v).Keys == rows.Keys
    ensures forall id :: id in rows ==>
      var after := Patch(rows, k, v)[id];
      && after.(payload := rows[id].payload) == rows[id]
      && (after == rows[id]
          || (Placeholder(rows[id], k) && FieldOf(after.payload, k) == Id(v)
              && SameBut(rows[id].payload, after.payload, if k.TaskKey? then "task_id" else "agent_id")))
  {
    var after := Patch(rows, k, v);
    if !Poisoned(rows, k) {
      forall id | id in rows
        ensures after[id] == PatchRow(rows[id], k, v)
        ensures Placeholder(after[id], k) <==> Placeholder(rows[id], k) && v == 0
        ensures after[id].(payload := rows[id].payload) == rows[id]
        ensures after[id] == rows[id]
          || (Placeholder(rows[id], k) && FieldOf(after[id].payload, k) == Id(v)
              && SameBut(rows[id].payload, after[id].payload, Name(k)))
      {
        PatchRowFrame(rows[id], k, v);
      }
    }
  }

  predicate Clean(rows: Table) {
    !Poisoned(rows, TaskKey) && !Poisoned(rows, AgentKey)
  }

  lemma PatchKeepsClean(rows: Table, k: IdKey, v: int)
    requires Clean(rows) && -TWO_63 <= v < TWO_63
    ensures Clean(Patch(rows, k, v))
  {
    forall id, k' | id in rows
      ensures !Poison(Patch(rows, k, v)[id], k')
    {
      PatchRowFrame(rows[id], k, v);
      assert !Poison(rows[id], k');
    }
  }

  /** With integer ids, one call with two nonzero ids leaves no placeholder of either kind. */
  lemma PatchIdsClearsAll(rows: Table, task: int, agent: int)
    requires Clean(rows) && task != 0 && agent != 0
    requires -TWO_63 <= task < TWO_63 && -TWO_63 <= agent < TWO_63
    ensures forall id :: id in rows ==>
      var after := PatchIds(rows, Some(task), Some(agent))[id];
      !Placeholder(after, TaskKey) && !Placeholder(after, AgentKey)
  {
    PatchClearsPlaceholders(rows, TaskKey, task);
    PatchKeepsClean(rows, TaskKey, task);
    var mid := Patch(rows, TaskKey, task);
    PatchClearsPlaceholders(mid, AgentKey, agent);
    forall id | id in rows
      ensures !Placeholder(Patch(mid, AgentKey, agent)[id], TaskKey)
    {
      PatchRowFrame(mid[id], AgentKey, agent);
    }
  }

  function PatchAll(rows: Table, calls: seq<(IdKey, int)>): Table {
    if calls == [] then rows else PatchAll(Patch(rows, calls[0].0, calls[0].1), calls[1..])
  }

  /** The first nonzero id offered for a key, or zero. */
  function FirstId(calls: seq<(IdKey, int)>, k: IdKey): int {
    if calls == [] then 0
    else if calls[0].0 == k && calls[0].1 != 0 then calls[0].1
    else FirstId(calls[1..], k)
  }

  /** The fields other than the two ids: the same ones, the same as to what they are read as. */
  ghost predicate SameRest(before: Option<Value>, after: Option<Value>) {
    if before.Some? && before.value.Obj? then
      && after.Some? && after.value.Obj? && after.value.fields.Keys == before.value.fields.Keys
      && forall key :: key in before.value.fields && key != Name(TaskKey) && key != Name(AgentKey) ==>
           Reread(after.value.fields[key]) == Reread(before.value.fields[key])
    else after == before
  }

  lemma PatchKeepsRest(row: Row, k: IdKey, v: int)
    requires -TWO_63 <= v < TWO_63
    ensures SameRest(row.payload, PatchRow(row, k, v).payload)
  {
    PatchRowFrame(row, k, v);
    if Placeholder(row, k) {
      var fields := row.payload.value.fields;
      forall key | key in fields
        ensures Reread(Reread(fields[key])) == Reread(fields[key])
      {
        RereadTwice(fields[key]);
      }
    }
  }

  /** Over any later sequence of patches a placeholder is written once, by the first nonzero
      id for its key; every other id field keeps its value, and the other fields stay. */
  lemma {:induction false} PlaceholderWrittenOnce(rows: Table, calls: seq<(IdKey, int)>, id: string, k: IdKey)
    requires Clean(rows) && id in rows
    requires forall i :: 0 <= i < |calls| ==> -TWO_63 <= calls[i].1 < TWO_63
    ensures id in PatchAll(rows, calls)
    ensures var after := PatchAll(rows, calls)[id];
      && after.(payload := rows[id].payload) == rows[id]
      && FieldOf(after.payload, k) == (if Placeholder(rows[id], k) then Id(FirstId(calls, k)) else FieldOf(rows[id].payload, k))
      && SameRest(rows[id].payload, after.payload)
    decreases |calls|
  {
    if calls != [] {
      var next := Patch(rows, calls[0].0, calls[0].1);
      PatchRowFrame(rows[id], calls[0].0, calls[0].1);
      PatchKeepsRest(rows[id], calls[0].0, calls[0].1);
      PatchKeepsClean(rows, calls[0].0, calls[0].1);
      PlaceholderWrittenOnce(next, calls[1..], id, k);
    }
  }

  /** A payload the enqueue path accepts can still hold an uncastable id or a U+0000; while its row
      is pending, no placeholder of that key is ever patched. */
  lemma {:induction false} OnePoisonBlocksAllPatches(rows: Table, calls: seq<(IdKey, int)>, k: IdKey, bad: string)
    requires bad in rows && Poison(rows[bad], k)
    requires forall i :: 0 <= i < |calls| ==> calls[i].0 == k
    ensures PatchAll(rows, calls) == rows
    decreases |calls|
  {
    if calls != [] {
      assert Poisoned(rows, k);
      OnePoisonBlocksAllPatches(rows, calls[1..], k, bad);
    }
  }

  /** The table as the workers share it. */
  class OutboxTable {
    var rows: Table

    constructor (initial: Table)
      ensures rows == initial
    {
      rows := initial;
    }

    /** `record_outbound_extrinsic`. */
    method Record(id: string, pallet: string, call: string, payload: Option<Value>, now: nat)
      modifies this
      ensures rows == Enqueue(old(rows), id, pallet, call, payload, now)
      ensures rows.Keys == old(rows).Keys + {id} && forall other :: other in old(rows) && other != id ==> rows[other] == old(rows)[other]
      ensures id !in old(rows) ==> rows[id] == Row(pallet, call, payload, Pending, 0, None, None, None, None, now)
      ensures id in old(rows) ==>
        var was := old(rows)[id];
        rows[id] == Row(was.pallet, was.call, if payload.None? then was.payload else payload, Pending, was.retryCount,
                        was.lastError, was.txHash, was.chainTask, was.chainAgent, was.createdAt)
    {
      if id in rows {
        var row := rows[id];
        if payload.Some? {
          row := row.(payload := payload);
        }
        rows := rows[id := row.(status := Pending)];
      } else {
        rows := rows[id := Row(pallet, call, payload, Pending, 0, None, None, None, None, now)];
      }
    }

    /** `patch_pending_with_ids`: two independent statements. */
    method PatchPendingWithIds(task: Option<int>, agent: Option<int>)
      modifies this
      ensures rows == PatchIds(old(rows), task, agent)
    {
      if task.Some? {
        rows := Patch(rows, TaskKey, task.value);
      }
      if agent.Some? {
        rows := Patch(rows, AgentKey, agent.value);
      }
    }
  }
}
