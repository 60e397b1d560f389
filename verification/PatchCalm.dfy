/** When the effect of the patch statements cannot depend on how far an earlier, interrupted pass
    over the same block got. */
module PatchCalm {
  import opened Basics
  import opened OutboxRows
  import Json

  /** A pending poisoned row that no finalization can reach: patches of this key never work. */
  predicate Frozen(rows: Table, k: IdKey) {
    exists id :: id in rows && Poison(rows[id], k) && rows[id].txHash.None?
  }

  /** A row that leaves 'pending' no later than some poisoned row does. */
  predicate Doomed(rows: Table, row: Row, k: IdKey) {
    exists id :: id in rows && Poison(rows[id], k) && row.txHash.Some? && rows[id].txHash == row.txHash
  }

  /** Whether patches of this key have an effect cannot change while a block is replayed. */
  predicate Calm(rows: Table, k: IdKey) {
    || !Poisoned(rows, k)
    || Frozen(rows, k)
    || (forall id :: id in rows && Placeholder(rows[id], k) ==> Doomed(rows, rows[id], k))
  }

  /** A placeholder that patching with this id, zero, leaves as it is. */
  predicate HoldsExactly(row: Row, k: IdKey, v: int) {
    Placeholder(row, k) && PatchRow(row, k, v) == row
  }

  lemma RereadUpdate(payload: Json.Value, key: string, n: int)
    requires payload.Obj?
    ensures Json.Reread(Json.Obj(payload.fields[key := Json.Num(n)])) == Json.Obj(Json.Reread(payload).fields[key := Json.Num(n)])
  {
  }

  lemma SetIdTwice(payload: Json.Value, k: IdKey, v: int)
    requires payload.Obj?
    ensures SetId(SetId(payload, k, v), k, v) == SetId(payload, k, v)
  {
    Json.RereadTwice(payload);
    RereadUpdate(Json.Reread(payload), Name(k), v);
  }

  lemma SetIdsCommute(payload: Json.Value, k: IdKey, v: int, key: IdKey, w: int)
    requires payload.Obj? && k != key && SetId(payload, k, v) == payload
    ensures SetId(SetId(payload, key, w), k, v) == SetId(payload, key, w)
  {
    Json.RereadTwice(payload);
    RereadUpdate(Json.Reread(payload), Name(key), w);
    assert "task_id"[0] != "agent_id"[0];
    var once := SetId(payload, key, w);
    assert once.fields[Name(k)] == Json.Num(v);
    assert Json.Reread(once) == once;
    assert once.fields[Name(k) := Json.Num(v)] == once.fields;
  }

  /** A patch of this key with this id has done all it will ever do. */
  ghost predicate Patched(rows: Table, k: IdKey, v: int) {
    || Frozen(rows, k)
    || (forall id :: id in rows && Placeholder(rows[id], k) ==>
          Doomed(rows, rows[id], k) || HoldsExactly(rows[id], k, v))
  }

  lemma PatchedIsIdle(rows: Table, k: IdKey, v: int)
    requires Patched(rows, k, v)
    ensures Patch(rows, k, v) == rows
  {
    if !Poisoned(rows, k) {
      forall id | id in rows
        ensures PatchRow(rows[id], k, v) == rows[id]
      {
      }
    }
  }

  lemma PatchedAfterPatch(rows: Table, k: IdKey, v: int)
    requires Calm(rows, k) && -TWO_63 <= v < TWO_63
    ensures Patched(Patch(rows, k, v), k, v)
  {
    if !Poisoned(rows, k) {
      var after := Patch(rows, k, v);
      forall id | id in after && Placeholder(after[id], k)
        ensures HoldsExactly(after[id], k, v)
      {
        PatchRowFrame(rows[id], k, v);
        if Placeholder(rows[id], k) {
          SetIdTwice(rows[id].payload.value, k, v);
        }
      }
    }
  }

  /** What every statement on the outbox does to one row, seen from the patches' side. */
  ghost predicate Advances(rows: Table, after: Table, k: IdKey) {
    && after.Keys == rows.Keys
    && (forall id :: id in rows ==> after[id].txHash == rows[id].txHash)
    && (forall id :: id in rows && Placeholder(after[id], k) ==> Placeholder(rows[id], k))
    && (forall id :: id in rows && Poison(after[id], k) ==> Poison(rows[id], k))
    && (forall id :: id in rows && Poison(rows[id], k) && !Poison(after[id], k) ==>
          rows[id].txHash.Some? &&
          forall other :: other in rows && rows[other].txHash == rows[id].txHash ==> !after[other].status.Pending?)
  }

  lemma DoomedStays(rows: Table, after: Table, k: IdKey, id: string)
    requires Advances(rows, after, k) && id in rows
    requires Placeholder(after[id], k) && Doomed(rows, rows[id], k)
    ensures Doomed(after, after[id], k)
  {
    var bad :| bad in rows && Poison(rows[bad], k) && rows[id].txHash.Some? && rows[bad].txHash == rows[id].txHash;
    assert Poison(after[bad], k);
  }

  lemma FrozenStays(rows: Table, after: Table, k: IdKey)
    requires Advances(rows, after, k) && Frozen(rows, k)
    ensures Frozen(after, k)
  {
    var id :| id in rows && Poison(rows[id], k) && rows[id].txHash.None?;
    assert Poison(after[id], k);
  }

  lemma CalmStays(rows: Table, after: Table, k: IdKey)
    requires Advances(rows, after, k) && Calm(rows, k)
    ensures Calm(after, k)
  {
    if Frozen(rows, k) {
      FrozenStays(rows, after, k);
    } else if Poisoned(rows, k) {
      forall id | id in after && Placeholder(after[id], k)
        ensures Doomed(after, after[id], k)
      {
        DoomedStays(rows, after, k, id);
      }
    }
  }

  lemma PatchAdvances(rows: Table, key: IdKey, v: int, k: IdKey)
    requires -TWO_63 <= v < TWO_63
    ensures Advances(rows, Patch(rows, key, v), k)
  {
    forall id | id in rows
      ensures Patch(rows, key, v)[id].txHash == rows[id].txHash
      ensures Placeholder(Patch(rows, key, v)[id], k) ==> Placeholder(rows[id], k)
      ensures Poison(Patch(rows, key, v)[id], k) <==> Poison(rows[id], k)
    {
      PatchRowFrame(rows[id], key, v);
      assert NotJsonb(rows[id].payload) && rows[id].status.Pending? ==> Poison(rows[id], key);
    }
  }

  lemma FinalizeAdvances(rows: Table, tx: string, task: Option<int>, agent: Option<int>, k: IdKey)
    ensures Advances(rows, FinalizeByHash(rows, tx, task, agent), k)
  {
  }

  lemma HeldStaysHeld(row: Row, k: IdKey, v: int, key: IdKey, w: int)
    requires -TWO_63 <= w < TWO_63 && -TWO_63 <= v < TWO_63
    requires Placeholder(row, k) ==> HoldsExactly(row, k, v)
    requires Placeholder(PatchRow(row, key, w), k)
    ensures HoldsExactly(PatchRow(row, key, w), k, v)
  {
    PatchRowFrame(row, key, w);
    PatchRowFrame(row, k, v);
    if key == k {
      assert v == 0 && w == 0;
    } else if Placeholder(row, key) {
      SetIdsCommute(row.payload.value, k, v, key, w);
    }
  }

  lemma PatchedStaysUnderPatch(rows: Table, k: IdKey, v: int, key: IdKey, w: int)
    requires Patched(rows, k, v) && -TWO_63 <= w < TWO_63 && -TWO_63 <= v < TWO_63
    ensures Patched(Patch(rows, key, w), k, v)
  {
    var after := Patch(rows, key, w);
    PatchAdvances(rows, key, w, k);
    if Frozen(rows, k) {
      FrozenStays(rows, after, k);
    } else {
      forall id | id in after && Placeholder(after[id], k)
        ensures Doomed(after, after[id], k) || HoldsExactly(after[id], k, v)
      {
        PatchRowFrame(rows[id], key, w);
        if Doomed(rows, rows[id], k) {
          DoomedStays(rows, after, k, id);
        } else if !Poisoned(rows, key) {
          HeldStaysHeld(rows[id], k, v, key, w);
        }
      }
    }
  }

  lemma PatchedStaysUnderFinalize(rows: Table, k: IdKey, v: int, tx: string, task: Option<int>, agent: Option<int>)
    requires Patched(rows, k, v)
    ensures Patched(FinalizeByHash(rows, tx, task, agent), k, v)
  {
    var after := FinalizeByHash(rows, tx, task, agent);
    FinalizeAdvances(rows, tx, task, agent, k);
    if Frozen(rows, k) {
      FrozenStays(rows, after, k);
    } else {
      forall id | id in after && Placeholder(after[id], k)
        ensures Doomed(after, after[id], k) || HoldsExactly(after[id], k, v)
      {
        if Doomed(rows, rows[id], k) {
          DoomedStays(rows, after, k, id);
        }
      }
    }
  }
}
