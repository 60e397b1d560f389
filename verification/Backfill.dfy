/** The backfill pass: nested loops over selected correlation ids and the logged events that
    carry them, filling chain ids that are still missing. */
module Backfill {
  import opened Basics
  import opened IdText
  import opened OutboxRows

  datatype LogEntry = LogEntry(
    block: nat, index: nat, pallet: string, variant: string, payload: string, correlation: Option<string>)

  /** The order the events are selected in. */
  ghost predicate NewestFirst(log: seq<LogEntry>) {
    forall i, j :: 0 <= i < j < |log| ==>
      log[i].block > log[j].block || (log[i].block == log[j].block && log[i].index > log[j].index)
  }

  /** The id an event offers for a column, if its payload can be read. */
  function Offer(e: LogEntry, k: IdKey): Option<int> {
    var speaks :=
      if k.AgentKey? then e.pallet == "AgentRegistry" && e.variant == "AgentRegistered"
      else e.pallet == "TaskMarket" && (e.variant == "TaskCreated" || e.variant == "BidSubmitted" || e.variant == "TaskCompleted");
    if !speaks then None
    else match ExtractFirst(e.payload)
      case Some(id) => Some(AsI64(id))
      case None => None
  }

  /** What the printed payloads of the chain's events offer: a registration its agent, and the other
      three their task, which stands first. */
  lemma PrintedOffers(e: LogEntry, ids: seq<u64>)
    requires ids != [] && e.payload == PrintList(ids)
    ensures Offer(e, AgentKey)
      == if (e.pallet, e.variant) == ("AgentRegistry", "AgentRegistered") then Some(AsI64(ids[0])) else None
    ensures Offer(e, TaskKey)
      == if e.pallet == "TaskMarket" && e.variant in {"TaskCreated", "BidSubmitted", "TaskCompleted"}
         then Some(AsI64(ids[0])) else None
  {
    ExtractInvertsPrint(ids);
  }

  /** The first offer among the first `n` events that carry the correlation id. */
  function FirstOffer(log: seq<LogEntry>, n: nat, corr: string, k: IdKey): Option<int>
    requires n <= |log|
  {
    if n == 0 then None
    else
      var earlier := FirstOffer(log, n - 1, corr, k);
      if earlier.Some? || log[n - 1].correlation != Some(corr) then earlier else Offer(log[n - 1], k)
  }

  function OrElse(a: Option<int>, b: Option<int>): Option<int> {
    if a.Some? then a else b
  }

  function Filled(row: Row, log: seq<LogEntry>, n: nat, corr: string): Row
    requires n <= |log|
  {
    row.(chainTask := OrElse(row.chainTask, FirstOffer(log, n, corr, TaskKey)),
         chainAgent := OrElse(row.chainAgent, FirstOffer(log, n, corr, AgentKey)))
  }

  /** The simple rule the loops implement. */
  function Pass(rows: Table, selected: seq<string>, log: seq<LogEntry>): Table {
    map id | id in rows :: if id in selected then Filled(rows[id], log, |log|, id) else rows[id]
  }

  /** What one matching event adds to a row. */
  function FillFrom(row: Row, e: LogEntry): Row {
    row.(chainTask := OrElse(row.chainTask, Offer(e, TaskKey)), chainAgent := OrElse(row.chainAgent, Offer(e, AgentKey)))
  }

  /** The updates issued for one matching event; an UPDATE that finds no row does nothing. */
  method UseEvent(table: OutboxTable, corr: string, e: LogEntry)
    modifies table
    ensures table.rows == if corr in old(table.rows)
                          then old(table.rows)[corr := FillFrom(old(table.rows)[corr], e)] else old(table.rows)
  {
    if corr !in table.rows {
      return;
    }
    var row := table.rows[corr];
    var id := ExtractFirst(e.payload);
    if e.pallet == "AgentRegistry" && e.variant == "AgentRegistered" {
      if id.Some? && row.chainAgent.None? {
        row := row.(chainAgent := Some(AsI64(id.value)));
      }
    } else if e.pallet == "TaskMarket" && e.variant == "TaskCreated" {
      if id.Some? && row.chainTask.None? {
        row := row.(chainTask := Some(AsI64(id.value)));
      }
    } else if e.pallet == "TaskMarket" && (e.variant == "BidSubmitted" || e.variant == "TaskCompleted") {
      if id.Some? {
        row := row.(chainTask := OrElse(row.chainTask, Some(AsI64(id.value))));
      }
    }
    table.rows := table.rows[corr := row];
  }

  method BackfillOnce(table: OutboxTable, selected: seq<string>, log: seq<LogEntry>)
    modifies table
    ensures table.rows == Pass(old(table.rows), selected, log)
  {
    ghost var start := table.rows;
    var i := 0;
    while i < |selected|
      invariant i <= |selected|
      invariant table.rows == Pass(start, selected[..i], log)
    {
      var corr := selected[i];
      ghost var before := table.rows;
      var j := 0;
      while j < |log|
        invariant j <= |log|
        invariant table.rows == if corr in before then before[corr := Filled(before[corr], log, j, corr)] else before
      {
        if log[j].correlation == Some(corr) {
          UseEvent(table, corr, log[j]);
        }
        j := j + 1;
      }
      i := i + 1;
      NextSelected(start, selected, log, i, table.rows);
    }
    assert selected[..|selected|] == selected;
  }

  /** A second fill of a row that is already filled does nothing. */
  lemma FilledTwice(row: Row, log: seq<LogEntry>, corr: string)
    ensures Filled(Filled(row, log, |log|, corr), log, |log|, corr) == Filled(row, log, |log|, corr)
  {
  }

  lemma NextSelected(start: Table, selected: seq<string>, log: seq<LogEntry>, i: nat, rows: Table)
    requires 0 < i <= |selected|
    requires var before := Pass(start, selected[..i - 1], log);
      rows.Keys == before.Keys && forall id :: id in before ==>
        rows[id] == if id == selected[i - 1] then Filled(before[id], log, |log|, selected[i - 1]) else before[id]
    ensures rows == Pass(start, selected[..i], log)
  {
    assert selected[..i] == selected[..i - 1] + [selected[i - 1]];
    forall id | id in start
      ensures rows[id] == Pass(start, selected[..i], log)[id]
    {
      FilledTwice(start[id], log, id);
    }
  }

  // ----- what the rule means -----

  /** With events newest first, the first offer is that of the newest event that can be read. */
  lemma {:induction false} FirstOfferIsNewest(log: seq<LogEntry>, n: nat, corr: string, k: IdKey)
    requires n <= |log| && NewestFirst(log)
    ensures var first := FirstOffer(log, n, corr, k);
      if first.None? then
        forall i :: 0 <= i < n && log[i].correlation == Some(corr) ==> Offer(log[i], k).None?
      else
        exists i :: 0 <= i < n && log[i].correlation == Some(corr) && Offer(log[i], k) == first
          && forall j :: 0 <= j < n && log[j].correlation == Some(corr) && Offer(log[j], k).Some? && j != i ==>
               log[i].block > log[j].block || (log[i].block == log[j].block && log[i].index > log[j].index)
  {
    if n > 0 {
      FirstOfferIsNewest(log, n - 1, corr, k);
      if FirstOffer(log, n - 1, corr, k).Some? {
        var i :| 0 <= i < n - 1 && log[i].correlation == Some(corr) && Offer(log[i], k) == FirstOffer(log, n - 1, corr, k)
          && forall j :: 0 <= j < n - 1 && log[j].correlation == Some(corr) && Offer(log[j], k).Some? && j != i ==>
               log[i].block > log[j].block || (log[i].block == log[j].block && log[i].index > log[j].index);
        assert log[i].block > log[n - 1].block || (log[i].block == log[n - 1].block && log[i].index > log[n - 1].index);
      } else if log[n - 1].correlation == Some(corr) && Offer(log[n - 1], k).Some? {
        assert forall j :: 0 <= j < n && log[j].correlation == Some(corr) && Offer(log[j], k).Some? ==> j == n - 1;
      }
    }
  }

  /** A missing id of a selected row becomes the first one offered. A set id is never changed, nor any
      other column or row; a second pass over the same
      selection changes nothing. */
  lemma PassIsStable(rows: Table, selected: seq<string>, log: seq<LogEntry>)
    ensures Pass(rows, selected, log).Keys == rows.Keys
    ensures forall id :: id in rows ==>
      var after := Pass(rows, selected, log)[id];
      && after.(chainTask := rows[id].chainTask, chainAgent := rows[id].chainAgent) == rows[id]
      && (id in selected && rows[id].chainTask.None? ==> after.chainTask == FirstOffer(log, |log|, id, TaskKey))
      && (id in selected && rows[id].chainAgent.None? ==> after.chainAgent == FirstOffer(log, |log|, id, AgentKey))
      && (rows[id].chainTask.Some? ==> after.chainTask == rows[id].chainTask)
      && (rows[id].chainAgent.Some? ==> after.chainAgent == rows[id].chainAgent)
    ensures Pass(Pass(rows, selected, log), selected, log) == Pass(rows, selected, log)
  {
    var once := Pass(rows, selected, log);
    forall id | id in rows && id in selected
      ensures Filled(once[id], log, |log|, id) == once[id]
    {
      FilledTwice(rows[id], log, id);
    }
  }

  /** An event of the log carries this correlation id and offers an id for the column. */
  ghost predicate Offered(log: seq<LogEntry>, corr: string, k: IdKey) {
    exists i :: 0 <= i < |log| && log[i].correlation == Some(corr) && Offer(log[i], k).Some?
  }

  lemma {:induction false} OfferFound(log: seq<LogEntry>, n: nat, corr: string, k: IdKey)
    requires n <= |log|
    ensures FirstOffer(log, n, corr, k).Some?
       <==> exists i :: 0 <= i < n && log[i].correlation == Some(corr) && Offer(log[i], k).Some?
  {
    if n > 0 {
      OfferFound(log, n - 1, corr, k);
    }
  }

  /** A pass changes the table exactly when a selected row misses an id that an event with the
      row's own correlation id offers. */
  lemma PassChangesIff(rows: Table, selected: seq<string>, log: seq<LogEntry>)
    ensures Pass(rows, selected, log) != rows <==>
      exists id :: id in selected && id in rows &&
        ((rows[id].chainTask.None? && Offered(log, id, TaskKey)) || (rows[id].chainAgent.None? && Offered(log, id, AgentKey)))
  {
    forall id | id in rows && id in selected
      ensures Pass(rows, selected, log)[id] != rows[id] <==>
        (rows[id].chainTask.None? && Offered(log, id, TaskKey)) || (rows[id].chainAgent.None? && Offered(log, id, AgentKey))
    {
      OfferFound(log, |log|, id, TaskKey);
      OfferFound(log, |log|, id, AgentKey);
    }
    if Pass(rows, selected, log) != rows {
      assert exists id :: id in rows && Pass(rows, selected, log)[id] != rows[id];
    }
  }

  /** Logged events carry extrinsic hashes, "0x...", and rows are keyed by generated ids that never
      begin so. The updates compare the two, and therefore never find a row: whatever is selected,
      the pass has no effect on tables that the system itself writes. */
  lemma BackfillIsInert(rows: Table, selected: seq<string>, log: seq<LogEntry>)
    requires forall i :: 0 <= i < |log| && log[i].correlation.Some? ==> "0x" <= log[i].correlation.value
    requires forall id :: id in rows ==> !("0x" <= id)
    ensures Pass(rows, selected, log) == rows
  {
    PassChangesIff(rows, selected, log);
  }
}
