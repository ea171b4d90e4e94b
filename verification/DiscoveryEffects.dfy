/** What a sync writes, column by column: the rows it inserts, the columns an update leaves alone, and the
    rows it does not touch. */
module DiscoveryEffects {
  import opened Options
  import opened DiscoverySync

  // ----- Inserts -------------------------------------------------------------------------

  /** No pass finds a row for the entry. */
  ghost predicate Unmatched(h: Hypervisor, rows: seq<VmRow>, e: Entry) {
    forall i :: 0 <= i < |rows| ==>
      !((rows[i].hypervisor == Some(h.id) || rows[i].tenant == h.tenant) && Given(rows[i].uuid) == e.uuid)
      && !(rows[i].hypervisor == Some(h.id) && Given(rows[i].name) == e.name && rows[i].uuid == None)
  }

  /** The columns of a new machine: DISCOVERED, in the hypervisor's tenant and on it, with what was reported
      and otherwise one processor, 1024 MB and no disk. */
  ghost predicate NewMachine(h: Hypervisor, e: Entry, row: VmRow) {
    row.tenant == h.tenant && row.hypervisor == Some(h.id) && row.status == Discovered
    && Given(row.uuid) == e.uuid && Given(row.name) == e.name && Given(row.sourceName) == e.sourceName
    && row.cpuCores == (if e.cpuCores == None then 1 else e.cpuCores.value)
    && row.memoryMb == (if e.memoryMb == None then 1024 else e.memoryMb.value)
    && row.diskGb == (if e.diskGb == None then 0 else e.diskGb.value)
    && row.texts == e.texts && row.metadata == e.metadata
  }

  /** A complete entry that no pass matches adds exactly one row, and every pending edit is flushed with it. */
  lemma UnmatchedIsInserted(h: Hypervisor, t: Table, e: Entry)
    requires e.uuid.Given? && e.name.Given? && e.sourceName.Given? && Unmatched(h, t.flushed, e)
    ensures var after := TableAfter(h, t, e);
            |after.cur| == |t.cur| + 1 && after.cur[..|t.cur|] == t.cur && after.flushed == after.cur
            && NewMachine(h, e, after.cur[|t.cur|])
    ensures OutcomeOf(h, t, e) == Inserted
  {
    assert Find(h, t.flushed, e).NoRow?;
  }

  // ----- Updates -------------------------------------------------------------------------

  predicate Address(f: TextField) { f in {IpAddress, MacAddress, HostName} }

  /** What an update leaves alone: identity and owner, a status that is not ARCHIVED, a uuid that is there,
      and every column for which nothing usable was reported. */
  ghost predicate Untouched(row: VmRow, e: Entry, after: VmRow) {
    after.tenant == row.tenant && after.name == row.name && after.hypervisor == row.hypervisor
    && after.status == (if row.status == Archived then Discovered else row.status)
    && (row.uuid.Some? && row.uuid != Some("") ==> after.uuid == row.uuid)
    && (e.sourceName.Missing? || e.sourceName.value == None ==> after.sourceName == row.sourceName)
    && (e.cpuCores == None ==> after.cpuCores == row.cpuCores)
    && (e.memoryMb == None ==> after.memoryMb == row.memoryMb)
    && (e.diskGb == None || e.diskGb.value <= 0 ==> after.diskGb == row.diskGb)
    && (forall f :: f !in e.texts || (Address(f) && e.texts[f] == "") ==>
          (f in after.texts <==> f in row.texts) && (f in row.texts ==> after.texts[f] == row.texts[f]))
    && forall k :: k !in e.metadata ==>
         (k in after.metadata <==> k in row.metadata) && (k in row.metadata ==> after.metadata[k] == row.metadata[k])
  }

  /** What an update writes. */
  ghost predicate Overwritten(e: Entry, after: VmRow) {
    (e.sourceName.Given? && e.sourceName.value.Some? ==> after.sourceName == e.sourceName.value)
    && (e.cpuCores.Some? ==> after.cpuCores == e.cpuCores.value)
    && (e.memoryMb.Some? ==> after.memoryMb == e.memoryMb.value)
    && (e.diskGb.Some? && e.diskGb.value > 0 ==> after.diskGb == e.diskGb.value)
    && (forall f :: f in e.texts && !(Address(f) && e.texts[f] == "") ==> f in after.texts && after.texts[f] == e.texts[f])
    && forall k :: k in e.metadata ==> k in after.metadata && after.metadata[k] == e.metadata[k]
  }

  /** The update of one row, complete: each column is overwritten or untouched, and a missing uuid is filled
      from the entry. */
  lemma UpdateEffect(row: VmRow, e: Entry)
    requires e.uuid.Given?
    ensures Untouched(row, e, Refreshed(row, e)) && Overwritten(e, Refreshed(row, e))
    ensures row.uuid == None && e.uuid.value != None && e.uuid.value != Some("") ==> Refreshed(row, e).uuid == e.uuid.value
  {
    assert forall f :: Address(f) <==> Network(f);
    assert forall f :: f in Overwriting(e.texts) <==> f in e.texts && !(Address(f) && e.texts[f] == "");
  }

  // ----- The rows a sync adds ------------------------------------------------------------

  ghost predicate NamedBy(es: seq<Entry>, name: string) { exists k :: 0 <= k < |es| && es[k].name == Given(name) }

  ghost predicate UuidFrom(es: seq<Entry>, uuid: Option<string>) { exists k :: 0 <= k < |es| && es[k].uuid == Given(uuid) }

  /** A row that the sync added. */
  ghost predicate Added(h: Hypervisor, es: seq<Entry>, row: VmRow) {
    row.tenant == h.tenant && row.hypervisor == Some(h.id) && row.status == Discovered
    && NamedBy(es, row.name) && UuidFrom(es, row.uuid)
  }

  ghost predicate AllAdded(h: Hypervisor, es: seq<Entry>, base: nat, t: Table) {
    base <= |t.cur|
    && forall i :: base <= i < |t.cur| ==> Added(h, es, t.cur[i]) && Added(h, es, t.flushed[i])
  }

  lemma TouchKeepsAdded(h: Hypervisor, es: seq<Entry>, base: nat, t: Table, k: nat, reattach: bool, e: Entry)
    requires AllAdded(h, es, base, t) && e in es && e.uuid.Given? && k < |t.cur|
    ensures AllAdded(h, es, base, Touch(h, t, k, reattach, e))
  {
    var j :| 0 <= j < |es| && es[j] == e;
    assert es[j].uuid == Given(e.uuid.value);
    var after := Touch(h, t, k, reattach, e);
    assert forall i :: 0 <= i < |t.cur| && i != k ==> after.cur[i] == t.cur[i];
    UpdateEffect(if reattach then t.cur[k].(hypervisor := Some(h.id)) else t.cur[k], e);
  }

  lemma InsertKeepsAdded(h: Hypervisor, es: seq<Entry>, base: nat, t: Table, e: Entry)
    requires AllAdded(h, es, base, t) && e in es && e.uuid.Given? && e.name.Given? && e.sourceName.Given?
    ensures AllAdded(h, es, base, Insert(h, t, e))
  {
    var j :| 0 <= j < |es| && es[j] == e;
    assert es[j].name == Given(e.name.value) && es[j].uuid == Given(e.uuid.value);
    assert Added(h, es, NewRow(h, e));
  }

  lemma EntryKeepsAdded(h: Hypervisor, es: seq<Entry>, base: nat, t: Table, e: Entry)
    requires AllAdded(h, es, base, t) && e in es
    ensures AllAdded(h, es, base, TableAfter(h, t, e))
  {
    if e.uuid.Given? {
      match Find(h, t.flushed, e)
      case Here(k) => TouchKeepsAdded(h, es, base, t, k, false, e);
      case Elsewhere(k) => TouchKeepsAdded(h, es, base, t, k, true, e);
      case Legacy(k) => TouchKeepsAdded(h, es, base, t, k, false, e);
      case NoRow => if e.sourceName.Given? { InsertKeepsAdded(h, es, base, t, e); }
      case NoName =>
    }
  }

  /** Every row that a sync adds to the table is a machine of the hypervisor and its tenant with a reported
      name and a reported uuid, and it is DISCOVERED, whatever else was reported. */
  lemma AddedRowsAreDiscovered(h: Hypervisor, rows: seq<VmRow>, es: seq<Entry>)
    ensures forall i :: |rows| <= i < |Synced(h, rows, es)| ==> Added(h, es, Synced(h, rows, es)[i])
  {
    var holds := (n: nat, p: Progress) => AllAdded(h, es, |rows|, p.table);
    forall n: nat, p | n < |es| && holds(n, p) ensures holds(n + 1, Next(h, p, es[n])) {
      EntryKeepsAdded(h, es, |rows|, p.table, es[n]);
    }
    RunInduct(h, rows, es, 0, |es|, holds);
    ArchivedAreThoseThatBecameSo(h, rows, es);
    assert forall i :: |rows| <= i ==> i !in ArchivedBy(h, rows, es);
  }

  // ----- The rows a sync does not touch --------------------------------------------------

  /** A machine whose uuid was not reported keeps every column but its status, and that changes only to
      ARCHIVED: exactly if the machine is on the hypervisor, neither migrating nor migrated, and no entry
      reported a null uuid. */
  lemma UnreportedMachine(h: Hypervisor, rows: seq<VmRow>, es: seq<Entry>, i: nat)
    requires i < |rows| && rows[i].uuid.Some? && rows[i].uuid !in Reported(es)
    ensures i < |Synced(h, rows, es)|
    ensures var after := Synced(h, rows, es)[i];
            if rows[i].hypervisor == Some(h.id) && rows[i].status !in {Archived, Migrating, Migrated}
               && None !in Reported(es)
            then after == rows[i].(status := Archived) else after == rows[i]
  {
    var p := Run(h, rows, es, |es|);
    assert es[..|es|] == es;
    RunSees(h, rows, es, |es|);
    RunChangesSeen(h, rows, es, |es|);
    RunFollows(h, rows, es, |es|);
    assert Keeps(h, rows[i], p.table.flushed[i]) && Keeps(h, p.table.flushed[i], p.table.cur[i]);
  }
}
