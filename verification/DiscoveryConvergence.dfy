/** A sync of well-formed reports reaches the state it describes in one run, and a second identical run
    changes nothing. */
module DiscoveryConvergence {
  import opened Options
  import opened DiscoverySync

  // ----- What is assumed -----------------------------------------------------------------

  predicate Usable(e: Entry) { Complete(e) && !Empty(e.uuid.value) }

  /** Every entry has its keys and a uuid of its own. */
  predicate DistinctUuids(es: seq<Entry>) {
    (forall k :: 0 <= k < |es| ==> Usable(es[k]))
    && forall j, k :: 0 <= j < k < |es| ==> es[j].uuid != es[k].uuid
  }

  /** A row on this hypervisor that predates uuids. */
  predicate LegacyRow(h: Hypervisor, row: VmRow) { On(h, row) && row.uuid == None }

  predicate SameMachine(a: VmRow, b: VmRow) { a.tenant == b.tenant && a.uuid == b.uuid && a.uuid.Some? }

  predicate Unique(rows: seq<VmRow>) {
    forall i, j :: 0 <= i < j < |rows| ==> !SameMachine(rows[i], rows[j])
  }

  predicate InTenant(h: Hypervisor, rows: seq<VmRow>) {
    forall i :: 0 <= i < |rows| && On(h, rows[i]) ==> rows[i].tenant == h.tenant
  }

  /** Distinct uuids in the report, at most one row per tenant and uuid, and only rows of the tenant on
      the hypervisor. */
  predicate WellFormed(h: Hypervisor, rows: seq<VmRow>, es: seq<Entry>) {
    DistinctUuids(es) && Unique(rows) && InTenant(h, rows)
  }

  /** The entry is matched by name to a row that got another uuid in this run, not flushed yet. */
  predicate Disputed(h: Hypervisor, t: Table, e: Entry) {
    e.uuid.Given?
    && var m := Find(h, t.flushed, e);
       m.Legacy? && t.cur[m.row].uuid != None
  }

  /** Entry `j` is disputed when its turn comes. */
  predicate DisputedAt(h: Hypervisor, rows: seq<VmRow>, es: seq<Entry>, j: nat)
    requires j < |es|
  {
    Disputed(h, Run(h, rows, es, j).table, es[j])
  }

  /** One of the first `k` entries is disputed. */
  predicate EverDisputed(h: Hypervisor, rows: seq<VmRow>, es: seq<Entry>, k: nat)
    requires k <= |es|
  {
    exists j: nat :: j < k && DisputedAt(h, rows, es, j)
  }

  /** No two entries share the name of a legacy row. */
  predicate NoHomonyms(h: Hypervisor, rows: seq<VmRow>, es: seq<Entry>) {
    forall j, k, i :: 0 <= j < k < |es| && 0 <= i < |rows| && es[j].name == es[k].name && LegacyRow(h, rows[i]) ==>
      Given(rows[i].name) != es[k].name
  }

  // ----- The invariant of the loop -------------------------------------------------------

  /** The row holds all that the entry says. */
  predicate Settled(h: Hypervisor, row: VmRow, e: Entry)
    requires e.uuid.Given?
  {
    On(h, row) && row.uuid == e.uuid.value && row.status != Archived && Refreshed(row, e) == row
  }

  /** What was reported is in the row: numbers (a disk only if positive), names, texts and metadata. */
  predicate Carries(row: VmRow, e: Entry) {
    (e.cpuCores.Some? ==> row.cpuCores == e.cpuCores.value)
    && (e.memoryMb.Some? ==> row.memoryMb == e.memoryMb.value)
    && (e.diskGb.Some? && e.diskGb.value > 0 ==> row.diskGb == e.diskGb.value)
    && (e.sourceName.Given? && e.sourceName.value.Some? ==> row.sourceName == e.sourceName.value)
    && (forall f :: f in e.texts && !(Network(f) && e.texts[f] == "") ==> f in row.texts && row.texts[f] == e.texts[f])
    && (forall k :: k in e.metadata ==> k in row.metadata && row.metadata[k] == e.metadata[k])
  }

  /** A settled row carries the report, and so does every row right after its update. */
  lemma SettledCarries(h: Hypervisor, row: VmRow, e: Entry)
    requires e.uuid.Given?
    ensures Carries(Refreshed(row, e), e)
    ensures Settled(h, row, e) ==> Carries(row, e)
  {
    var after := Refreshed(row, e);
    forall f | f in Overwriting(e.texts) ensures f in after.texts && after.texts[f] == e.texts[f] {
    }
  }

  predicate SettledSomewhere(h: Hypervisor, rows: seq<VmRow>, e: Entry)
    requires e.uuid.Given?
  {
    exists i :: 0 <= i < |rows| && Settled(h, rows[i], e)
  }

  /** One row: its flushed values against the session's. */
  ghost predicate Pair(h: Hypervisor, f: VmRow, c: VmRow) {
    f.tenant == c.tenant && f.name == c.name
    && (f.uuid.Some? ==> c.uuid == f.uuid)
    && (On(h, f) ==> On(h, c))
    && (c.uuid == None ==> c == f)
  }

  /** The row was changed for this entry. */
  ghost predicate For(f: VmRow, c: VmRow, e: Entry)
    requires Usable(e)
  {
    c.uuid == e.uuid.value && (f.uuid == None ==> Given(c.name) == e.name)
  }

  ghost predicate ForOneOf(f: VmRow, c: VmRow, es: seq<Entry>, k: nat)
    requires DistinctUuids(es) && k <= |es|
  {
    f == c || exists j :: 0 <= j < k && For(f, c, es[j])
  }

  ghost predicate Inv(h: Hypervisor, rows: seq<VmRow>, es: seq<Entry>, k: nat, t: Table)
    requires DistinctUuids(es) && k <= |es|
  {
    && (forall i :: 0 <= i < |t.cur| ==> Pair(h, t.flushed[i], t.cur[i]))
    && (forall i :: 0 <= i < |t.cur| && t.flushed[i].uuid == None ==> i < |rows| && t.flushed[i] == rows[i])
    && (forall i :: 0 <= i < |t.cur| ==> ForOneOf(t.flushed[i], t.cur[i], es, k))
    && InTenant(h, t.cur) && Unique(t.cur)
  }

  /** The first `k` entries all have their row. */
  ghost predicate AllSettled(h: Hypervisor, es: seq<Entry>, k: nat, rows: seq<VmRow>)
    requires DistinctUuids(es) && k <= |es|
  {
    forall j :: 0 <= j < k ==> SettledSomewhere(h, rows, es[j])
  }

  // ----- One entry -----------------------------------------------------------------------

  /** A refreshed row is settled, and refreshing it again changes nothing. */
  lemma RefreshedIsSettled(h: Hypervisor, row: VmRow, e: Entry)
    requires Usable(e) && On(h, row) && (row.uuid == e.uuid.value || row.uuid == None)
    ensures Settled(h, Refreshed(row, e), e)
  {
    var once := Refreshed(row, e);
    assert once.texts + Overwriting(e.texts) == once.texts;
    assert once.metadata + e.metadata == once.metadata;
  }

  lemma NewRowIsSettled(h: Hypervisor, e: Entry)
    requires Usable(e)
    ensures Settled(h, NewRow(h, e), e)
  {
    assert e.texts + Overwriting(e.texts) == e.texts;
    assert e.metadata + e.metadata == e.metadata;
  }

  /** No row of the session has the uuid when no flushed row of the tenant has it. */
  lemma UnknownUuid(h: Hypervisor, rows: seq<VmRow>, es: seq<Entry>, k: nat, t: Table, i: nat)
    requires DistinctUuids(es) && k < |es| && Inv(h, rows, es, k, t) && i < |t.cur|
    requires ByUuidInTenant(h, es[k], t.flushed) == None
    requires t.cur[i].tenant == h.tenant
    ensures t.cur[i].uuid != es[k].uuid.value
  {
    assert Pair(h, t.flushed[i], t.cur[i]) && ForOneOf(t.flushed[i], t.cur[i], es, k);
  }

  /** Settled rows of other entries are not the row that is written. */
  lemma OthersStaySettled(h: Hypervisor, es: seq<Entry>, k: nat, before: seq<VmRow>, after: seq<VmRow>, i: nat)
    requires DistinctUuids(es) && k < |es| && |before| <= |after| && i < |after|
    requires forall j :: 0 <= j < |before| && j != i ==> after[j] == before[j]
    requires i < |before| ==> before[i].uuid == es[k].uuid.value || before[i].uuid == None
    requires Settled(h, after[i], es[k])
    requires AllSettled(h, es, k, before)
    ensures AllSettled(h, es, k + 1, after)
  {
    forall j | 0 <= j < k ensures SettledSomewhere(h, after, es[j]) {
      var m :| 0 <= m < |before| && Settled(h, before[m], es[j]);
      assert m != i && Settled(h, after[m], es[j]);
    }
  }

  /** Writing one row of the tenant with a uuid no other row has keeps uuids unique. */
  lemma StaysUnique(before: seq<VmRow>, after: seq<VmRow>, i: nat)
    requires |before| <= |after| <= |before| + 1 && i < |after| && (|after| > |before| ==> i == |before|)
    requires forall j :: 0 <= j < |before| && j != i ==> after[j] == before[j] && !SameMachine(before[j], after[i])
    requires Unique(before)
    ensures Unique(after)
  {
    forall a, b | 0 <= a < b < |after| ensures !SameMachine(after[a], after[b]) {
      assert a != i ==> !SameMachine(before[a], after[i]);
      assert b != i ==> !SameMachine(before[b], after[i]);
    }
  }

  lemma MoreEntries(f: VmRow, c: VmRow, es: seq<Entry>, k: nat)
    requires DistinctUuids(es) && k < |es| && ForOneOf(f, c, es, k)
    ensures ForOneOf(f, c, es, k + 1)
  {
  }

  /** An update in place. A disputed row keeps the uuid it got. */
  lemma TouchKeepsInv(h: Hypervisor, rows: seq<VmRow>, es: seq<Entry>, k: nat, t: Table, i: nat, reattach: bool)
    requires DistinctUuids(es) && k < |es| && Inv(h, rows, es, k, t) && i < |t.cur|
    requires t.flushed[i].tenant == h.tenant && (!reattach ==> On(h, t.flushed[i]))
    requires t.flushed[i].uuid == es[k].uuid.value
             || (LegacyRow(h, t.flushed[i]) && Given(t.flushed[i].name) == es[k].name
                 && ByUuidInTenant(h, es[k], t.flushed) == None)
    ensures Inv(h, rows, es, k + 1, Touch(h, t, i, reattach, es[k]))
  {
    var e := es[k];
    var after := Touch(h, t, i, reattach, e).cur;
    assert Usable(e) && Pair(h, t.flushed[i], t.cur[i]) && ForOneOf(t.flushed[i], t.cur[i], es, k);
    TouchedIsFor(es, k, t.flushed[i], t.cur[i], after[i]);
    forall j | 0 <= j < |t.cur| && j != i ensures !SameMachine(t.cur[j], after[i]) {
      if t.cur[i].uuid == None {
        if t.cur[j].tenant == h.tenant { UnknownUuid(h, rows, es, k, t, j); }
      } else {
        assert !SameMachine(t.cur[i], t.cur[j]) by { assert i < j || j < i; }
      }
    }
    StaysUnique(t.cur, after, i);
    forall j | 0 <= j < |t.cur| && j != i ensures ForOneOf(t.flushed[j], after[j], es, k + 1) {
      MoreEntries(t.flushed[j], t.cur[j], es, k);
    }
  }

  /** The row that was written belongs to this entry or to the one that took it before. */
  lemma TouchedIsFor(es: seq<Entry>, k: nat, f: VmRow, c: VmRow, after: VmRow)
    requires DistinctUuids(es) && k < |es| && ForOneOf(f, c, es, k) && f.name == c.name == after.name
    requires after.uuid == if Empty(c.uuid) then es[k].uuid.value else c.uuid
    requires f.uuid == es[k].uuid.value || (f.uuid == None && Given(f.name) == es[k].name)
    requires f.uuid.Some? ==> c.uuid == f.uuid
    ensures ForOneOf(f, after, es, k + 1)
  {
    assert Usable(es[k]);
    if after.uuid == es[k].uuid.value {
      assert For(f, after, es[k]);
    } else {
      var j :| 0 <= j < k && For(f, c, es[j]);
      assert For(f, after, es[j]);
    }
  }

  lemma InsertKeepsInv(h: Hypervisor, rows: seq<VmRow>, es: seq<Entry>, k: nat, t: Table)
    requires DistinctUuids(es) && k < |es| && Inv(h, rows, es, k, t)
    requires ByUuidInTenant(h, es[k], t.flushed) == None
    ensures Inv(h, rows, es, k + 1, Insert(h, t, es[k]))
  {
    var e := es[k];
    assert Usable(e);
    var after := t.cur + [NewRow(h, e)];
    forall j | 0 <= j < |t.cur| ensures !SameMachine(t.cur[j], after[|t.cur|]) {
      if t.cur[j].tenant == h.tenant { UnknownUuid(h, rows, es, k, t, j); }
    }
    StaysUnique(t.cur, after, |t.cur|);
    forall j | 0 <= j < |t.cur| && t.cur[j].uuid == None ensures j < |rows| && t.cur[j] == rows[j] {
      assert Pair(h, t.flushed[j], t.cur[j]);
    }
  }

  lemma EntryKeepsInv(h: Hypervisor, rows: seq<VmRow>, es: seq<Entry>, k: nat, t: Table)
    requires DistinctUuids(es) && k < |es| && Inv(h, rows, es, k, t)
    ensures Inv(h, rows, es, k + 1, TableAfter(h, t, es[k]))
  {
    assert Usable(es[k]);
    var m := Find(h, t.flushed, es[k]);
    if m.Here? || m.Elsewhere? || m.Legacy? {
      assert Pair(h, t.flushed[m.row], t.cur[m.row]);
    }
    match m
    case Here(i) => TouchKeepsInv(h, rows, es, k, t, i, false);
    case Elsewhere(i) => TouchKeepsInv(h, rows, es, k, t, i, true);
    case Legacy(i) => TouchKeepsInv(h, rows, es, k, t, i, false);
    case NoRow => InsertKeepsInv(h, rows, es, k, t);
    case NoName =>
  }

  /** An undisputed entry gets its row, and takes none away. */
  lemma EntrySettles(h: Hypervisor, rows: seq<VmRow>, es: seq<Entry>, k: nat, t: Table)
    requires DistinctUuids(es) && k < |es| && Inv(h, rows, es, k, t) && AllSettled(h, es, k, t.cur)
    requires !Disputed(h, t, es[k])
    ensures AllSettled(h, es, k + 1, TableAfter(h, t, es[k]).cur)
  {
    var e := es[k];
    assert Usable(e);
    match Find(h, t.flushed, e)
    case Here(i) => TouchSettles(h, es, k, t, i, false);
    case Elsewhere(i) => TouchSettles(h, es, k, t, i, true);
    case Legacy(i) => TouchSettles(h, es, k, t, i, false);
    case NoRow =>
      NewRowIsSettled(h, e);
      OthersStaySettled(h, es, k, t.cur, t.cur + [NewRow(h, e)], |t.cur|);
    case NoName =>
  }

  lemma TouchSettles(h: Hypervisor, es: seq<Entry>, k: nat, t: Table, i: nat, reattach: bool)
    requires DistinctUuids(es) && k < |es| && AllSettled(h, es, k, t.cur) && i < |t.cur|
    requires Pair(h, t.flushed[i], t.cur[i]) && (!reattach ==> On(h, t.flushed[i]))
    requires t.flushed[i].uuid == es[k].uuid.value || t.cur[i].uuid == None
    ensures AllSettled(h, es, k + 1, Touch(h, t, i, reattach, es[k]).cur)
  {
    assert Usable(es[k]);
    RefreshedIsSettled(h, if reattach then t.cur[i].(hypervisor := Some(h.id)) else t.cur[i], es[k]);
    OthersStaySettled(h, es, k, t.cur, Touch(h, t, i, reattach, es[k]).cur, i);
  }

  lemma StartsWithInv(h: Hypervisor, rows: seq<VmRow>, es: seq<Entry>)
    requires WellFormed(h, rows, es)
    ensures Inv(h, rows, es, 0, Run(h, rows, es, 0).table)
  {
  }

  lemma StepKeepsInv(h: Hypervisor, rows: seq<VmRow>, es: seq<Entry>, k: nat)
    requires DistinctUuids(es) && k < |es| && Inv(h, rows, es, k, Run(h, rows, es, k).table)
    ensures Inv(h, rows, es, k + 1, Run(h, rows, es, k + 1).table)
  {
    EntryKeepsInv(h, rows, es, k, Run(h, rows, es, k).table);
  }

  lemma RunKeepsInv(h: Hypervisor, rows: seq<VmRow>, es: seq<Entry>, k: nat)
    requires WellFormed(h, rows, es) && k <= |es|
    ensures Inv(h, rows, es, k, Run(h, rows, es, k).table)
  {
    StartsWithInv(h, rows, es);
    for j := 0 to k
      invariant Inv(h, rows, es, j, Run(h, rows, es, j).table)
    {
      StepKeepsInv(h, rows, es, j);
    }
  }

  ghost predicate SettledAfter(h: Hypervisor, rows: seq<VmRow>, es: seq<Entry>, n: nat)
    requires DistinctUuids(es) && n <= |es|
  {
    AllSettled(h, es, n, Run(h, rows, es, n).table.cur)
  }

  lemma StepSettles(h: Hypervisor, rows: seq<VmRow>, es: seq<Entry>, n: nat)
    requires WellFormed(h, rows, es) && n < |es| && SettledAfter(h, rows, es, n) && !DisputedAt(h, rows, es, n)
    ensures SettledAfter(h, rows, es, n + 1)
  {
    RunKeepsInv(h, rows, es, n);
    EntrySettles(h, rows, es, n, Run(h, rows, es, n).table);
  }

  lemma NothingSettledYet(h: Hypervisor, rows: seq<VmRow>, es: seq<Entry>)
    requires DistinctUuids(es)
    ensures SettledAfter(h, rows, es, 0)
  {
  }

  lemma NeverDisputed(h: Hypervisor, rows: seq<VmRow>, es: seq<Entry>, k: nat)
    requires 0 < k <= |es| && !EverDisputed(h, rows, es, k)
    ensures !EverDisputed(h, rows, es, k - 1) && !DisputedAt(h, rows, es, k - 1)
  {
  }

  lemma {:induction false} RunSettles(h: Hypervisor, rows: seq<VmRow>, es: seq<Entry>, k: nat)
    requires WellFormed(h, rows, es) && k <= |es| && !EverDisputed(h, rows, es, k)
    ensures SettledAfter(h, rows, es, k)
  {
    if k == 0 {
      NothingSettledYet(h, rows, es);
    } else {
      NeverDisputed(h, rows, es, k);
      RunSettles(h, rows, es, k - 1);
      StepSettles(h, rows, es, k - 1);
    }
  }

  // ----- A disputed entry ---------------------------------------------------------------

  /** No row of the tenant has the uuid. */
  ghost predicate Absent(h: Hypervisor, rows: seq<VmRow>, uuid: Option<string>) {
    forall i :: 0 <= i < |rows| && rows[i].tenant == h.tenant ==> rows[i].uuid != uuid
  }

  lemma DisputedIsAbsent(h: Hypervisor, rows: seq<VmRow>, es: seq<Entry>, k: nat, t: Table)
    requires DistinctUuids(es) && k < |es| && Inv(h, rows, es, k, t) && Disputed(h, t, es[k])
    ensures Absent(h, TableAfter(h, t, es[k]).cur, es[k].uuid.value)
  {
    var i := Find(h, t.flushed, es[k]).row;
    var after := TableAfter(h, t, es[k]).cur;
    assert Usable(es[k]) && ForOneOf(t.flushed[i], t.cur[i], es, k);
    forall j | 0 <= j < |after| && after[j].tenant == h.tenant ensures after[j].uuid != es[k].uuid.value {
      assert after[j].tenant == t.cur[j].tenant && after[j].uuid == t.cur[j].uuid;
      UnknownUuid(h, rows, es, k, t, j);
    }
  }

  lemma WriteKeepsAbsent(h: Hypervisor, t: Table, e: Entry, m: Match, uuid: Option<string>)
    requires e.uuid.Given? && Fits(h, t.flushed, e, m) && Absent(h, t.cur, uuid) && e.uuid.value != uuid
    ensures Absent(h, Write(h, t, e, m).cur, uuid)
  {
  }

  lemma EntryKeepsAbsent(h: Hypervisor, t: Table, e: Entry, uuid: Option<string>)
    requires Absent(h, t.cur, uuid) && e.uuid != Given(uuid)
    ensures Absent(h, TableAfter(h, t, e).cur, uuid)
  {
    if e.uuid.Given? { WriteKeepsAbsent(h, t, e, Find(h, t.flushed, e), uuid); }
  }

  /** Without a row at some point, a uuid that no later entry has never gets one. */
  lemma RunKeepsAbsent(h: Hypervisor, rows: seq<VmRow>, es: seq<Entry>, from: nat, k: nat, uuid: Option<string>)
    requires from <= k <= |es| && Absent(h, Run(h, rows, es, from).table.cur, uuid)
    requires forall n :: from <= n < k ==> es[n].uuid != Given(uuid)
    ensures Absent(h, Run(h, rows, es, k).table.cur, uuid)
  {
    var holds := (n: nat, p: Progress) => Absent(h, p.table.cur, uuid);
    forall n: nat, p | from <= n < k && holds(n, p) ensures holds(n + 1, Next(h, p, es[n])) {
      EntryKeepsAbsent(h, p.table, es[n], uuid);
    }
    RunInduct(h, rows, es, from, k, holds);
  }

  lemma ArchivingKeepsAbsent(h: Hypervisor, t: Table, seen: set<Option<string>>, uuid: Option<string>)
    requires Absent(h, t.cur, uuid)
    ensures Absent(h, ArchiveStale(h, t, seen), uuid)
  {
  }

  lemma AbsentBehindDispute(h: Hypervisor, rows: seq<VmRow>, es: seq<Entry>, j: nat)
    requires WellFormed(h, rows, es) && j < |es| && DisputedAt(h, rows, es, j)
    ensures Absent(h, Run(h, rows, es, j + 1).table.cur, es[j].uuid.value)
  {
    RunKeepsInv(h, rows, es, j);
    DisputedIsAbsent(h, rows, es, j, Run(h, rows, es, j).table);
  }

  /** A disputed run ends with a reported uuid that no row of the tenant has. */
  lemma {:induction false} DisputedLosesAMachine(h: Hypervisor, rows: seq<VmRow>, es: seq<Entry>, j: nat)
    requires WellFormed(h, rows, es) && j < |es| && DisputedAt(h, rows, es, j)
    ensures Absent(h, Synced(h, rows, es), es[j].uuid.value)
  {
    AbsentBehindDispute(h, rows, es, j);
    RunKeepsAbsent(h, rows, es, j + 1, |es|, es[j].uuid.value);
    var p := Run(h, rows, es, |es|);
    ArchivingKeepsAbsent(h, p.table, p.seen, es[j].uuid.value);
  }

  /** Distinct names, at least among the names of legacy rows, are never disputed. */
  lemma WithoutHomonymsNoDispute(h: Hypervisor, rows: seq<VmRow>, es: seq<Entry>, k: nat)
    requires WellFormed(h, rows, es) && NoHomonyms(h, rows, es) && k <= |es|
    ensures !EverDisputed(h, rows, es, k)
  {
    forall j: nat | j < k ensures !DisputedAt(h, rows, es, j) {
      RunKeepsInv(h, rows, es, j);
      NotDisputed(h, rows, es, j, Run(h, rows, es, j).table);
    }
  }

  lemma NotDisputed(h: Hypervisor, rows: seq<VmRow>, es: seq<Entry>, k: nat, t: Table)
    requires DistinctUuids(es) && NoHomonyms(h, rows, es) && k < |es| && Inv(h, rows, es, k, t)
    ensures !Disputed(h, t, es[k])
  {
    var m := Find(h, t.flushed, es[k]);
    if m.Legacy? {
      assert LegacyRow(h, rows[m.row]);
      assert Pair(h, t.flushed[m.row], t.cur[m.row]) && ForOneOf(t.flushed[m.row], t.cur[m.row], es, k);
    }
  }

  // ----- After the sync ------------------------------------------------------------------

  /** The last of the entries' uuids are all seen, and only theirs. */
  lemma SeenIsReported(h: Hypervisor, rows: seq<VmRow>, es: seq<Entry>)
    ensures Run(h, rows, es, |es|).seen == Reported(es)
  {
    RunSees(h, rows, es, |es|);
    assert es[..|es|] == es;
  }

  /** A row that belongs to an entry is not archived. */
  lemma SettledIsNotStale(h: Hypervisor, rows: seq<VmRow>, es: seq<Entry>, k: nat, t: Table, i: nat)
    requires DistinctUuids(es) && k < |es| && Inv(h, rows, es, |es|, t) && i < |t.cur|
    requires t.cur[i].uuid == es[k].uuid.value
    ensures !Stale(h, t.flushed[i], Reported(es))
  {
    assert Pair(h, t.flushed[i], t.cur[i]);
    assert es[k] in es && es[k].uuid.value in Reported(es);
  }

  ghost predicate HasOneRow(h: Hypervisor, rows: seq<VmRow>, e: Entry)
    requires e.uuid.Given?
  {
    exists i :: 0 <= i < |rows| && Settled(h, rows[i], e)
                && forall j :: 0 <= j < |rows| && On(h, rows[j]) && rows[j].uuid == e.uuid.value ==> j == i
  }

  /** After a sync every reported machine has exactly one row on the hypervisor, not archived and holding
      everything reported, exactly if no entry was disputed. */
  lemma EveryReportedMachineHasOneRow(h: Hypervisor, rows: seq<VmRow>, es: seq<Entry>)
    requires WellFormed(h, rows, es)
    ensures (forall k :: 0 <= k < |es| ==> HasOneRow(h, Synced(h, rows, es), es[k])) <==> !EverDisputed(h, rows, es, |es|)
  {
    SyncedIsWellFormed(h, rows, es);
    if EverDisputed(h, rows, es, |es|) {
      var j: nat :| j < |es| && DisputedAt(h, rows, es, j);
      DisputedLosesAMachine(h, rows, es, j);
      assert Usable(es[j]) && !HasOneRow(h, Synced(h, rows, es), es[j]);
    } else {
      var t := Run(h, rows, es, |es|).table;
      RunKeepsInv(h, rows, es, |es|);
      RunSettles(h, rows, es, |es|);
      SeenIsReported(h, rows, es);
      forall k | 0 <= k < |es| ensures HasOneRow(h, Synced(h, rows, es), es[k]) {
        OneRow(h, rows, es, k, t);
      }
    }
  }

  /** The table stays one that a sync may start from. */
  lemma SyncedIsWellFormed(h: Hypervisor, rows: seq<VmRow>, es: seq<Entry>)
    requires WellFormed(h, rows, es)
    ensures WellFormed(h, Synced(h, rows, es), es)
  {
    RunKeepsInv(h, rows, es, |es|);
    ArchivingKeepsUnique(h, Run(h, rows, es, |es|).table, Run(h, rows, es, |es|).seen);
  }

  lemma ArchivingKeepsUnique(h: Hypervisor, t: Table, seen: set<Option<string>>)
    requires Unique(t.cur) && InTenant(h, t.cur)
    ensures Unique(ArchiveStale(h, t, seen)) && InTenant(h, ArchiveStale(h, t, seen))
  {
    var out := ArchiveStale(h, t, seen);
    forall i, j | 0 <= i < j < |out| ensures !SameMachine(out[i], out[j]) {
      assert !SameMachine(t.cur[i], t.cur[j]);
    }
  }

  lemma OneRow(h: Hypervisor, rows: seq<VmRow>, es: seq<Entry>, k: nat, t: Table)
    requires WellFormed(h, rows, es) && k < |es| && Inv(h, rows, es, |es|, t) && AllSettled(h, es, |es|, t.cur)
    ensures HasOneRow(h, ArchiveStale(h, t, Reported(es)), es[k])
  {
    var out := ArchiveStale(h, t, Reported(es));
    assert Usable(es[k]) && SettledSomewhere(h, t.cur, es[k]);
    var i :| 0 <= i < |t.cur| && Settled(h, t.cur[i], es[k]);
    SettledIsNotStale(h, rows, es, k, t, i);
    assert out[i] == t.cur[i];
    ArchivingKeepsUnique(h, t, Reported(es));
    forall j | 0 <= j < |out| && On(h, out[j]) && out[j].uuid == es[k].uuid.value ensures j == i {
      assert j < i ==> !SameMachine(out[j], out[i]);
      assert i < j ==> !SameMachine(out[i], out[j]);
    }
  }

  // ----- The second sync -----------------------------------------------------------------

  lemma SettledEntryIsIdle(h: Hypervisor, rows: seq<VmRow>, e: Entry)
    requires Usable(e) && HasOneRow(h, rows, e)
    ensures TableAfter(h, Views(rows, rows), e) == Views(rows, rows)
    ensures OutcomeOf(h, Views(rows, rows), e) == Updated
  {
    var here := ByUuidHere(h, e, rows);
    assert here.Some? && Settled(h, rows[here.value], e);
  }

  lemma SettledNext(h: Hypervisor, p: Progress, rows: seq<VmRow>, e: Entry)
    requires p.table == Views(rows, rows) && Usable(e) && HasOneRow(h, rows, e)
    ensures Next(h, p, e).table == p.table
    ensures Next(h, p, e).stats == p.stats.(updatedVms := p.stats.updatedVms + 1)
  {
    SettledEntryIsIdle(h, rows, e);
  }

  /** Entries that all have their settled row change nothing. */
  lemma SettledRunIsIdle(h: Hypervisor, rows: seq<VmRow>, es: seq<Entry>, k: nat)
    requires k <= |es| && DistinctUuids(es)
    requires forall j :: 0 <= j < |es| ==> HasOneRow(h, rows, es[j])
    ensures Run(h, rows, es, k).table == Views(rows, rows)
    ensures Run(h, rows, es, k).stats == Stats(0, k, 0, 0)
  {
    for n := 0 to k
      invariant Run(h, rows, es, n).table == Views(rows, rows) && Run(h, rows, es, n).stats == Stats(0, n, 0, 0)
    {
      SettledNext(h, Run(h, rows, es, n), rows, es[n]);
      assert Run(h, rows, es, n + 1) == Next(h, Run(h, rows, es, n), es[n]);
    }
  }

  /** Nothing is left to archive. */
  lemma NothingIsStale(h: Hypervisor, rows: seq<VmRow>, es: seq<Entry>, t: Table, i: nat)
    requires WellFormed(h, rows, es) && Inv(h, rows, es, |es|, t) && i < |t.cur|
    ensures !Stale(h, ArchiveStale(h, t, Reported(es))[i], Reported(es))
  {
    assert Pair(h, t.flushed[i], t.cur[i]) && ForOneOf(t.flushed[i], t.cur[i], es, |es|);
    if t.flushed[i] != t.cur[i] {
      var j :| 0 <= j < |es| && For(t.flushed[i], t.cur[i], es[j]);
      assert es[j] in es && es[j].uuid.value in Reported(es);
    }
  }

  /** The same hypervisor over a database that may pick other rows. */
  predicate SameSource(h: Hypervisor, later: Hypervisor) { later.id == h.id && later.tenant == h.tenant }

  lemma SameSourceAgrees(h: Hypervisor, later: Hypervisor, rows: seq<VmRow>, es: seq<Entry>, e: Entry)
    requires SameSource(h, later) && e.uuid.Given?
    ensures WellFormed(later, rows, es) <==> WellFormed(h, rows, es)
    ensures HasOneRow(later, rows, e) <==> HasOneRow(h, rows, e)
  {
    assert forall row :: Settled(later, row, e) <==> Settled(h, row, e);
    assert forall row :: On(later, row) <==> On(h, row);
  }

  lemma RepeatedIsIdle(h: Hypervisor, later: Hypervisor, rows: seq<VmRow>, es: seq<Entry>)
    requires WellFormed(h, rows, es) && !EverDisputed(h, rows, es, |es|) && SameSource(h, later)
    ensures var out := Synced(h, rows, es);
            Synced(later, out, es) == out && ArchivedBy(later, out, es) == {}
            && Run(later, out, es, |es|).stats == Stats(0, |es|, 0, 0)
  {
    var out := Synced(h, rows, es);
    var t := Run(h, rows, es, |es|).table;
    EveryReportedMachineHasOneRow(h, rows, es);
    forall k | 0 <= k < |es| ensures HasOneRow(later, out, es[k]) {
      SameSourceAgrees(h, later, out, es, es[k]);
    }
    SettledRunIsIdle(later, out, es, |es|);
    SeenIsReported(h, rows, es);
    SeenIsReported(later, out, es);
    RunKeepsInv(h, rows, es, |es|);
    forall i | 0 <= i < |out| ensures !Stale(later, out[i], Reported(es)) {
      NothingIsStale(h, rows, es, t, i);
    }
  }

  predicate HasUuid(rows: seq<VmRow>, i: nat, uuid: Option<string>) { i < |rows| && rows[i].uuid == uuid }

  /** A uuid, once in the session, stays. */
  lemma WriteKeepsUuids(h: Hypervisor, t: Table, e: Entry, m: Match, i: nat, uuid: Option<string>)
    requires e.uuid.Given? && Fits(h, t.flushed, e, m) && !Empty(uuid) && HasUuid(t.cur, i, uuid)
    ensures HasUuid(Write(h, t, e, m).cur, i, uuid)
  {
  }

  lemma EntryKeepsUuids(h: Hypervisor, t: Table, e: Entry, i: nat, uuid: Option<string>)
    requires !Empty(uuid) && HasUuid(t.cur, i, uuid)
    ensures HasUuid(TableAfter(h, t, e).cur, i, uuid)
  {
    if e.uuid.Given? { WriteKeepsUuids(h, t, e, Find(h, t.flushed, e), i, uuid); }
  }

  lemma RunKeepsUuids(h: Hypervisor, rows: seq<VmRow>, es: seq<Entry>, from: nat, k: nat, i: nat, uuid: Option<string>)
    requires from <= k <= |es| && !Empty(uuid) && HasUuid(Run(h, rows, es, from).table.cur, i, uuid)
    ensures HasUuid(Run(h, rows, es, k).table.cur, i, uuid)
  {
    var holds := (n: nat, p: Progress) => HasUuid(p.table.cur, i, uuid);
    forall n: nat, p | from <= n < k && holds(n, p) ensures holds(n + 1, Next(h, p, es[n])) {
      EntryKeepsUuids(h, p.table, es[n], i, uuid);
    }
    RunInduct(h, rows, es, from, k, holds);
  }

  /** A disputed run gives a uuid to a row that had none. */
  lemma DisputedChangesTheTable(h: Hypervisor, rows: seq<VmRow>, es: seq<Entry>)
    requires WellFormed(h, rows, es)
    ensures EverDisputed(h, rows, es, |es|) ==> Synced(h, rows, es) != rows
  {
    if EverDisputed(h, rows, es, |es|) {
      var j: nat :| j < |es| && DisputedAt(h, rows, es, j);
      var i, uuid := TakenRow(h, rows, es, j);
      RunKeepsUuids(h, rows, es, j, |es|, i, uuid);
      assert rows[i].uuid == None && Synced(h, rows, es)[i].uuid == uuid;
    }
  }

  lemma TakenRow(h: Hypervisor, rows: seq<VmRow>, es: seq<Entry>, j: nat) returns (i: nat, uuid: Option<string>)
    requires WellFormed(h, rows, es) && j < |es| && DisputedAt(h, rows, es, j)
    ensures i < |rows| && rows[i].uuid == None && !Empty(uuid) && HasUuid(Run(h, rows, es, j).table.cur, i, uuid)
  {
    var t := Run(h, rows, es, j).table;
    RunKeepsInv(h, rows, es, j);
    i := Find(h, t.flushed, es[j]).row;
    uuid := t.cur[i].uuid;
    assert Pair(h, t.flushed[i], t.cur[i]) && ForOneOf(t.flushed[i], t.cur[i], es, j);
  }

  /** An identical second sync, whichever rows its queries pick, leaves the table as it is (the times of
      the last sighting apart) exactly if no entry of the first one was disputed. It then refreshes every
      entry's row and inserts and archives nothing. */
  lemma {:induction false} SecondSyncIsIdle(h: Hypervisor, later: Hypervisor, rows: seq<VmRow>, es: seq<Entry>)
    requires WellFormed(h, rows, es) && SameSource(h, later)
    ensures var out := Synced(h, rows, es);
            (Synced(later, out, es) == out <==> !EverDisputed(h, rows, es, |es|))
            && (Synced(later, out, es) == out ==>
                  ArchivedBy(later, out, es) == {} && Run(later, out, es, |es|).stats == Stats(0, |es|, 0, 0))
  {
    if EverDisputed(h, rows, es, |es|) {
      SecondSyncChanges(h, later, rows, es);
    } else {
      RepeatedIsIdle(h, later, rows, es);
    }
  }

  lemma {:induction false} SecondSyncChanges(h: Hypervisor, later: Hypervisor, rows: seq<VmRow>, es: seq<Entry>)
    requires WellFormed(h, rows, es) && SameSource(h, later)
    ensures EverDisputed(h, rows, es, |es|) ==> Synced(later, Synced(h, rows, es), es) != Synced(h, rows, es)
  {
    var out := Synced(h, rows, es);
    SyncedIsWellFormed(h, rows, es);
    EveryReportedMachineHasOneRow(h, rows, es);
    if EverDisputed(h, rows, es, |es|) {
      var k :| 0 <= k < |es| && !HasOneRow(h, out, es[k]);
      SameSourceAgrees(h, later, out, es, es[k]);
      if EverDisputed(later, out, es, |es|) {
        DisputedChangesTheTable(later, out, es);
      } else {
        EveryReportedMachineHasOneRow(later, out, es);
        SameSourceAgrees(h, later, Synced(later, out, es), es, es[k]);
      }
    }
  }

  // ----- Why names must not compete ------------------------------------------------------

  function Plain(uuid: string, name: string): Entry {
    Entry(Given(Some(uuid)), Given(name), Given(None), None, None, None, map[], map[])
  }

  function LegacyWeb(h: Hypervisor): VmRow {
    VmRow(h.tenant, Some(h.id), None, "web", Discovered, None, 1, 1024, 0, map[], map[])
  }

  /** The row whether or not it got its uuid in this run: queries still see it without one. */
  lemma PlainMatchesLegacy(h: Hypervisor, e: Entry, t: Table)
    requires e == Plain("a", "web") || e == Plain("b", "web")
    requires t == Views([LegacyWeb(h)], [LegacyWeb(h)]) || t == Views([LegacyWeb(h)], [LegacyWeb(h).(uuid := Some("a"))])
    ensures Find(h, t.flushed, e) == Legacy(0) && OutcomeOf(h, t, e) == Updated
    ensures t.cur[0].uuid == None ==> TableAfter(h, t, e) == Views(t.flushed, [t.cur[0].(uuid := e.uuid.value)])
    ensures t.cur[0].uuid != None ==> TableAfter(h, t, e) == t && Disputed(h, t, e)
  {
    var row := t.cur[0];
    assert row.texts + Overwriting(e.texts) == row.texts && row.metadata + e.metadata == row.metadata;
  }

  /** Two machines of one name and one row of that name without a uuid: the second entry also matches
      the row, whose new uuid is not flushed yet, so no row ever gets the second uuid. */
  lemma HomonymsLoseAMachine(h: Hypervisor)
    ensures var rows, es := [LegacyWeb(h)], [Plain("a", "web"), Plain("b", "web")];
            WellFormed(h, rows, es) && EverDisputed(h, rows, es, 2)
            && Synced(h, rows, es) == [LegacyWeb(h).(uuid := Some("a"))]
            && Run(h, rows, es, 2).stats == Stats(0, 2, 0, 0)
  {
    var rows, es := [LegacyWeb(h)], [Plain("a", "web"), Plain("b", "web")];
    assert "a"[0] != "b"[0];
    PlainMatchesLegacy(h, es[0], Views(rows, rows));
    assert Run(h, rows, es, 1) == Next(h, Run(h, rows, es, 0), es[0]);
    var t1 := Run(h, rows, es, 1).table;
    PlainMatchesLegacy(h, es[1], t1);
    assert DisputedAt(h, rows, es, 1);
  }
}
