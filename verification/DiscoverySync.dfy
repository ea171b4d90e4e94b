/** Writing the virtual machines a hypervisor reports into the table of virtual machines. Every reported
    machine is matched in three passes, then refreshed or inserted; machines no longer reported are
    archived. */
module DiscoverySync {
  import opened Options

  datatype VmStatus =
    | Discovered | Analyzing | Compatible | Incompatible | PartlyCompatible | Migrating | Migrated | Failed | Archived

  datatype TextField = OsType | OsVersion | OsName | IpAddress | MacAddress | HostName

  /** A row. A field missing from `texts` is NULL (or its column's default). */
  datatype VmRow = VmRow(
    tenant: string,
    hypervisor: Option<int>,
    uuid: Option<string>,
    name: string,
    status: VmStatus,
    sourceName: Option<string>,
    cpuCores: int,
    memoryMb: int,
    diskGb: int,
    texts: map<TextField, string>,
    metadata: map<string, string>)

  /** A dictionary key that must be there, with its value. */
  datatype Key<T> = Missing | Given(value: T)

  /** One reported machine. A number, text or metadata key that is not there, or null, is left out. */
  datatype Entry = Entry(
    uuid: Key<Option<string>>,
    name: Key<string>,
    sourceName: Key<Option<string>>,
    cpuCores: Option<int>,
    memoryMb: Option<int>,
    diskGb: Option<int>,
    texts: map<TextField, string>,
    metadata: map<string, string>)

  /** The WHERE clauses of the three passes. */
  datatype Where = UuidHere(uuid: Option<string>) | UuidInTenant(uuid: Option<string>) | NameHere(name: string)

  /** The hypervisor of a sync. `pick` is the database's part in it: which of the selected rows a query
      without ORDER BY returns first, as it likes for every entry, clause and table. */
  datatype Hypervisor = Hypervisor(id: int, tenant: string, pick: (Entry, Where, seq<VmRow>) -> nat)

  /** The session does not flush before a query: a WHERE clause sees `flushed`, while the rows it
      returns are the session's own objects, whose values are in `cur`. */
  datatype Views = Views(flushed: seq<VmRow>, cur: seq<VmRow>)
  type Table = t: Views | |t.flushed| == |t.cur| witness Views([], [])

  // ----- One row -------------------------------------------------------------------------

  predicate Empty(uuid: Option<string>) { uuid == None || uuid == Some("") }

  predicate Network(f: TextField) { f.IpAddress? || f.MacAddress? || f.HostName? }

  /** The texts that overwrite a row: an empty network address does not. */
  function Overwriting(texts: map<TextField, string>): map<TextField, string> {
    map f | f in texts && (Network(f) ==> texts[f] != "") :: texts[f]
  }

  function Or<T>(o: Option<T>, otherwise: T): T {
    match o case Some(v) => v case None => otherwise
  }

  /** The row after the discovery update. */
  function Refreshed(row: VmRow, e: Entry): VmRow
    requires e.uuid.Given?
  {
    row.(status := if row.status == Archived then Discovered else row.status,
         uuid := if Empty(row.uuid) && !Empty(e.uuid.value) then e.uuid.value else row.uuid,
         sourceName := if e.sourceName.Given? && e.sourceName.value.Some? then e.sourceName.value else row.sourceName,
         cpuCores := Or(e.cpuCores, row.cpuCores),
         memoryMb := Or(e.memoryMb, row.memoryMb),
         diskGb := if e.diskGb.Some? && e.diskGb.value > 0 then e.diskGb.value else row.diskGb,
         texts := row.texts + Overwriting(e.texts),
         metadata := row.metadata + e.metadata)
  }

  function NewRow(h: Hypervisor, e: Entry): VmRow
    requires e.uuid.Given? && e.name.Given? && e.sourceName.Given?
  {
    VmRow(h.tenant, Some(h.id), e.uuid.value, e.name.value, Discovered, e.sourceName.value,
          Or(e.cpuCores, 1), Or(e.memoryMb, 1024), Or(e.diskGb, 0), e.texts, e.metadata)
  }

  predicate On(h: Hypervisor, row: VmRow) { row.hypervisor == Some(h.id) }

  predicate Protected(s: VmStatus) { s == Migrating || s == Migrated }

  // ----- Matching ------------------------------------------------------------------------

  predicate Selects(h: Hypervisor, w: Where, row: VmRow) {
    match w
    case UuidHere(uuid) => On(h, row) && row.uuid == uuid
    case UuidInTenant(uuid) => row.tenant == h.tenant && row.uuid == uuid
    case NameHere(name) => On(h, row) && row.name == name && row.uuid == None
  }

  function Leading(h: Hypervisor, w: Where, rows: seq<VmRow>, from: nat): (k: Option<nat>)
    requires from <= |rows|
    ensures k.Some? ==> k.value < |rows| && Selects(h, w, rows[k.value])
    ensures k == None ==> forall j :: from <= j < |rows| ==> !Selects(h, w, rows[j])
    decreases |rows| - from
  {
    if from == |rows| then None else if Selects(h, w, rows[from]) then Some(from) else Leading(h, w, rows, from + 1)
  }

  /** `.first()`: some row that the clause selects, if there is one. */
  function First(h: Hypervisor, e: Entry, w: Where, rows: seq<VmRow>): (k: Option<nat>)
    ensures k.Some? ==> k.value < |rows| && Selects(h, w, rows[k.value])
    ensures k == None ==> forall j :: 0 <= j < |rows| ==> !Selects(h, w, rows[j])
  {
    var k := h.pick(e, w, rows);
    if k < |rows| && Selects(h, w, rows[k]) then Some(k) else Leading(h, w, rows, 0)
  }

  /** Every selected row is the answer of some database. */
  lemma AnyRowMayComeFirst(h: Hypervisor, e: Entry, w: Where, rows: seq<VmRow>, k: nat)
    requires k < |rows| && Selects(h, w, rows[k])
    ensures First(h.(pick := (_, _, _) => k), e, w, rows) == Some(k)
  {
  }

  /** Pass 1: the uuid on this hypervisor. */
  function ByUuidHere(h: Hypervisor, e: Entry, rows: seq<VmRow>): (k: Option<nat>)
    requires e.uuid.Given?
    ensures k.Some? ==> k.value < |rows| && On(h, rows[k.value]) && rows[k.value].uuid == e.uuid.value
    ensures k == None ==> forall j :: 0 <= j < |rows| ==> !Selects(h, UuidHere(e.uuid.value), rows[j])
  {
    First(h, e, UuidHere(e.uuid.value), rows)
  }

  /** Pass 2: the uuid anywhere in the tenant. */
  function ByUuidInTenant(h: Hypervisor, e: Entry, rows: seq<VmRow>): (k: Option<nat>)
    requires e.uuid.Given?
    ensures k.Some? ==> k.value < |rows| && rows[k.value].tenant == h.tenant && rows[k.value].uuid == e.uuid.value
    ensures k == None ==> forall j :: 0 <= j < |rows| ==> !Selects(h, UuidInTenant(e.uuid.value), rows[j])
  {
    First(h, e, UuidInTenant(e.uuid.value), rows)
  }

  /** Pass 3: the name on this hypervisor, among the rows without a uuid. */
  function ByName(h: Hypervisor, e: Entry, rows: seq<VmRow>): (k: Option<nat>)
    requires e.name.Given?
    ensures k.Some? ==> k.value < |rows| && On(h, rows[k.value]) && rows[k.value].name == e.name.value && rows[k.value].uuid == None
    ensures k == None ==> forall j :: 0 <= j < |rows| ==> !Selects(h, NameHere(e.name.value), rows[j])
  {
    First(h, e, NameHere(e.name.value), rows)
  }

  datatype Match = Here(row: nat) | Elsewhere(row: nat) | Legacy(row: nat) | NoRow | NoName

  /** What is known of the row that is found. */
  predicate Fits(h: Hypervisor, rows: seq<VmRow>, e: Entry, m: Match)
    requires e.uuid.Given?
  {
    match m
    case Here(k) => k < |rows| && On(h, rows[k]) && rows[k].uuid == e.uuid.value
    case Elsewhere(k) => k < |rows| && rows[k].tenant == h.tenant && rows[k].uuid == e.uuid.value
    case Legacy(k) => k < |rows| && On(h, rows[k]) && rows[k].uuid == None && Given(rows[k].name) == e.name
    case NoRow => e.name.Given?
    case NoName => e.name.Missing?
  }

  function Find(h: Hypervisor, rows: seq<VmRow>, e: Entry): (m: Match)
    requires e.uuid.Given?
    ensures Fits(h, rows, e, m)
  {
    var here := ByUuidHere(h, e, rows);
    var elsewhere := ByUuidInTenant(h, e, rows);
    if here.Some? then Here(here.value)
    else if elsewhere.Some? then Elsewhere(elsewhere.value)
    else if e.name.Missing? then NoName
    else match ByName(h, e, rows) case Some(k) => Legacy(k) case None => NoRow
  }

  // ----- One entry -----------------------------------------------------------------------

  /** `UpdatedThenError`: the row was refreshed and counted, then the log line missed the name. */
  datatype Outcome = Inserted | Updated | UpdatedThenError | Error

  datatype Stats = Stats(newVms: int, updatedVms: int, unchangedVms: int, errors: int)

  /** `twice` records how many entries were counted twice; the code does not keep it. */
  datatype Progress = Progress(table: Table, seen: set<Option<string>>, stats: Stats, twice: nat)

  function Touch(h: Hypervisor, t: Table, k: nat, reattach: bool, e: Entry): Table
    requires k < |t.cur| && e.uuid.Given?
  {
    var row := if reattach then t.cur[k].(hypervisor := Some(h.id)) else t.cur[k];
    t.(cur := t.cur[k := Refreshed(row, e)])
  }

  /** An insert flushes: every pending change becomes visible to queries. */
  function Insert(h: Hypervisor, t: Table, e: Entry): Table
    requires e.uuid.Given? && e.name.Given? && e.sourceName.Given?
  {
    Views(t.cur + [NewRow(h, e)], t.cur + [NewRow(h, e)])
  }

  function Write(h: Hypervisor, t: Table, e: Entry, m: Match): Table
    requires e.uuid.Given? && Fits(h, t.flushed, e, m)
  {
    match m
    case Here(k) => Touch(h, t, k, false, e)
    case Elsewhere(k) => Touch(h, t, k, true, e)
    case Legacy(k) => Touch(h, t, k, false, e)
    case NoRow => if e.sourceName.Given? then Insert(h, t, e) else t
    case NoName => t
  }

  function TableAfter(h: Hypervisor, t: Table, e: Entry): Table {
    if e.uuid.Missing? then t else Write(h, t, e, Find(h, t.flushed, e))
  }

  function OutcomeOf(h: Hypervisor, t: Table, e: Entry): Outcome {
    if e.uuid.Missing? then Error
    else
      var m := Find(h, t.flushed, e);
      if m.NoName? then Error
      else if m.NoRow? then (if e.sourceName.Given? then Inserted else Error)
      else if e.name.Given? then Updated else UpdatedThenError
  }

  function Counted(s: Stats, o: Outcome): Stats {
    match o
    case Inserted => s.(newVms := s.newVms + 1)
    case Updated => s.(updatedVms := s.updatedVms + 1)
    case UpdatedThenError => s.(updatedVms := s.updatedVms + 1, errors := s.errors + 1)
    case Error => s.(errors := s.errors + 1)
  }

  function UuidOf(e: Entry): set<Option<string>> { if e.uuid.Given? then {e.uuid.value} else {} }

  function Next(h: Hypervisor, p: Progress, e: Entry): Progress {
    var outcome := OutcomeOf(h, p.table, e);
    Progress(TableAfter(h, p.table, e), p.seen + UuidOf(e), Counted(p.stats, outcome),
             p.twice + (if outcome == UpdatedThenError then 1 else 0))
  }

  /** After the first `k` entries. */
  function Run(h: Hypervisor, rows: seq<VmRow>, es: seq<Entry>, k: nat): Progress
    requires k <= |es|
  {
    if k == 0 then Progress(Views(rows, rows), {}, Stats(0, 0, 0, 0), 0) else Next(h, Run(h, rows, es, k - 1), es[k - 1])
  }

  predicate IsAt(p: Progress, table: Table, seen: set<Option<string>>, stats: Stats) {
    p.table == table && p.seen == seen && p.stats == stats
  }

  /** What every entry carries on holds after the run. */
  lemma RunInduct(h: Hypervisor, rows: seq<VmRow>, es: seq<Entry>, from: nat, k: nat, holds: (nat, Progress) -> bool)
    requires from <= k <= |es| && holds(from, Run(h, rows, es, from))
    requires forall n, p :: from <= n < k && holds(n, p) ==> holds(n + 1, Next(h, p, es[n]))
    ensures holds(k, Run(h, rows, es, k))
  {
    for n := from to k
      invariant holds(n, Run(h, rows, es, n))
    {
      assert Run(h, rows, es, n + 1) == Next(h, Run(h, rows, es, n), es[n]);
    }
  }

  // ----- Archiving -----------------------------------------------------------------------

  /** `uuid NOT IN (seen)` in SQL's three-valued logic: NULL on either side makes it unknown, and an
      unknown row is not selected. The clause is left out when nothing was seen. */
  predicate NotReported(uuid: Option<string>, seen: set<Option<string>>) {
    seen == {} || (uuid.Some? && uuid !in seen && None !in seen)
  }

  predicate Stale(h: Hypervisor, row: VmRow, seen: set<Option<string>>) {
    On(h, row) && row.status != Archived && !Protected(row.status) && NotReported(row.uuid, seen)
  }

  /** The rows after archiving the stale ones, which are selected by their flushed values. */
  function ArchiveStale(h: Hypervisor, t: Table, seen: set<Option<string>>): (rows: seq<VmRow>)
    ensures |rows| == |t.cur|
  {
    seq(|t.cur|, k requires 0 <= k < |t.cur| =>
      if Stale(h, t.flushed[k], seen) then t.cur[k].(status := Archived) else t.cur[k])
  }

  function StaleRows(h: Hypervisor, t: Table, seen: set<Option<string>>, n: nat): set<nat>
    requires n <= |t.flushed|
  {
    set k: nat | k < n && Stale(h, t.flushed[k], seen)
  }

  /** The positions of the rows that the live count counts. */
  function LiveRows(h: Hypervisor, rows: seq<VmRow>): (live: set<nat>)
    ensures forall k: nat :: k in live <==> k < |rows| && rows[k].hypervisor == Some(h.id) && rows[k].status != Archived
  {
    set k: nat | k < |rows| && On(h, rows[k]) && rows[k].status != Archived
  }

  /** The committed table after a sync. */
  function Synced(h: Hypervisor, rows: seq<VmRow>, es: seq<Entry>): seq<VmRow> {
    var p := Run(h, rows, es, |es|);
    ArchiveStale(h, p.table, p.seen)
  }

  function ArchivedBy(h: Hypervisor, rows: seq<VmRow>, es: seq<Entry>): set<nat> {
    var p := Run(h, rows, es, |es|);
    StaleRows(h, p.table, p.seen, |p.table.flushed|)
  }

  // ----- The sync as the session runs it -------------------------------------------------

  class Session {
    var flushed: seq<VmRow>
    var cur: seq<VmRow>

    ghost predicate Valid()
      reads this
    {
      |flushed| == |cur|
    }

    ghost function Contents(): Table
      reads this
      requires Valid()
    {
      Views(flushed, cur)
    }

    constructor (rows: seq<VmRow>)
      ensures Valid() && Contents() == Views(rows, rows)
    {
      flushed, cur := rows, rows;
    }

    method Flush()
      requires Valid()
      modifies this
      ensures Valid() && Contents() == Views(old(cur), old(cur))
    {
      flushed := cur;
    }

    method ReattachByUuid(h: Hypervisor, e: Entry) returns (existing: Option<nat>)
      requires Valid() && e.uuid.Given?
      modifies this
      ensures Valid() && flushed == old(flushed)
      ensures existing == ByUuidInTenant(h, e, flushed)
      ensures cur == if existing == None then old(cur)
                     else old(cur)[existing.value := old(cur[existing.value]).(hypervisor := Some(h.id))]
    {
      existing := ByUuidInTenant(h, e, flushed);
      if existing.Some? {
        cur := cur[existing.value := cur[existing.value].(hypervisor := Some(h.id))];
      }
    }

    method UpdateFromDiscovery(k: nat, e: Entry) returns (changed: bool)
      requires Valid() && k < |cur| && e.uuid.Given?
      modifies this
      ensures Valid() && flushed == old(flushed)
      ensures cur == old(cur)[k := Refreshed(old(cur[k]), e)]
      ensures changed
    {
      var row := cur[k];
      if row.status == Archived {
        row := row.(status := Discovered);
      }
      if Empty(row.uuid) && !Empty(e.uuid.value) {
        row := row.(uuid := e.uuid.value);
      }
      if e.sourceName.Given? && e.sourceName.value.Some? {
        row := row.(sourceName := e.sourceName.value);
      }
      if e.cpuCores.Some? {
        row := row.(cpuCores := e.cpuCores.value);
      }
      if e.memoryMb.Some? {
        row := row.(memoryMb := e.memoryMb.value);
      }
      if e.diskGb.Some? && e.diskGb.value > 0 {
        row := row.(diskGb := e.diskGb.value);
      }
      row := row.(texts := row.texts + Overwriting(e.texts), metadata := row.metadata + e.metadata);
      cur := cur[k := row];
      // The time of the last sighting is always written, and counts as a change.
      changed := true;
    }

    /** Applies one entry; `stats` is counted up to the point where a missing key stops it. */
    method SyncEntry(h: Hypervisor, e: Entry, before: Stats) returns (stats: Stats)
      requires Valid()
      modifies this
      ensures Valid() && Contents() == TableAfter(h, old(Contents()), e)
      ensures stats == Counted(before, OutcomeOf(h, old(Contents()), e))
    {
      stats := before;
      if e.uuid.Missing? { return stats.(errors := stats.errors + 1); }
      var existing := ByUuidHere(h, e, flushed);
      if existing == None {
        existing := ReattachByUuid(h, e);
      }
      if existing == None {
        if e.name.Missing? { return stats.(errors := stats.errors + 1); }
        existing := ByName(h, e, flushed);
      }
      if existing.Some? {
        var changed := UpdateFromDiscovery(existing.value, e);
        stats := if changed then stats.(updatedVms := stats.updatedVms + 1)
                 else stats.(unchangedVms := stats.unchangedVms + 1);
        if e.name.Missing? { stats := stats.(errors := stats.errors + 1); }
      } else {
        if e.sourceName.Missing? { return stats.(errors := stats.errors + 1); }
        flushed := flushed + [NewRow(h, e)];
        cur := cur + [NewRow(h, e)];
        Flush();
        stats := stats.(newVms := stats.newVms + 1);
      }
    }

    /** The loop over the reported machines. */
    method SyncEntries(h: Hypervisor, es: seq<Entry>) returns (stats: Stats, seen: set<Option<string>>)
      requires Valid() && flushed == cur
      modifies this
      ensures Valid() && IsAt(Run(h, old(cur), es, |es|), Contents(), seen, stats)
    {
      seen, stats := {}, Stats(0, 0, 0, 0);
      for k := 0 to |es|
        invariant Valid() && IsAt(Run(h, old(cur), es, k), Contents(), seen, stats)
      {
        seen := seen + UuidOf(es[k]);
        stats := SyncEntry(h, es[k], stats);
      }
    }

    /** The loop over the stale rows. */
    method ArchiveMissing(h: Hypervisor, seen: set<Option<string>>) returns (archived: nat)
      requires Valid()
      modifies this
      ensures Valid() && flushed == old(flushed) && cur == ArchiveStale(h, old(Contents()), seen)
      ensures archived == |StaleRows(h, old(Contents()), seen, |flushed|)|
    {
      ghost var t: Table := Contents();
      archived := 0;
      for k := 0 to |flushed|
        invariant Valid() && flushed == t.flushed && archived == |StaleRows(h, t, seen, k)|
        invariant forall j :: 0 <= j < k ==> cur[j] == ArchiveStale(h, t, seen)[j]
        invariant forall j :: k <= j < |cur| ==> cur[j] == t.cur[j]
      {
        StaleRowsNext(h, t, seen, k);
        if Stale(h, flushed[k], seen) {
          cur := cur[k := cur[k].(status := Archived)];
          archived := archived + 1;
        }
      }
    }

    method SaveDiscoveredVms(h: Hypervisor, es: seq<Entry>) returns (stats: Stats, archived: nat, live: nat)
      requires Valid() && flushed == cur
      modifies this
      ensures Valid() && Contents() == Views(Synced(h, old(cur), es), Synced(h, old(cur), es))
      ensures stats == Run(h, old(cur), es, |es|).stats
      ensures archived == |ArchivedBy(h, old(cur), es)|
      ensures live == |LiveRows(h, cur)|
    {
      var seen: set<Option<string>>;
      stats, seen := SyncEntries(h, es);
      archived := ArchiveMissing(h, seen);
      Flush();
      live := |LiveRows(h, flushed)|;
    }
  }

  lemma StaleRowsNext(h: Hypervisor, t: Table, seen: set<Option<string>>, n: nat)
    requires n < |t.flushed|
    ensures |StaleRows(h, t, seen, n + 1)| == |StaleRows(h, t, seen, n)| + (if Stale(h, t.flushed[n], seen) then 1 else 0)
  {
    var one := StaleRows(h, t, seen, n);
    if Stale(h, t.flushed[n], seen) {
      assert StaleRows(h, t, seen, n + 1) == one + {n};
    } else {
      assert StaleRows(h, t, seen, n + 1) == one;
    }
  }

  // ----- What any list of entries keeps --------------------------------------------------

  /** What matching and refreshing may make of a row. A row of another tenant that is not on this
      hypervisor is never written. */
  ghost predicate Keeps(h: Hypervisor, a: VmRow, b: VmRow) {
    && b.tenant == a.tenant && b.name == a.name
    && (if a.uuid.Some? then b.uuid == a.uuid else b.uuid != Some(""))
    && (b.hypervisor == a.hypervisor || On(h, b))
    && (b.status == a.status || (a.status == Archived && b.status == Discovered))
    && (!On(h, a) && a.tenant != h.tenant ==> b == a)
  }

  ghost predicate AllKept(h: Hypervisor, a: seq<VmRow>, b: seq<VmRow>) {
    |a| <= |b| && forall k :: 0 <= k < |a| ==> Keeps(h, a[k], b[k])
  }

  /** Between the table the sync found, what queries see and what the session holds. */
  ghost predicate Follows(h: Hypervisor, rows: seq<VmRow>, t: Table) {
    AllKept(h, rows, t.flushed) && AllKept(h, t.flushed, t.cur)
  }

  lemma TouchKeeps(h: Hypervisor, t: Table, k: nat, reattach: bool, e: Entry)
    requires k < |t.cur| && e.uuid.Given? && Keeps(h, t.flushed[k], t.cur[k])
    requires t.flushed[k].uuid == e.uuid.value || t.flushed[k].uuid == None
    requires if reattach then t.flushed[k].tenant == h.tenant else On(h, t.flushed[k])
    ensures Keeps(h, t.flushed[k], Touch(h, t, k, reattach, e).cur[k])
  {
  }

  lemma KeepsIsTransitive(h: Hypervisor, a: seq<VmRow>, b: seq<VmRow>, c: seq<VmRow>)
    requires AllKept(h, a, b) && AllKept(h, b, c)
    ensures AllKept(h, a, c)
  {
    forall k | 0 <= k < |a| ensures Keeps(h, a[k], c[k]) {
      assert Keeps(h, a[k], b[k]) && Keeps(h, b[k], c[k]);
    }
  }

  lemma TouchFollows(h: Hypervisor, rows: seq<VmRow>, t: Table, k: nat, reattach: bool, e: Entry)
    requires k < |t.cur| && e.uuid.Given? && Follows(h, rows, t)
    requires t.flushed[k].uuid == e.uuid.value || t.flushed[k].uuid == None
    requires if reattach then t.flushed[k].tenant == h.tenant else On(h, t.flushed[k])
    ensures Follows(h, rows, Touch(h, t, k, reattach, e))
  {
    assert Keeps(h, t.flushed[k], t.cur[k]);
    TouchKeeps(h, t, k, reattach, e);
    var after := Touch(h, t, k, reattach, e);
    forall j | 0 <= j < |t.flushed| ensures Keeps(h, t.flushed[j], after.cur[j]) {
      assert Keeps(h, t.flushed[j], t.cur[j]);
    }
  }

  lemma InsertFollows(h: Hypervisor, rows: seq<VmRow>, t: Table, e: Entry)
    requires Follows(h, rows, t) && e.uuid.Given? && e.name.Given? && e.sourceName.Given?
    ensures Follows(h, rows, Insert(h, t, e))
  {
    KeepsIsTransitive(h, rows, t.flushed, t.cur);
    var after := Insert(h, t, e);
    forall j | 0 <= j < |rows| ensures Keeps(h, rows[j], after.cur[j]) {
      assert Keeps(h, rows[j], t.cur[j]) && after.cur[j] == t.cur[j];
    }
  }

  lemma WriteFollows(h: Hypervisor, rows: seq<VmRow>, t: Table, e: Entry, m: Match)
    requires Follows(h, rows, t) && e.uuid.Given? && Fits(h, t.flushed, e, m)
    ensures Follows(h, rows, Write(h, t, e, m))
  {
    match m
    case Here(k) => TouchFollows(h, rows, t, k, false, e);
    case Elsewhere(k) => TouchFollows(h, rows, t, k, true, e);
    case Legacy(k) => TouchFollows(h, rows, t, k, false, e);
    case NoRow => if e.sourceName.Given? { InsertFollows(h, rows, t, e); }
    case NoName =>
  }

  lemma EntryFollows(h: Hypervisor, rows: seq<VmRow>, t: Table, e: Entry)
    requires Follows(h, rows, t)
    ensures Follows(h, rows, TableAfter(h, t, e))
  {
    if e.uuid.Given? { WriteFollows(h, rows, t, e, Find(h, t.flushed, e)); }
  }

  lemma RunFollows(h: Hypervisor, rows: seq<VmRow>, es: seq<Entry>, k: nat)
    requires k <= |es|
    ensures Follows(h, rows, Run(h, rows, es, k).table)
  {
    var holds := (n: nat, p: Progress) => Follows(h, rows, p.table);
    forall n: nat, p | n < k && holds(n, p) ensures holds(n + 1, Next(h, p, es[n])) {
      EntryFollows(h, rows, p.table, es[n]);
    }
    RunInduct(h, rows, es, 0, k, holds);
  }

  /** Whatever is reported, no row disappears, changes its tenant or its name, or loses or changes a
      uuid; a migrating or migrated machine keeps its status; other rows change it only to ARCHIVED, or
      from ARCHIVED to DISCOVERED; a row moves only to this hypervisor; and the rows of other tenants
      that are not on this hypervisor stay exactly as they were. */
  lemma RowsAreKept(h: Hypervisor, rows: seq<VmRow>, es: seq<Entry>)
    ensures |rows| <= |Synced(h, rows, es)|
    ensures forall k :: 0 <= k < |rows| ==>
              var (a, b) := (rows[k], Synced(h, rows, es)[k]);
              b.tenant == a.tenant && b.name == a.name
              && (a.uuid.Some? ==> b.uuid == a.uuid)
              && (Protected(a.status) ==> b.status == a.status)
              && (b.status == a.status || b.status == Archived || (a.status == Archived && b.status == Discovered))
              && (b.hypervisor == a.hypervisor || On(h, b))
              && (!On(h, a) && a.tenant != h.tenant ==> b == a)
  {
    RunFollows(h, rows, es, |es|);
    var t := Run(h, rows, es, |es|).table;
    KeepsIsTransitive(h, rows, t.flushed, t.cur);
    forall k | 0 <= k < |rows|
      ensures Keeps(h, rows[k], t.flushed[k]) && Keeps(h, rows[k], t.cur[k])
    {
    }
  }

  /** The uuids that the entries supply; null is one of them. */
  function Reported(es: seq<Entry>): set<Option<string>> {
    set e | e in es && e.uuid.Given? :: e.uuid.value
  }

  lemma {:induction false} RunSees(h: Hypervisor, rows: seq<VmRow>, es: seq<Entry>, k: nat)
    requires k <= |es|
    ensures Run(h, rows, es, k).seen == Reported(es[..k])
  {
    if k == 0 {
    } else {
      RunSees(h, rows, es, k - 1);
      assert es[..k] == es[..k - 1] + [es[k - 1]];
    }
  }

  /** Every row is as the sync found it, or has one of the uuids seen, or has none when some were seen. */
  ghost predicate OnlySeenChanged(rows: seq<VmRow>, b: seq<VmRow>, seen: set<Option<string>>) {
    |rows| <= |b|
    && forall k :: 0 <= k < |b| ==>
         (k < |rows| && b[k] == rows[k]) || (b[k].uuid == None && seen != {}) || b[k].uuid in seen
  }

  lemma TouchChangesSeen(h: Hypervisor, rows: seq<VmRow>, t: Table, seen: set<Option<string>>, k: nat, reattach: bool, e: Entry)
    requires k < |t.cur| && e.uuid.Given? && OnlySeenChanged(rows, t.cur, seen) && AllKept(h, t.flushed, t.cur)
    requires t.flushed[k].uuid == e.uuid.value || t.flushed[k].uuid == None
    requires OnlySeenChanged(rows, t.flushed, seen) && AllKept(h, rows, t.flushed)
    ensures OnlySeenChanged(rows, Touch(h, t, k, reattach, e).cur, seen + {e.uuid.value})
  {
    var after := Touch(h, t, k, reattach, e).cur;
    assert forall j :: 0 <= j < |after| && j != k ==> after[j] == t.cur[j];
    assert Keeps(h, t.flushed[k], t.cur[k]);
    assert k < |rows| ==> Keeps(h, rows[k], t.flushed[k]);
    assert after[k].uuid == t.cur[k].uuid || after[k].uuid == e.uuid.value;
  }

  lemma InsertChangesSeen(h: Hypervisor, rows: seq<VmRow>, t: Table, seen: set<Option<string>>, e: Entry)
    requires OnlySeenChanged(rows, t.cur, seen) && e.uuid.Given? && e.name.Given? && e.sourceName.Given?
    ensures OnlySeenChanged(rows, Insert(h, t, e).cur, seen + {e.uuid.value})
  {
    var after := Insert(h, t, e).cur;
    assert forall j :: 0 <= j < |t.cur| ==> after[j] == t.cur[j];
  }

  lemma SeenGrows(rows: seq<VmRow>, b: seq<VmRow>, seen: set<Option<string>>, more: set<Option<string>>)
    requires OnlySeenChanged(rows, b, seen)
    ensures OnlySeenChanged(rows, b, seen + more)
  {
  }

  lemma WriteChangesSeen(h: Hypervisor, rows: seq<VmRow>, t: Table, seen: set<Option<string>>, e: Entry, m: Match)
    requires Follows(h, rows, t) && OnlySeenChanged(rows, t.flushed, seen) && OnlySeenChanged(rows, t.cur, seen)
    requires e.uuid.Given? && Fits(h, t.flushed, e, m)
    ensures var after := Write(h, t, e, m);
            OnlySeenChanged(rows, after.flushed, seen + {e.uuid.value})
            && OnlySeenChanged(rows, after.cur, seen + {e.uuid.value})
  {
    SeenGrows(rows, t.flushed, seen, {e.uuid.value});
    SeenGrows(rows, t.cur, seen, {e.uuid.value});
    match m
    case Here(k) => TouchChangesSeen(h, rows, t, seen, k, false, e);
    case Elsewhere(k) => TouchChangesSeen(h, rows, t, seen, k, true, e);
    case Legacy(k) => TouchChangesSeen(h, rows, t, seen, k, false, e);
    case NoRow => if e.sourceName.Given? { InsertChangesSeen(h, rows, t, seen, e); }
    case NoName =>
  }

  lemma EntryChangesSeen(h: Hypervisor, rows: seq<VmRow>, t: Table, seen: set<Option<string>>, e: Entry)
    requires Follows(h, rows, t) && OnlySeenChanged(rows, t.flushed, seen) && OnlySeenChanged(rows, t.cur, seen)
    ensures var after := TableAfter(h, t, e);
            OnlySeenChanged(rows, after.flushed, seen + UuidOf(e)) && OnlySeenChanged(rows, after.cur, seen + UuidOf(e))
  {
    if e.uuid.Given? {
      WriteChangesSeen(h, rows, t, seen, e, Find(h, t.flushed, e));
    } else {
      SeenGrows(rows, t.flushed, seen, {});
      SeenGrows(rows, t.cur, seen, {});
    }
  }

  ghost predicate OnlySeenWritten(h: Hypervisor, rows: seq<VmRow>, p: Progress) {
    Follows(h, rows, p.table)
    && OnlySeenChanged(rows, p.table.flushed, p.seen) && OnlySeenChanged(rows, p.table.cur, p.seen)
  }

  lemma NextWritesSeen(h: Hypervisor, rows: seq<VmRow>, p: Progress, e: Entry)
    requires OnlySeenWritten(h, rows, p)
    ensures OnlySeenWritten(h, rows, Next(h, p, e))
  {
    EntryFollows(h, rows, p.table, e);
    EntryChangesSeen(h, rows, p.table, p.seen, e);
  }

  lemma RunChangesSeen(h: Hypervisor, rows: seq<VmRow>, es: seq<Entry>, k: nat)
    requires k <= |es|
    ensures OnlySeenWritten(h, rows, Run(h, rows, es, k))
  {
    var holds := (n: nat, p: Progress) => OnlySeenWritten(h, rows, p);
    forall n: nat, p | n < k && holds(n, p) ensures holds(n + 1, Next(h, p, es[n])) {
      NextWritesSeen(h, rows, p, es[n]);
    }
    RunInduct(h, rows, es, 0, k, holds);
  }

  /** A machine that was on this hypervisor, neither archived nor protected, is archived exactly when no
      entry supplied a uuid at all, or when its own uuid is known, was not reported, and no entry
      reported a null uuid. So a row without a uuid is archived only when nothing was reported. */
  lemma ArchivedExactly(h: Hypervisor, rows: seq<VmRow>, es: seq<Entry>, k: nat)
    requires k < |rows| && On(h, rows[k]) && rows[k].status != Archived && !Protected(rows[k].status)
    ensures k < |Synced(h, rows, es)|
    ensures Synced(h, rows, es)[k].status == Archived <==>
            Reported(es) == {} || (rows[k].uuid.Some? && rows[k].uuid !in Reported(es) && None !in Reported(es))
  {
    var p := Run(h, rows, es, |es|);
    assert es[..|es|] == es;
    RunSees(h, rows, es, |es|);
    RunFollows(h, rows, es, |es|);
    RunChangesSeen(h, rows, es, |es|);
    assert Keeps(h, rows[k], p.table.flushed[k]) && Keeps(h, p.table.flushed[k], p.table.cur[k]);
  }

  /** `archived_vms` counts exactly the rows that were not archived before the sync and are after it. */
  lemma ArchivedAreThoseThatBecameSo(h: Hypervisor, rows: seq<VmRow>, es: seq<Entry>)
    ensures |rows| <= |Synced(h, rows, es)|
    ensures forall k :: k in ArchivedBy(h, rows, es) <==>
              0 <= k < |rows| && rows[k].status != Archived && Synced(h, rows, es)[k].status == Archived
  {
    var p := Run(h, rows, es, |es|);
    RunFollows(h, rows, es, |es|);
    RunChangesSeen(h, rows, es, |es|);
    forall k: nat
      ensures k in ArchivedBy(h, rows, es) <==>
              k < |rows| && rows[k].status != Archived && Synced(h, rows, es)[k].status == Archived
    {
      if k < |p.table.cur| {
        assert Keeps(h, p.table.flushed[k], p.table.cur[k]);
        assert k < |rows| ==> Keeps(h, rows[k], p.table.flushed[k]);
      }
    }
  }

  // ----- The statistics ------------------------------------------------------------------

  function Total(s: Stats): int { s.newVms + s.updatedVms + s.unchangedVms + s.errors }

  lemma TotalAfter(h: Hypervisor, p: Progress, e: Entry)
    ensures Total(Next(h, p, e).stats) == Total(p.stats) + (if OutcomeOf(h, p.table, e) == UpdatedThenError then 2 else 1)
    ensures Next(h, p, e).stats.unchangedVms == p.stats.unchangedVms
    ensures e.name.Given? ==> OutcomeOf(h, p.table, e) != UpdatedThenError
    ensures Complete(e) ==> Next(h, p, e).stats.errors == p.stats.errors
  {
  }

  /** All the keys an entry must have. */
  predicate Complete(e: Entry) { e.uuid.Given? && e.name.Given? && e.sourceName.Given? }

  predicate Balanced(s: Stats, entries: nat, nameless: nat) {
    s.unchangedVms == 0 && Total(s) == entries + nameless
  }

  lemma BalancedNext(h: Hypervisor, p: Progress, e: Entry, entries: nat)
    requires Balanced(p.stats, entries, p.twice)
    ensures Balanced(Next(h, p, e).stats, entries + 1, Next(h, p, e).twice)
  {
  }

  /** The counts add up to the number of entries, except that an entry matched by uuid without a name
      is counted twice. Nothing is ever counted as unchanged. */
  lemma {:induction false} CountsAddUp(h: Hypervisor, rows: seq<VmRow>, es: seq<Entry>, k: nat)
    requires k <= |es|
    ensures Balanced(Run(h, rows, es, k).stats, k, Run(h, rows, es, k).twice)
  {
    var holds := (n: nat, p: Progress) => Balanced(p.stats, n, p.twice);
    forall n: nat, p | n < k && holds(n, p) ensures holds(n + 1, Next(h, p, es[n])) {
      BalancedNext(h, p, es[n], n);
    }
    RunInduct(h, rows, es, 0, k, holds);
  }

  lemma EntryAddsRows(h: Hypervisor, t: Table, e: Entry)
    ensures |TableAfter(h, t, e).cur| == |t.cur| + (if OutcomeOf(h, t, e) == Inserted then 1 else 0)
  {
  }

  /** Every insert adds one row and nothing else does. */
  lemma {:induction false} NewRowsAreCounted(h: Hypervisor, rows: seq<VmRow>, es: seq<Entry>, k: nat)
    requires k <= |es|
    ensures |Run(h, rows, es, k).table.cur| == |rows| + Run(h, rows, es, k).stats.newVms
  {
    var holds := (n: nat, p: Progress) => |p.table.cur| == |rows| + p.stats.newVms;
    forall n: nat, p | n < k && holds(n, p) ensures holds(n + 1, Next(h, p, es[n])) {
      EntryAddsRows(h, p.table, es[n]);
    }
    RunInduct(h, rows, es, 0, k, holds);
  }

  predicate AllComplete(es: seq<Entry>) { forall e :: e in es ==> Complete(e) }

  predicate Summed(es: seq<Entry>, n: nat, s: Stats) { Total(s) == n && (AllComplete(es) ==> s.errors == 0) }

  lemma NextSummed(h: Hypervisor, p: Progress, es: seq<Entry>, n: nat)
    requires n < |es| && es[n].name.Given? && Summed(es, n, p.stats)
    ensures Summed(es, n + 1, Next(h, p, es[n]).stats)
  {
    assert es[n] in es;
    TotalAfter(h, p, es[n]);
  }

  /** With every name there, the four counts sum to the number of entries; with every required key
      there, no entry is an error. */
  lemma NamedCountsAddUp(h: Hypervisor, rows: seq<VmRow>, es: seq<Entry>, k: nat)
    requires k <= |es| && forall e :: e in es ==> e.name.Given?
    ensures Summed(es, k, Run(h, rows, es, k).stats)
  {
    var holds := (n: nat, p: Progress) => Summed(es, n, p.stats);
    forall n: nat, p | n < k && holds(n, p) ensures holds(n + 1, Next(h, p, es[n])) {
      NextSummed(h, p, es, n);
    }
    RunInduct(h, rows, es, 0, k, holds);
  }

  // ----- Which entries are counted twice -------------------------------------------------

  /** Every entry reports a uuid of its own. */
  predicate OwnUuids(es: seq<Entry>) {
    (forall k :: 0 <= k < |es| ==> es[k].uuid.Given? && es[k].uuid.value.Some?)
    && forall j, k :: 0 <= j < k < |es| ==> es[j].uuid != es[k].uuid
  }

  /** The uuid is in the tenant or on the hypervisor. */
  predicate Known(h: Hypervisor, rows: seq<VmRow>, uuid: Option<string>) {
    exists i :: 0 <= i < |rows| && (On(h, rows[i]) || rows[i].tenant == h.tenant) && rows[i].uuid == uuid
  }

  lemma FoundIffKnown(h: Hypervisor, rows: seq<VmRow>, e: Entry)
    requires e.uuid.Given?
    ensures Find(h, rows, e).Here? || Find(h, rows, e).Elsewhere? <==> Known(h, rows, e.uuid.value)
  {
    if Known(h, rows, e.uuid.value) {
      var i :| 0 <= i < |rows| && (On(h, rows[i]) || rows[i].tenant == h.tenant) && rows[i].uuid == e.uuid.value;
      assert Selects(h, UuidHere(e.uuid.value), rows[i]) || Selects(h, UuidInTenant(e.uuid.value), rows[i]);
    }
  }

  /** A uuid that is not null and was not seen in this run is known to the queries exactly if it was
      known when the run began. */
  lemma KnownFromTheStart(h: Hypervisor, rows: seq<VmRow>, b: seq<VmRow>, seen: set<Option<string>>, uuid: Option<string>)
    requires AllKept(h, rows, b) && OnlySeenChanged(rows, b, seen) && uuid.Some? && uuid !in seen
    ensures Known(h, b, uuid) <==> Known(h, rows, uuid)
  {
    if Known(h, rows, uuid) {
      var i :| 0 <= i < |rows| && (On(h, rows[i]) || rows[i].tenant == h.tenant) && rows[i].uuid == uuid;
      assert Keeps(h, rows[i], b[i]);
    }
    if Known(h, b, uuid) {
      var i :| 0 <= i < |b| && (On(h, b[i]) || b[i].tenant == h.tenant) && b[i].uuid == uuid;
      assert i < |rows| && b[i] == rows[i];
    }
  }

  /** An entry is counted twice exactly if its name is missing and its uuid was known before the sync. */
  lemma CountedTwiceIff(h: Hypervisor, rows: seq<VmRow>, es: seq<Entry>, k: nat)
    requires OwnUuids(es) && k < |es|
    ensures OutcomeOf(h, Run(h, rows, es, k).table, es[k]) == UpdatedThenError
            <==> es[k].name.Missing? && Known(h, rows, es[k].uuid.value)
  {
    var p := Run(h, rows, es, k);
    RunFollows(h, rows, es, k);
    RunChangesSeen(h, rows, es, k);
    RunSees(h, rows, es, k);
    KnownFromTheStart(h, rows, p.table.flushed, p.seen, es[k].uuid.value);
    FoundIffKnown(h, p.table.flushed, es[k]);
  }

  /** The nameless entries among the first `k` whose uuid is known. */
  function NamelessKnown(h: Hypervisor, rows: seq<VmRow>, es: seq<Entry>, k: nat): nat
    requires k <= |es| && OwnUuids(es)
  {
    if k == 0 then 0
    else NamelessKnown(h, rows, es, k - 1) + (if es[k - 1].name.Missing? && Known(h, rows, es[k - 1].uuid.value) then 1 else 0)
  }

  predicate TwiceIsKnown(h: Hypervisor, rows: seq<VmRow>, es: seq<Entry>, k: nat)
    requires k <= |es| && OwnUuids(es)
  {
    Run(h, rows, es, k).twice == NamelessKnown(h, rows, es, k)
  }

  lemma TwiceStep(h: Hypervisor, rows: seq<VmRow>, es: seq<Entry>, k: nat)
    requires k < |es| && OwnUuids(es) && TwiceIsKnown(h, rows, es, k)
    ensures TwiceIsKnown(h, rows, es, k + 1)
  {
    CountedTwiceIff(h, rows, es, k);
    assert Run(h, rows, es, k + 1) == Next(h, Run(h, rows, es, k), es[k]);
  }

  lemma TwiceIsNamelessKnown(h: Hypervisor, rows: seq<VmRow>, es: seq<Entry>, k: nat)
    requires k <= |es| && OwnUuids(es)
    ensures TwiceIsKnown(h, rows, es, k)
  {
    for n := 0 to k
      invariant TwiceIsKnown(h, rows, es, n)
    {
      TwiceStep(h, rows, es, n);
    }
  }

  /** The sum of the counts, from the table and the entries alone. */
  lemma CountsFromInputs(h: Hypervisor, rows: seq<VmRow>, es: seq<Entry>)
    requires OwnUuids(es)
    ensures Balanced(Run(h, rows, es, |es|).stats, |es|, NamelessKnown(h, rows, es, |es|))
  {
    CountsAddUp(h, rows, es, |es|);
    TwiceIsNamelessKnown(h, rows, es, |es|);
  }
}
