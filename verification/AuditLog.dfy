/** Any number of database transactions writing audit events at the same time. Every statement sees the
    rows committed so far and the transaction's own rows (READ COMMITTED); `SELECT ... FOR UPDATE` on the parent migration is
    one lock per migration, held to the end of the transaction or dropped by a rollback to a
    savepoint set before it was taken. */
module AuditLog {
  import opened Options
  import opened CanonicalJson
  import opened AuditChain

  /** The arguments of `record_event` besides the migration id. */
  datatype Body = Body(
    tenantId: string,
    eventType: EventType,
    fromStatus: Option<string>,
    toStatus: Option<string>,
    actorId: Option<int>,
    actorType: string,
    message: Option<string>,
    payload: Option<map<string, Json>>)

  const ACTOR_TYPES := {"worker", "user", "system"}

  function MakeEvent(mid: int, seqId: int, b: Body): Event {
    Event(mid, b.tenantId, seqId, b.eventType, b.fromStatus, b.toStatus, b.actorId, b.actorType, b.message, b.payload)
  }

  // ----- Queries -------------------------------------------------------------------------

  /** `WHERE migration_id = mid`, in storage order. */
  function Of(rows: seq<Row>, mid: int): seq<Row> {
    if rows == [] then []
    else
      var last := rows[|rows| - 1];
      Of(rows[..|rows| - 1], mid) + (if last.event.migrationId == mid then [last] else [])
  }

  function InsertBySeq(rows: seq<Row>, r: Row): seq<Row> {
    if rows == [] || rows[|rows| - 1].event.sequenceId <= r.event.sequenceId then rows + [r]
    else InsertBySeq(rows[..|rows| - 1], r) + [rows[|rows| - 1]]
  }

  /** `ORDER BY sequence_id ASC`. */
  function InOrder(rows: seq<Row>): seq<Row> {
    if rows == [] then [] else InsertBySeq(InOrder(rows[..|rows| - 1]), rows[|rows| - 1])
  }

  /** `coalesce(max(sequence_id), 0)`. */
  function MaxSequenceId(rows: seq<Row>): int {
    if rows == [] then 0
    else
      var last := rows[|rows| - 1].event.sequenceId;
      if |rows| == 1 then last
      else
        var before := MaxSequenceId(rows[..|rows| - 1]);
        if before < last then last else before
  }

  function NextSequenceId(rows: seq<Row>, mid: int): int { MaxSequenceId(Of(rows, mid)) + 1 }

  /** The hash of the row with the highest sequence id, or the genesis. */
  function PreviousRowHash(rows: seq<Row>, mid: int): string { LastHash(InOrder(Of(rows, mid))) }

  lemma DropLastConcat<T>(a: seq<T>, b: seq<T>)
    requires b != []
    ensures (a + b)[..|a + b| - 1] == a + b[..|b| - 1] && (a + b)[|a + b| - 1] == b[|b| - 1]
  {
  }

  lemma {:induction false} OfConcat(a: seq<Row>, b: seq<Row>, mid: int)
    ensures Of(a + b, mid) == Of(a, mid) + Of(b, mid)
  {
    if b == [] {
      assert a + b == a;
    } else {
      OfConcat(a, b[..|b| - 1], mid);
      DropLastConcat(a, b);
    }
  }

  lemma {:induction false} OfNone(rows: seq<Row>, mid: int)
    requires forall i :: 0 <= i < |rows| ==> rows[i].event.migrationId != mid
    ensures Of(rows, mid) == []
  {
    if rows == [] {
    } else {
      OfNone(rows[..|rows| - 1], mid);
    }
  }

  /** The query selects exactly the migration's rows. */
  lemma {:induction false} OfMeans(rows: seq<Row>, mid: int, x: Row)
    ensures x in Of(rows, mid) <==> x in rows && x.event.migrationId == mid
  {
    if rows == [] {
    } else {
      OfMeans(rows[..|rows| - 1], mid, x);
      assert rows == rows[..|rows| - 1] + [rows[|rows| - 1]];
    }
  }

  // ----- Well-formed logs ----------------------------------------------------------------

  /** The rows of one migration are numbered 1..n, carry the migration's id, and verify. Legacy rows
      without a hash may be among them. */
  ghost predicate Log(c: Chain, mid: int, rows: seq<Row>) {
    (forall i :: 0 <= i < |rows| ==> rows[i].event.sequenceId == i + 1 && rows[i].event.migrationId == mid)
    && Verified(c, rows)
  }

  /** What `record_event` guarantees of a row it writes. */
  predicate Written(r: Row) { r.rowHash.Some? && r.event.actorType in ACTOR_TYPES }

  predicate AllWritten(rows: seq<Row>) {
    forall i :: 0 <= i < |rows| ==> Written(rows[i])
  }

  lemma LogPrefix(c: Chain, mid: int, rows: seq<Row>, k: nat)
    requires Log(c, mid, rows) && k <= |rows|
    ensures Log(c, mid, rows[..k])
  {
    PrefixVerified(c, rows, k);
  }

  ghost predicate Numbered1ToN(rows: seq<Row>) {
    forall i :: 0 <= i < |rows| ==> rows[i].event.sequenceId == i + 1
  }

  lemma {:induction false} NumberedInOrder(rows: seq<Row>)
    requires Numbered1ToN(rows)
    ensures InOrder(rows) == rows && MaxSequenceId(rows) == |rows|
  {
    if rows == [] {
    } else {
      NumberedInOrder(rows[..|rows| - 1]);
      assert rows == rows[..|rows| - 1] + [rows[|rows| - 1]];
    }
  }

  lemma LogGrows(c: Chain, mid: int, rows: seq<Row>, b: Body)
    requires Log(c, mid, rows)
    ensures Log(c, mid, rows + [Sealed(c, rows, MakeEvent(mid, |rows| + 1, b))])
  {
    AppendVerified(c, rows, MakeEvent(mid, |rows| + 1, b));
  }

  // ----- Transactions --------------------------------------------------------------------

  /** How far the `record_event` call of a transaction has come. */
  datatype Emit =
    | Idle
    | Locked(mid: int, body: Body)
    | Numbered(mid: int, body: Body, seqId: int)
    | Linked(mid: int, body: Body, seqId: int, prev: string)

  /** What a rollback to the savepoint restores. */
  datatype Savepoint = Savepoint(rows: nat, held: set<int>)

  datatype Txn = Txn(pending: seq<Row>, emit: Emit, held: set<int>, savepoints: seq<Savepoint>)

  datatype State = State(table: seq<Row>, txns: map<nat, Txn>)

  /** Nothing is running yet. */
  function Quiet(table: seq<Row>): State { State(table, map[]) }

  /** A statement that concerns the transaction alone. */
  datatype Local = ReadMax | ReadHash | Insert | SetSavepoint | ReleaseSavepoint | RollbackToSavepoint

  datatype Action =
    | Begin(t: nat)
    | Lock(t: nat, mid: int, body: Body)
    | Do(t: nat, local: Local)
    | Commit(t: nat)
    | Abort(t: nat)

  function DoLocal(c: Chain, table: seq<Row>, x: Txn, a: Local): Txn {
    var visible := table + x.pending;
    match a
    case ReadMax =>
      if x.emit.Locked? then x.(emit := Numbered(x.emit.mid, x.emit.body, NextSequenceId(visible, x.emit.mid))) else x
    case ReadHash =>
      if x.emit.Numbered?
      then x.(emit := Linked(x.emit.mid, x.emit.body, x.emit.seqId, PreviousRowHash(visible, x.emit.mid)))
      else x
    case Insert =>
      if x.emit.Linked? then
        var e := MakeEvent(x.emit.mid, x.emit.seqId, x.emit.body);
        x.(pending := x.pending + [Row(e, Some(RowHash(c, x.emit.prev, e)))], emit := Idle)
      else x
    case SetSavepoint =>
      if x.emit.Idle? then x.(savepoints := x.savepoints + [Savepoint(|x.pending|, x.held)]) else x
    case ReleaseSavepoint =>
      if x.emit.Idle? && x.savepoints != [] then x.(savepoints := x.savepoints[..|x.savepoints| - 1]) else x
    case RollbackToSavepoint =>
      if x.savepoints == [] then x
      else
        var p := x.savepoints[|x.savepoints| - 1];
        Txn(if p.rows <= |x.pending| then x.pending[..p.rows] else x.pending, Idle, p.held,
            x.savepoints[..|x.savepoints| - 1])
  }

  /** No other transaction holds the lock on migration `mid`. */
  predicate Free(s: State, t: nat, mid: int) {
    forall u :: u in s.txns && u != t ==> mid !in s.txns[u].held
  }

  /** One statement of one transaction. A statement that cannot run now changes nothing: a lock
      request waits, and gives up through `Abort` or `RollbackToSavepoint`. */
  function Step(c: Chain, s: State, a: Action): State {
    match a
    case Begin(t) => if t in s.txns then s else s.(txns := s.txns[t := Txn([], Idle, {}, [])])
    case Lock(t, mid, body) =>
      if t in s.txns && s.txns[t].emit.Idle? && body.actorType in ACTOR_TYPES && Free(s, t, mid)
      then s.(txns := s.txns[t := s.txns[t].(emit := Locked(mid, body), held := s.txns[t].held + {mid})])
      else s
    case Do(t, l) => if t in s.txns then s.(txns := s.txns[t := DoLocal(c, s.table, s.txns[t], l)]) else s
    case Commit(t) =>
      if t in s.txns && s.txns[t].emit.Idle?
      then State(s.table + s.txns[t].pending, s.txns - {t})
      else s
    case Abort(t) => s.(txns := s.txns - {t})
  }

  function Run(c: Chain, s: State, acts: seq<Action>): State {
    if acts == [] then s else Step(c, Run(c, s, acts[..|acts| - 1]), acts[|acts| - 1])
  }

  // ----- The invariant -------------------------------------------------------------------

  ghost predicate EmitOk(table: seq<Row>, x: Txn) {
    !x.emit.Idle? ==>
      var rows := Of(table + x.pending, x.emit.mid);
      x.emit.mid in x.held && x.emit.body.actorType in ACTOR_TYPES
      && (!x.emit.Locked? ==> x.emit.seqId == |rows| + 1)
      && (x.emit.Linked? ==> x.emit.prev == LastHash(rows))
  }

  ghost predicate SavepointsOk(x: Txn) {
    (forall k :: 0 <= k < |x.savepoints| ==>
      x.savepoints[k].rows <= |x.pending| && x.savepoints[k].held <= x.held
      && forall i :: 0 <= i < x.savepoints[k].rows ==> x.pending[i].event.migrationId in x.savepoints[k].held)
    && (forall j, k :: 0 <= j < k < |x.savepoints| ==>
      x.savepoints[j].rows <= x.savepoints[k].rows && x.savepoints[j].held <= x.savepoints[k].held)
  }

  ghost predicate PendingHeld(x: Txn) {
    forall i :: 0 <= i < |x.pending| ==> x.pending[i].event.migrationId in x.held
  }

  ghost predicate LogsOk(c: Chain, rows: seq<Row>) {
    forall mid :: Log(c, mid, Of(rows, mid))
  }

  /** What a transaction sees is well formed, and it holds the lock of every migration it wrote to. */
  ghost predicate TxnOk(c: Chain, table: seq<Row>, x: Txn) {
    LogsOk(c, table + x.pending) && AllWritten(x.pending) && PendingHeld(x) && EmitOk(table, x) && SavepointsOk(x)
  }

  ghost predicate Inv(c: Chain, s: State) {
    LogsOk(c, s.table)
    && (forall t :: t in s.txns ==> TxnOk(c, s.table, s.txns[t]))
    && (forall t, u :: t in s.txns && u in s.txns && t != u ==> s.txns[t].held !! s.txns[u].held)
  }

  lemma QueriesSeeTheEnd(c: Chain, rows: seq<Row>, mid: int)
    requires LogsOk(c, rows)
    ensures InOrder(Of(rows, mid)) == Of(rows, mid)
    ensures NextSequenceId(rows, mid) == |Of(rows, mid)| + 1
    ensures PreviousRowHash(rows, mid) == LastHash(Of(rows, mid))
  {
    assert Log(c, mid, Of(rows, mid));
    NumberedInOrder(Of(rows, mid));
  }

  lemma PrefixLogsOk(c: Chain, a: seq<Row>, b: seq<Row>)
    requires LogsOk(c, a + b)
    ensures LogsOk(c, a)
  {
    forall mid ensures Log(c, mid, Of(a, mid)) {
      OfConcat(a, b, mid);
      assert Log(c, mid, Of(a + b, mid));
      LogPrefix(c, mid, Of(a + b, mid), |Of(a, mid)|);
      assert Of(a + b, mid)[..|Of(a, mid)|] == Of(a, mid);
    }
  }

  lemma RowAppended(c: Chain, visible: seq<Row>, at: int, b: Body)
    requires LogsOk(c, visible)
    ensures LogsOk(c, visible + [Sealed(c, Of(visible, at), MakeEvent(at, |Of(visible, at)| + 1, b))])
  {
    var row := Sealed(c, Of(visible, at), MakeEvent(at, |Of(visible, at)| + 1, b));
    forall mid ensures Log(c, mid, Of(visible + [row], mid)) {
      assert Log(c, mid, Of(visible, mid));
      OfConcat(visible, [row], mid);
      assert [row][..0] == [];
      if mid == at {
        LogGrows(c, mid, Of(visible, mid), b);
        assert Of(visible + [row], mid) == Of(visible, mid) + [row];
      } else {
        assert Of(visible + [row], mid) == Of(visible, mid);
      }
    }
  }

  lemma InsertOk(c: Chain, table: seq<Row>, x: Txn)
    requires TxnOk(c, table, x) && x.emit.Linked?
    ensures TxnOk(c, table, DoLocal(c, table, x, Insert))
  {
    var y := DoLocal(c, table, x, Insert);
    RowAppended(c, table + x.pending, x.emit.mid, x.emit.body);
    assert table + y.pending == table + x.pending + [y.pending[|x.pending|]];
  }

  lemma RollbackOk(c: Chain, table: seq<Row>, x: Txn)
    requires TxnOk(c, table, x) && x.savepoints != []
    ensures TxnOk(c, table, DoLocal(c, table, x, RollbackToSavepoint))
  {
    var p := x.savepoints[|x.savepoints| - 1];
    assert table + x.pending == (table + x.pending[..p.rows]) + x.pending[p.rows..];
    PrefixLogsOk(c, table + x.pending[..p.rows], x.pending[p.rows..]);
  }

  lemma QueryOk(c: Chain, table: seq<Row>, x: Txn, a: Local)
    requires TxnOk(c, table, x) && (a.ReadMax? || a.ReadHash?)
    ensures TxnOk(c, table, DoLocal(c, table, x, a))
  {
    if !x.emit.Idle? { QueriesSeeTheEnd(c, table + x.pending, x.emit.mid); }
  }

  lemma SavepointOk(c: Chain, table: seq<Row>, x: Txn, a: Local)
    requires TxnOk(c, table, x) && (a.SetSavepoint? || a.ReleaseSavepoint?)
    ensures TxnOk(c, table, DoLocal(c, table, x, a))
  {
  }

  lemma LocalOk(c: Chain, table: seq<Row>, x: Txn, a: Local)
    requires TxnOk(c, table, x)
    ensures TxnOk(c, table, DoLocal(c, table, x, a))
    ensures DoLocal(c, table, x, a).held <= x.held
  {
    match a
    case RollbackToSavepoint => if x.savepoints != [] { RollbackOk(c, table, x); }
    case Insert => if x.emit.Linked? { InsertOk(c, table, x); }
    case ReadMax => QueryOk(c, table, x, a);
    case ReadHash => QueryOk(c, table, x, a);
    case _ => SavepointOk(c, table, x, a);
  }

  /** A commit elsewhere changes nothing a transaction has locked and keeps its view well formed. */
  lemma OthersCommitOk(c: Chain, table: seq<Row>, x: Txn, y: Txn)
    requires TxnOk(c, table, x) && TxnOk(c, table, y) && x.held !! y.held
    ensures TxnOk(c, table + x.pending, y)
  {
    forall mid
      ensures Log(c, mid, Of(table + x.pending + y.pending, mid))
      ensures mid in y.held ==> Of(table + x.pending + y.pending, mid) == Of(table + y.pending, mid)
    {
      OfConcat(table + x.pending, y.pending, mid);
      OfConcat(table, x.pending, mid);
      OfConcat(table, y.pending, mid);
      if mid in y.held {
        OfNone(x.pending, mid);
        assert Of(table + x.pending + y.pending, mid) == Of(table + y.pending, mid);
        assert Log(c, mid, Of(table + y.pending, mid));
      } else {
        OfNone(y.pending, mid);
        assert Of(table + x.pending + y.pending, mid) == Of(table + x.pending, mid);
        assert Log(c, mid, Of(table + x.pending, mid));
      }
    }
  }

  lemma LockOk(c: Chain, s: State, t: nat, mid: int, body: Body)
    requires Inv(c, s)
    ensures Inv(c, Step(c, s, Lock(t, mid, body)))
  {
    var s' := Step(c, s, Lock(t, mid, body));
    if s' != s {
      assert TxnOk(c, s.table, s.txns[t]);
      assert TxnOk(c, s'.table, s'.txns[t]);
    }
  }

  lemma CommitOk(c: Chain, s: State, t: nat)
    requires Inv(c, s) && t in s.txns
    ensures Inv(c, Step(c, s, Commit(t)))
  {
    var s' := Step(c, s, Commit(t));
    if s' != s {
      forall u | u in s'.txns ensures TxnOk(c, s'.table, s'.txns[u]) {
        OthersCommitOk(c, s.table, s.txns[t], s.txns[u]);
      }
    }
  }

  /** The committed table grows by rows of the code's own making, and by nothing else. */
  ghost predicate Grows(before: seq<Row>, after: seq<Row>) {
    before <= after && AllWritten(after[|before|..])
  }

  lemma GrowsOn(a: seq<Row>, b: seq<Row>, d: seq<Row>)
    requires Grows(a, b) && Grows(b, d)
    ensures Grows(a, d)
  {
    assert d[|a|..] == b[|a|..] + d[|b|..];
  }

  lemma StepKeepsInv(c: Chain, s: State, a: Action)
    requires Inv(c, s)
    ensures Inv(c, Step(c, s, a))
    ensures Grows(s.table, Step(c, s, a).table)
  {
    match a
    case Begin(t) =>
      assert s.table + [] == s.table;
    case Lock(t, mid, body) => LockOk(c, s, t, mid, body);
    case Do(t, l) =>
      if t in s.txns { LocalOk(c, s.table, s.txns[t], l); }
    case Commit(t) =>
      if t in s.txns { CommitOk(c, s, t); }
    case Abort(t) =>
  }

  lemma {:induction false} RunKeepsInv(c: Chain, s: State, acts: seq<Action>)
    requires Inv(c, s)
    ensures Inv(c, Run(c, s, acts))
    ensures Grows(s.table, Run(c, s, acts).table)
  {
    if acts == [] {
    } else {
      var before := Run(c, s, acts[..|acts| - 1]);
      RunKeepsInv(c, s, acts[..|acts| - 1]);
      StepKeepsInv(c, before, acts[|acts| - 1]);
      GrowsOn(s.table, before.table, Run(c, s, acts).table);
    }
  }

  lemma QuietInv(c: Chain, table: seq<Row>)
    requires LogsOk(c, table)
    ensures Inv(c, Quiet(table))
  {
  }

  lemma EmptyLogs(c: Chain)
    ensures LogsOk(c, [])
  {
  }

  /** The committed log of migration `mid`, as every reader gets it. */
  function CommittedLog(s: State, mid: int): seq<Row> { InOrder(Of(s.table, mid)) }

  /** Whatever table of verified logs, legacy rows included, the transactions start from and whatever
      the interleaving of any number of emitters: the committed log of every migration is numbered 1..n,
      is verified by `verify_event_chain`, is the log it started from with chained rows behind it, and a
      longer run only extends it. */
  lemma ConcurrentLogsAreIntact(c: Chain, table: seq<Row>, acts: seq<Action>, more: seq<Action>, mid: int)
    requires LogsOk(c, table)
    ensures var start, s := CommittedLog(Quiet(table), mid), Run(c, Quiet(table), acts);
            var log, later := CommittedLog(s, mid), CommittedLog(Run(c, s, more), mid);
            Numbered1ToN(log) && Verified(c, log)
            && Grows(start, log) && Grows(log, later)
  {
    QuietInv(c, table);
    RunKeepsInv(c, Quiet(table), acts);
    var s := Run(c, Quiet(table), acts);
    RunKeepsInv(c, s, more);
    CommittedLogIs(c, s, mid);
    LogExtends(c, Quiet(table), s, mid);
    LogExtends(c, s, Run(c, s, more), mid);
  }

  /** From the empty table, every row of every log is chained. */
  lemma NewLogsAreFullyChained(c: Chain, acts: seq<Action>, mid: int)
    ensures FullyChained(CommittedLog(Run(c, Quiet([]), acts), mid))
  {
    EmptyLogs(c);
    ConcurrentLogsAreIntact(c, [], acts, [], mid);
    var log := CommittedLog(Run(c, Quiet([]), acts), mid);
    assert log[0..] == log;
  }

  lemma CommittedLogIs(c: Chain, s: State, mid: int)
    requires Inv(c, s)
    ensures CommittedLog(s, mid) == Of(s.table, mid) && Log(c, mid, CommittedLog(s, mid))
  {
    QueriesSeeTheEnd(c, s.table, mid);
    assert Log(c, mid, Of(s.table, mid));
  }

  lemma {:induction false} OfWritten(rows: seq<Row>, mid: int)
    requires AllWritten(rows)
    ensures AllWritten(Of(rows, mid))
  {
    if rows == [] {
    } else {
      OfWritten(rows[..|rows| - 1], mid);
    }
  }

  lemma OfGrows(a: seq<Row>, b: seq<Row>, mid: int)
    requires Grows(a, b)
    ensures Grows(Of(a, mid), Of(b, mid))
  {
    var added := b[|a|..];
    OfConcat(a, added, mid);
    assert b == a + added;
    OfWritten(added, mid);
    assert Of(b, mid)[|Of(a, mid)|..] == Of(added, mid);
  }

  lemma LogExtends(c: Chain, s: State, later: State, mid: int)
    requires Inv(c, s) && Inv(c, later) && Grows(s.table, later.table)
    ensures Grows(CommittedLog(s, mid), CommittedLog(later, mid))
  {
    CommittedLogIs(c, s, mid);
    CommittedLogIs(c, later, mid);
    OfGrows(s.table, later.table, mid);
  }
}
