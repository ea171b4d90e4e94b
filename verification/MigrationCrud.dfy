/** Status writes of a migration together with their audit events (`crud/migration.py`,
    `services/audit_log.py`), by one writer at a time. `Session` is the imperative form: edits
    gather in a working copy until a commit or a rollback. The functions on `Db` say what each
    operation commits, and `LogReplaysToRow` says that the log always tells the row's status. */
module MigrationCrud {
  import opened Options
  import opened CanonicalJson
  import opened AuditChain
  import opened AuditLog

  datatype Status =
    | Pending | Validating | Preparing | Transferring | Configuring | Starting | Verifying
    | Completed | Failed | Cancelled | Rollback | RolledBack

  function StatusValue(s: Status): string {
    match s
    case Pending => "pending"
    case Validating => "validating"
    case Preparing => "preparing"
    case Transferring => "transferring"
    case Configuring => "configuring"
    case Starting => "starting"
    case Verifying => "verifying"
    case Completed => "completed"
    case Failed => "failed"
    case Cancelled => "cancelled"
    case Rollback => "rollback"
    case RolledBack => "rolled_back"
  }

  predicate Terminal(s: Status) { s in {Completed, Failed, Cancelled, RolledBack} }

  predicate Active(s: Status) { s in {Pending, Validating, Preparing, Transferring, Configuring, Starting, Verifying} }

  /** The columns of a `migrations` row that the privileged setters write. */
  datatype Migration = Migration(
    tenantId: string,
    status: Status,
    startedAt: Option<int>,
    completedAt: Option<int>,
    success: Option<bool>,
    errorCode: Option<string>,
    errorMessage: Option<string>)

  datatype Db = Db(migrations: map<int, Migration>, events: seq<Row>)

  const NEW := Migration("", Pending, None, None, None, None, None)

  // ----- What the operations write -------------------------------------------------------

  function NewRow(c: Chain, events: seq<Row>, mid: int, b: Body): Row {
    var e := MakeEvent(mid, NextSequenceId(events, mid), b);
    Row(e, Some(RowHash(c, PreviousRowHash(events, mid), e)))
  }

  function Recorded(c: Chain, db: Db, mid: int, b: Body): Db {
    db.(events := db.events + [NewRow(c, db.events, mid, b)])
  }

  function TransitionBody(m: Migration, from: Option<Status>, actor: string, message: Option<string>,
                          payload: Option<map<string, Json>>): Body {
    Body(m.tenantId, StateTransition, match from case None => None case Some(s) => Some(StatusValue(s)),
         Some(StatusValue(m.status)), None, actor, message, payload)
  }

  /** `""` counts as missing, as in Python's `or`. */
  function Or(o: Option<string>, default: string): string {
    if o.Some? && o.value != "" then o.value else default
  }

  function ErrorBody(m: Migration): Body {
    Body(m.tenantId, ClassifiedError, None, Some(StatusValue(m.status)), None, "worker",
         Some(Or(m.errorMessage, "Migration failed")),
         Some(map["error_code" := Str(Or(m.errorCode, "ERR_MIG_INTERNAL"))]))
  }

  /** Stage events and heartbeats repeat the current status. */
  function NoteBody(m: Migration, kind: EventType, message: Option<string>): Body {
    Body(m.tenantId, kind, None, Some(StatusValue(m.status)), None, "worker", message, None)
  }

  function StatusEvent(from: Status, m: Migration): Body {
    if m.status == Failed then ErrorBody(m)
    else
      TransitionBody(m, Some(from), "worker", m.errorMessage,
                     if m.errorCode.Some? && m.errorCode.value != ""
                     then Some(map["error_code" := Str(m.errorCode.value)]) else None)
  }

  /** The row after a status write at time `now`. */
  function WithStatus(m: Migration, status: Status, now: int): Migration {
    var started := m.(status := status,
                      startedAt := if status == Validating && m.startedAt.None? then Some(now) else m.startedAt);
    if Terminal(status) then started.(completedAt := Some(now), success := Some(status == Completed)) else started
  }

  function StatusSet(c: Chain, db: Db, mid: int, status: Status, now: int): Db
    requires mid in db.migrations
  {
    var before := db.migrations[mid];
    var m := WithStatus(before, status, now);
    var written := db.(migrations := db.migrations[mid := m]);
    if before.status == status then written else Recorded(c, written, mid, StatusEvent(before.status, m))
  }

  function Created(c: Chain, db: Db, mid: int, tenantId: string): Db {
    var m := NEW.(tenantId := tenantId);
    Recorded(c, db.(migrations := db.migrations[mid := m]), mid,
             TransitionBody(m, None, "system", Some("Migration created"), None))
  }

  function Stamped(db: Db, mid: int, code: string, message: string): Db
    requires mid in db.migrations
  {
    db.(migrations := db.migrations[mid := db.migrations[mid].(errorCode := Some(code), errorMessage := Some(message))])
  }

  /** The foreign key `ON DELETE NO ACTION` refuses the delete while events refer to the row. */
  predicate HasEvents(db: Db, mid: int) { Of(db.events, mid) != [] }

  // ----- The session ---------------------------------------------------------------------

  datatype Result = Done | NotFound | Raised

  datatype DeleteResult = Deleted | Missing | RefusedActive | RefusedAuditTrail

  class Session {
    const c: Chain
    var committed: Db
    var working: Db

    constructor (c: Chain, db: Db)
      ensures this.c == c && committed == working == db
    {
      this.c, committed, working := c, db, db;
    }

    method Commit()
      modifies this
      ensures committed == working == old(working)
    {
      committed := working;
    }

    method Rollback()
      modifies this
      ensures committed == working == old(committed)
    {
      working := committed;
    }

    /** `record_event(commit=False)`. `answers` is false when the database raises, for instance on
        the lock timeout. */
    method RecordEvent(mid: int, b: Body, answers: bool) returns (r: Result)
      modifies this`working
      ensures r == if b.actorType in {"worker", "user", "system"} && answers then Done else Raised
      ensures working == if r == Done then Recorded(c, old(working), mid, b) else old(working)
    {
      if b.actorType !in ACTOR_TYPES { return Raised; }
      if !answers { return Raised; }
      var sequenceId := NextSequenceId(working.events, mid);
      var prevHash := PreviousRowHash(working.events, mid);
      var e := MakeEvent(mid, sequenceId, b);
      working := working.(events := working.events + [Row(e, Some(RowHash(c, prevHash, e)))]);
      return Done;
    }

    method CreateMigration(mid: int, tenantId: string, answers: bool) returns (r: Result)
      requires mid !in working.migrations
      modifies this
      ensures r == if answers then Done else Raised
      ensures r == Done ==> committed == working == Created(c, old(working), mid, tenantId)
      ensures r == Raised ==> committed == old(committed)
    {
      var m := NEW.(tenantId := tenantId);
      working := working.(migrations := working.migrations[mid := m]);
      r := RecordEvent(mid, TransitionBody(m, None, "system", Some("Migration created"), None), answers);
      if r == Done { Commit(); }
    }

    method SetMigrationStatus(mid: int, status: Status, now: int, answers: bool) returns (r: Result)
      modifies this
      ensures r == if mid !in old(working).migrations then NotFound
                   else if answers || old(working).migrations[mid].status == status then Done else Raised
      ensures r == Done ==> committed == working == StatusSet(c, old(working), mid, status, now)
      ensures r != Done ==> committed == old(committed)
      ensures r == NotFound ==> working == old(working)
    {
      if mid !in working.migrations { return NotFound; }
      var migration := working.migrations[mid];
      var oldStatus := migration.status;
      migration := migration.(status := status);
      if status == Validating && migration.startedAt.None? {
        migration := migration.(startedAt := Some(now));
      }
      if Terminal(status) {
        migration := migration.(completedAt := Some(now), success := Some(status == Completed));
      }
      working := working.(migrations := working.migrations[mid := migration]);
      if oldStatus != status {
        r := RecordEvent(mid, StatusEvent(oldStatus, migration), answers);
        if r == Raised { return; }
      }
      Commit();
      r := Done;
    }

    method FailMigration(mid: int, code: string, message: string) returns (r: Result)
      modifies this
      ensures r == if mid in old(working).migrations then Done else NotFound
      ensures r == Done ==> committed == working == Stamped(old(working), mid, code, message)
      ensures r == NotFound ==> committed == old(committed) && working == old(working)
    {
      if mid !in working.migrations { return NotFound; }
      working := Stamped(working, mid, code, message);
      Commit();
      r := Done;
    }

    /** `safe_emit_stage_event` and `safe_emit_heartbeat`: the write runs in a savepoint; then the
        outer transaction is committed, or, after an error, rolled back as a whole. */
    method SafeEmit(mid: int, kind: EventType, message: Option<string>, answers: bool, commits: bool) returns (r: Result)
      requires mid in working.migrations
      modifies this
      ensures r == if answers && commits then Done else Raised
      ensures r == Done ==>
        committed == working == Recorded(c, old(working), mid, NoteBody(old(working).migrations[mid], kind, message))
      ensures r == Raised ==> committed == working == old(committed)
    {
      var savepoint := working;
      r := RecordEvent(mid, NoteBody(working.migrations[mid], kind, message), answers);
      if r == Raised {
        working := savepoint;
        Rollback();
      } else if commits {
        Commit();
      } else {
        Rollback();
        r := Raised;
      }
    }

    method DeleteMigration(mid: int) returns (r: DeleteResult)
      requires working == committed
      modifies this
      ensures r == if mid !in old(working).migrations then Missing
                   else if old(working).migrations[mid].status
                           in {Pending, Validating, Preparing, Transferring, Configuring, Starting, Verifying} then RefusedActive
                   else if HasEvents(old(working), mid) then RefusedAuditTrail else Deleted
      ensures committed == working
      ensures committed == if r == Deleted then old(committed).(migrations := old(committed).migrations - {mid}) else old(committed)
    {
      if mid !in working.migrations { return Missing; }
      if Active(working.migrations[mid].status) { return RefusedActive; }
      working := working.(migrations := working.migrations - {mid});
      if HasEvents(working, mid) {
        Rollback();
        return RefusedAuditTrail;
      }
      Commit();
      return Deleted;
    }

    /** One operation of a run, on a clean session that is closed after an error. */
    method Perform(op: Op)
      requires working == committed
      modifies this
      ensures committed == working == Apply(c, old(committed), op)
    {
      match op {
        case Create(mid, tenantId, answers) =>
          if mid in working.migrations { return; }
          var r := CreateMigration(mid, tenantId, answers);
        case SetStatus(mid, status, now, answers) => var r := SetMigrationStatus(mid, status, now, answers);
        case Stamp(mid, code, message) => var r := FailMigration(mid, code, message);
        case Note(mid, kind, text, answers) =>
          if mid !in working.migrations { return; }
          var r := SafeEmit(mid, kind, text, answers, true);
        case Delete(mid) => var r := DeleteMigration(mid);
        case UndoStart(mid) =>
          if mid !in working.migrations { return; }
          working := working.(migrations := working.migrations[mid := working.migrations[mid].(status := Pending)]);
          Commit();
      }
      Rollback();
    }
  }

  // ----- Runs ----------------------------------------------------------------------------

  /** One operation of the single writer, started on a clean session and closed after an error. */
  datatype Op =
    | Create(mid: int, tenantId: string, answers: bool)
    | SetStatus(mid: int, status: Status, now: int, answers: bool)
    | Stamp(mid: int, code: string, message: string)
    | Note(mid: int, kind: EventType, text: Option<string>, answers: bool)
    | Delete(mid: int)
    /** The start endpoint's answer to an unreachable broker: the status goes back to PENDING
        without an event. */
    | UndoStart(mid: int)

  /** What the database holds after the operation. */
  function Apply(c: Chain, db: Db, op: Op): Db {
    match op
    case Create(mid, tenantId, answers) => if mid !in db.migrations && answers then Created(c, db, mid, tenantId) else db
    case SetStatus(mid, status, now, answers) =>
      if mid in db.migrations && (answers || db.migrations[mid].status == status)
      then StatusSet(c, db, mid, status, now) else db
    case Stamp(mid, code, message) => if mid in db.migrations then Stamped(db, mid, code, message) else db
    case Note(mid, kind, message, answers) =>
      if mid in db.migrations && answers then Recorded(c, db, mid, NoteBody(db.migrations[mid], kind, message)) else db
    case Delete(mid) =>
      if mid in db.migrations && !Active(db.migrations[mid].status) && !HasEvents(db, mid)
      then db.(migrations := db.migrations - {mid}) else db
    case UndoStart(mid) =>
      if mid in db.migrations then db.(migrations := db.migrations[mid := db.migrations[mid].(status := Pending)]) else db
  }

  function ApplyAll(c: Chain, db: Db, ops: seq<Op>): Db {
    if ops == [] then db else Apply(c, ApplyAll(c, db, ops[..|ops| - 1]), ops[|ops| - 1])
  }

  const EMPTY := Db(map[], [])

  /** Reads the status off a log: each event leads to its `to_status`, and one that names a
      `from_status` must start where the event before it ended. */
  function Replay(log: seq<Row>): Option<string> {
    if log == [] then None
    else
      var before, e := log[..|log| - 1], log[|log| - 1].event;
      if before != [] && Replay(before).None? then None
      else if e.fromStatus.Some? && Replay(before) != e.fromStatus then None
      else e.toStatus
  }

  ghost predicate RowTold(db: Db, mid: int)
    requires mid in db.migrations
  {
    Replay(Of(db.events, mid)) == Some(StatusValue(db.migrations[mid].status))
  }

  /** A terminal row says when it ended and whether it succeeded. */
  predicate ResultStamped(m: Migration) {
    Terminal(m.status) ==> m.completedAt.Some? && m.success == Some(m.status == Completed)
  }

  /** The log of migration `k` tells its row, and a migration that is not there has no log. */
  ghost predicate Told(db: Db, k: int) {
    if k in db.migrations then RowTold(db, k) && ResultStamped(db.migrations[k]) else Of(db.events, k) == []
  }

  ghost predicate DbOk(c: Chain, db: Db, k: int) { LogsOk(c, db.events) && Told(db, k) }

  lemma EmptyIsOk(c: Chain, k: int)
    ensures DbOk(c, EMPTY, k)
  {
    EmptyLogs(c);
  }

  lemma RecordedOf(c: Chain, db: Db, mid: int, b: Body, k: int)
    ensures Of(Recorded(c, db, mid, b).events, k)
            == Of(db.events, k) + (if k == mid then [NewRow(c, db.events, mid, b)] else [])
  {
    var row := NewRow(c, db.events, mid, b);
    OfConcat(db.events, [row], k);
    assert [row][..0] == [];
  }

  lemma RecordedLogs(c: Chain, db: Db, mid: int, b: Body)
    requires LogsOk(c, db.events)
    ensures LogsOk(c, Recorded(c, db, mid, b).events)
  {
    QueriesSeeTheEnd(c, db.events, mid);
    forall k ensures Log(c, k, Of(Recorded(c, db, mid, b).events, k)) {
      RecordedOf(c, db, mid, b, k);
      assert Log(c, k, Of(db.events, k));
      if k == mid {
        LogGrows(c, mid, Of(db.events, mid), b);
      } else {
        assert Of(db.events, k) + [] == Of(db.events, k);
      }
    }
  }

  lemma ReplayStep(log: seq<Row>, row: Row)
    requires log != [] ==> Replay(log).Some?
    requires row.event.fromStatus.Some? ==> Replay(log) == row.event.fromStatus
    ensures Replay(log + [row]) == row.event.toStatus
  {
    assert (log + [row])[..|log|] == log;
  }

  /** An event whose `from_status`, if any, is the status told so far carries the log on; the other
      migrations are not concerned. */
  lemma RecordedOk(c: Chain, db: Db, mid: int, m: Migration, b: Body, k: int)
    requires DbOk(c, db, k)
    requires k == mid ==>
               ResultStamped(m) && b.toStatus == Some(StatusValue(m.status))
               && (b.fromStatus.Some? ==> mid in db.migrations && b.fromStatus == Some(StatusValue(db.migrations[mid].status)))
    ensures DbOk(c, Recorded(c, db.(migrations := db.migrations[mid := m]), mid, b), k)
  {
    var written := db.(migrations := db.migrations[mid := m]);
    RecordedLogs(c, written, mid, b);
    RecordedOf(c, written, mid, b, k);
    if k == mid {
      ReplayStep(Of(db.events, mid), NewRow(c, db.events, mid, b));
    } else {
      assert Of(db.events, k) + [] == Of(db.events, k);
    }
  }

  lemma SameEventsOk(c: Chain, db: Db, mid: int, m: Migration, k: int)
    requires DbOk(c, db, k) && mid in db.migrations && (k == mid ==> ResultStamped(m))
    ensures DbOk(c, db.(migrations := db.migrations[mid := m]), k) <==> (k == mid ==> m.status == db.migrations[mid].status)
  {
    StatusValueInjective(m.status, db.migrations[mid].status);
  }

  lemma StatusValueInjective(s: Status, t: Status)
    ensures StatusValue(s) == StatusValue(t) <==> s == t
  {
    if s != t {
      assert |StatusValue(s)| != |StatusValue(t)| || StatusValue(s)[0] != StatusValue(t)[0]
             || StatusValue(s)[1] != StatusValue(t)[1];
    }
  }

  /** The row that `SetStatus` writes, with its event. */
  lemma StatusSetOk(c: Chain, db: Db, mid: int, status: Status, now: int, k: int)
    requires DbOk(c, db, k) && mid in db.migrations
    ensures DbOk(c, StatusSet(c, db, mid, status, now), k)
  {
    var before := db.migrations[mid];
    var m := WithStatus(before, status, now);
    if before.status == status {
      SameEventsOk(c, db, mid, m, k);
    } else {
      RecordedOk(c, db, mid, m, StatusEvent(before.status, m), k);
    }
  }

  lemma NoteOk(c: Chain, db: Db, mid: int, kind: EventType, message: Option<string>, k: int)
    requires DbOk(c, db, k) && mid in db.migrations
    ensures DbOk(c, Recorded(c, db, mid, NoteBody(db.migrations[mid], kind, message)), k)
  {
    var m := db.migrations[mid];
    assert db.migrations[mid := m] == db.migrations;
    assert db.(migrations := db.migrations[mid := m]) == db;
    RecordedOk(c, db, mid, m, NoteBody(m, kind, message), k);
  }

  /** An operation on one migration leaves the row and the log of every other one alone, and never
      moves the start of a migration that has started. */
  lemma OperationsAreLocal(c: Chain, db: Db, op: Op, k: int)
    ensures var after := Apply(c, db, op);
            (k != op.mid ==>
               Of(after.events, k) == Of(db.events, k)
               && (k in after.migrations <==> k in db.migrations)
               && (k in db.migrations ==> after.migrations[k] == db.migrations[k]))
            && (k in db.migrations && k in after.migrations && db.migrations[k].startedAt.Some? ==>
                  after.migrations[k].startedAt == db.migrations[k].startedAt)
  {
    match op
    case Create(mid, tenantId, _) =>
      var m := NEW.(tenantId := tenantId);
      RecordedElsewhere(c, db.(migrations := db.migrations[mid := m]), mid,
                        TransitionBody(m, None, "system", Some("Migration created"), None), k);
    case SetStatus(mid, status, now, _) =>
      if mid in db.migrations { StatusSetElsewhere(c, db, mid, status, now, k); }
    case Note(mid, kind, text, _) =>
      if mid in db.migrations { RecordedElsewhere(c, db, mid, NoteBody(db.migrations[mid], kind, text), k); }
    case _ =>
  }

  lemma RecordedElsewhere(c: Chain, db: Db, mid: int, b: Body, k: int)
    ensures k != mid ==> Of(Recorded(c, db, mid, b).events, k) == Of(db.events, k)
  {
    RecordedOf(c, db, mid, b, k);
  }

  lemma StatusSetElsewhere(c: Chain, db: Db, mid: int, status: Status, now: int, k: int)
    requires mid in db.migrations
    ensures var after := StatusSet(c, db, mid, status, now);
            after.migrations == db.migrations[mid := WithStatus(db.migrations[mid], status, now)]
            && (k != mid ==> Of(after.events, k) == Of(db.events, k))
  {
    var m := WithStatus(db.migrations[mid], status, now);
    RecordedElsewhere(c, db.(migrations := db.migrations[mid := m]), mid, StatusEvent(db.migrations[mid].status, m), k);
  }

  /** The write that is not told to the log. */
  predicate Untold(db: Db, op: Op) {
    op.UndoStart? && op.mid in db.migrations && db.migrations[op.mid].status != Pending
  }

  /** Every operation keeps log and row of every migration together, except exactly the unlogged reset
      of the start endpoint, and that only for the migration it resets, unless that one is PENDING. */
  lemma StepTold(c: Chain, db: Db, op: Op, k: int)
    requires DbOk(c, db, k)
    ensures DbOk(c, Apply(c, db, op), k) <==> !(Untold(db, op) && op.mid == k)
  {
    match op
    case Create(mid, tenantId, answers) =>
      if mid !in db.migrations && answers {
        var m := NEW.(tenantId := tenantId);
        RecordedOk(c, db, mid, m, TransitionBody(m, None, "system", Some("Migration created"), None), k);
      }
    case SetStatus(mid, status, now, answers) =>
      if mid in db.migrations && (answers || db.migrations[mid].status == status) { StatusSetOk(c, db, mid, status, now, k); }
    case Stamp(mid, code, message) =>
      if mid in db.migrations {
        SameEventsOk(c, db, mid, db.migrations[mid].(errorCode := Some(code), errorMessage := Some(message)), k);
      }
    case Note(mid, kind, message, answers) =>
      if mid in db.migrations && answers { NoteOk(c, db, mid, kind, message, k); }
    case Delete(mid) =>
    case UndoStart(mid) =>
      if mid in db.migrations { SameEventsOk(c, db, mid, db.migrations[mid].(status := Pending), k); }
  }

  /** From any database whose logs verify, legacy rows included, and whose migration `k` is told: after
      any run in which that migration is not reset, whatever happens to the others, replaying its log
      gives the status of its row, and all logs still verify. */
  lemma {:induction false} LogReplaysToRow(c: Chain, db: Db, ops: seq<Op>, k: int)
    requires DbOk(c, db, k)
    requires forall j :: 0 <= j < |ops| && ops[j].UndoStart? ==> ops[j].mid != k
    ensures DbOk(c, ApplyAll(c, db, ops), k)
  {
    if ops == [] {
    } else {
      LogReplaysToRow(c, db, ops[..|ops| - 1], k);
      StepTold(c, ApplyAll(c, db, ops[..|ops| - 1]), ops[|ops| - 1], k);
    }
  }

  lemma ApplyThree(c: Chain, db: Db, x: Op, y: Op, z: Op)
    ensures ApplyAll(c, db, [x, y, z]) == Apply(c, Apply(c, Apply(c, db, x), y), z)
  {
    assert [x, y, z][..2] == [x, y] && [x, y][..1] == [x] && [x][..0] == [];
    assert ApplyAll(c, db, [x]) == Apply(c, ApplyAll(c, db, []), x);
    assert ApplyAll(c, db, [x, y]) == Apply(c, ApplyAll(c, db, [x]), y);
  }

  /** The reset does break it: a migration is created, the start endpoint sets it to VALIDATING, and the
      broker cannot be reached. The row says PENDING, the log still VALIDATING. */
  lemma BrokerFailureIsUntold(c: Chain, mid: int, now: int)
    ensures var db := ApplyAll(c, EMPTY, [Create(mid, "t", true), SetStatus(mid, Validating, now, true), UndoStart(mid)]);
            mid in db.migrations && db.migrations[mid].status == Pending
            && Replay(Of(db.events, mid)) == Some(StatusValue(Validating)) && !Told(db, mid)
  {
    var x, y, z := Create(mid, "t", true), SetStatus(mid, Validating, now, true), UndoStart(mid);
    var created := Apply(c, EMPTY, x);
    ApplyThree(c, EMPTY, x, y, z);
    EmptyIsOk(c, mid);
    StepTold(c, EMPTY, x, mid);
    ResetIsUntold(c, created, mid, now);
  }

  lemma ResetIsUntold(c: Chain, db: Db, mid: int, now: int)
    requires DbOk(c, db, mid) && mid in db.migrations
    ensures var after := Apply(c, Apply(c, db, SetStatus(mid, Validating, now, true)), UndoStart(mid));
            mid in after.migrations && after.migrations[mid].status == Pending
            && Replay(Of(after.events, mid)) == Some(StatusValue(Validating)) && !Told(after, mid)
  {
    StatusSetOk(c, db, mid, Validating, now, mid);
    StatusValueInjective(Pending, Validating);
  }

  // ----- Deletion ------------------------------------------------------------------------

  /** Every migration has an audit trail. */
  ghost predicate Trailed(db: Db) {
    forall mid :: mid in db.migrations ==> HasEvents(db, mid)
  }

  lemma StepKeepsTrail(c: Chain, db: Db, op: Op)
    requires Trailed(db)
    ensures Trailed(Apply(c, db, op))
  {
    var after := Apply(c, db, op);
    forall k | k in after.migrations ensures HasEvents(after, k) {
      OperationsAreLocal(c, db, op, k);
      if k == op.mid {
        match op
        case Create(mid, tenantId, _) =>
          var m := NEW.(tenantId := tenantId);
          RecordedOf(c, db.(migrations := db.migrations[mid := m]), mid,
                     TransitionBody(m, None, "system", Some("Migration created"), None), k);
        case SetStatus(mid, status, now, _) =>
          var m := WithStatus(db.migrations[mid], status, now);
          RecordedOf(c, db.(migrations := db.migrations[mid := m]), mid, StatusEvent(db.migrations[mid].status, m), k);
        case Note(mid, kind, text, _) => RecordedOf(c, db, mid, NoteBody(db.migrations[mid], kind, text), k);
        case _ =>
      }
    }
  }

  lemma {:induction false} RunKeepsTrail(c: Chain, db: Db, ops: seq<Op>)
    requires Trailed(db)
    ensures Trailed(ApplyAll(c, db, ops))
  {
    if ops == [] {
    } else {
      RunKeepsTrail(c, db, ops[..|ops| - 1]);
      StepKeepsTrail(c, ApplyAll(c, db, ops[..|ops| - 1]), ops[|ops| - 1]);
    }
  }

  /** A migration made by `create_migration` always has an audit trail, so whatever was done before,
      resets included, a delete changes nothing. */
  lemma {:induction false} NothingIsDeleted(c: Chain, ops: seq<Op>, mid: int)
    ensures var db := ApplyAll(c, EMPTY, ops); Apply(c, db, Delete(mid)) == db
  {
    RunKeepsTrail(c, EMPTY, ops);
  }
}
