/** What the operations of `MigrationCrud` leave in the database, column by column: the row, and the one
    event that is written with it. */
module MigrationEffects {
  import opened Options
  import opened CanonicalJson
  import opened AuditChain
  import opened AuditLog
  import opened AuditEmission
  import opened MigrationCrud

  /** Reads a status as the API spells it. */
  function ReadStatus(text: string): Option<Status> {
    if text == "pending" then Some(Pending)
    else if text == "validating" then Some(Validating)
    else if text == "preparing" then Some(Preparing)
    else if text == "transferring" then Some(Transferring)
    else if text == "configuring" then Some(Configuring)
    else if text == "starting" then Some(Starting)
    else if text == "verifying" then Some(Verifying)
    else if text == "completed" then Some(Completed)
    else if text == "failed" then Some(Failed)
    else if text == "cancelled" then Some(Cancelled)
    else if text == "rollback" then Some(Rollback)
    else if text == "rolled_back" then Some(RolledBack)
    else None
  }

  lemma StatusReadsBack(s: Status)
    ensures ReadStatus(StatusValue(s)) == Some(s)
  {
    var t := StatusValue(s);
    assert |"pending"| == 7 && |"validating"| == 10 && |"preparing"| == 9 && |"transferring"| == 12;
    assert |"configuring"| == 11 && |"starting"| == 8 && |"verifying"| == 9 && |"completed"| == 9;
    assert |"failed"| == 6 && |"cancelled"| == 9 && |"rollback"| == 8 && |"rolled_back"| == 11;
    assert t[0] == StatusValue(s)[0] && t[1] == StatusValue(s)[1];
  }

  predicate Names(text: Option<string>, s: Status) { text.Some? && ReadStatus(text.value) == Some(s) }

  /** Exactly one event is appended, for migration `mid`, numbered and chained behind its log. */
  ghost predicate OneEvent(c: Chain, before: seq<Row>, after: seq<Row>, mid: int) {
    |after| == |before| + 1 && after[..|before|] == before
    && var row, log := after[|before|], Of(before, mid);
       row.event.migrationId == mid && row.event.sequenceId == |log| + 1
       && row.rowHash == Some(c.sha((if log == [] || log[|log| - 1].rowHash.None? then "" else log[|log| - 1].rowHash.value)
                                    + c.text(row.event)))
  }

  lemma RecordedIsOneEvent(c: Chain, db: Db, mid: int, b: Body)
    requires LogsOk(c, db.events)
    ensures var after := Recorded(c, db, mid, b);
            after.migrations == db.migrations && OneEvent(c, db.events, after.events, mid)
            && Carries(after.events[|db.events|].event, mid, b)
  {
    QueriesSeeTheEnd(c, db.events, mid);
  }

  /** The columns of the event that goes with a change of status. A failure is told as a classified error
      with the stored message and code, or their defaults; anything else as a transition. */
  ghost predicate TellsChange(e: Event, m: Migration, status: Status) {
    e.tenantId == m.tenantId && e.actorId == None && e.actorType == "worker" && Names(e.toStatus, status)
    && (e.eventType == ClassifiedError <==> status == Failed)
    && (status == Failed ==>
          e.fromStatus == None
          && e.message == Some(if m.errorMessage.Some? && m.errorMessage.value != "" then m.errorMessage.value else "Migration failed")
          && e.payload == Some(map["error_code" := Str(if m.errorCode.Some? && m.errorCode.value != ""
                                                       then m.errorCode.value else "ERR_MIG_INTERNAL")]))
    && (status != Failed ==>
          e.eventType == StateTransition && Names(e.fromStatus, m.status) && e.message == m.errorMessage
          && e.payload == if m.errorCode.Some? && m.errorCode.value != ""
                          then Some(map["error_code" := Str(m.errorCode.value)]) else None)
  }

  /** The row after a write of `status` over `m`. */
  ghost predicate RowAfter(m: Migration, status: Status, now: int, after: Migration) {
    after.status == status && after.tenantId == m.tenantId
    && after.errorCode == m.errorCode && after.errorMessage == m.errorMessage
    && after.startedAt == (if status == Validating && m.startedAt == None then Some(now) else m.startedAt)
    && if status in {Completed, Failed, Cancelled, RolledBack}
       then after.completedAt == Some(now) && after.success == Some(status == Completed)
       else after.completedAt == m.completedAt && after.success == m.success
  }

  lemma StatusEventTells(e: Event, mid: int, m: Migration, status: Status, now: int)
    requires status != m.status && Carries(e, mid, StatusEvent(m.status, WithStatus(m, status, now)))
    ensures TellsChange(e, m, status)
  {
    StatusReadsBack(status);
    StatusReadsBack(m.status);
  }

  /** `set_migration_status`: the row, and no event without a change, one event with it. */
  lemma StatusWriteEffect(c: Chain, db: Db, mid: int, status: Status, now: int)
    requires LogsOk(c, db.events) && mid in db.migrations
    ensures var m, after := db.migrations[mid], StatusSet(c, db, mid, status, now);
            mid in after.migrations && RowAfter(m, status, now, after.migrations[mid])
            && after.migrations == db.migrations[mid := after.migrations[mid]]
            && (status == m.status ==> after.events == db.events)
            && (status != m.status ==>
                  OneEvent(c, db.events, after.events, mid) && TellsChange(after.events[|db.events|].event, m, status))
  {
    var m := db.migrations[mid];
    var m' := WithStatus(m, status, now);
    if status != m.status {
      var written := db.(migrations := db.migrations[mid := m']);
      RecordedIsOneEvent(c, written, mid, StatusEvent(m.status, m'));
      StatusEventTells(Recorded(c, written, mid, StatusEvent(m.status, m')).events[|db.events|].event, mid, m, status, now);
    }
  }

  /** `create_migration`: a PENDING row without times, result or error, and its first event. */
  lemma CreationEffect(c: Chain, db: Db, mid: int, tenantId: string)
    requires LogsOk(c, db.events)
    ensures var after := Created(c, db, mid, tenantId);
            after.migrations == db.migrations[mid := Migration(tenantId, Pending, None, None, None, None, None)]
            && OneEvent(c, db.events, after.events, mid)
            && var e := after.events[|db.events|].event;
               e.tenantId == tenantId && e.eventType == StateTransition && e.fromStatus == None && Names(e.toStatus, Pending)
               && e.actorId == None && e.actorType == "system" && e.message == Some("Migration created") && e.payload == None
  {
    var m := NEW.(tenantId := tenantId);
    RecordedIsOneEvent(c, db.(migrations := db.migrations[mid := m]), mid,
                       TransitionBody(m, None, "system", Some("Migration created"), None));
    StatusReadsBack(Pending);
  }

  /** Stage events and heartbeats: the row stays, and one event repeats its status. */
  lemma NoteEffect(c: Chain, db: Db, mid: int, kind: EventType, message: Option<string>)
    requires LogsOk(c, db.events) && mid in db.migrations
    ensures var m, after := db.migrations[mid], Recorded(c, db, mid, NoteBody(db.migrations[mid], kind, message));
            after.migrations == db.migrations && OneEvent(c, db.events, after.events, mid)
            && var e := after.events[|db.events|].event;
               e.tenantId == m.tenantId && e.eventType == kind && e.fromStatus == None && Names(e.toStatus, m.status)
               && e.actorId == None && e.actorType == "worker" && e.message == message && e.payload == None
  {
    RecordedIsOneEvent(c, db, mid, NoteBody(db.migrations[mid], kind, message));
    StatusReadsBack(db.migrations[mid].status);
  }

  /** `fail_migration`: the two error columns, and nothing else. */
  lemma StampEffect(db: Db, mid: int, code: string, message: string)
    requires mid in db.migrations
    ensures var m, after := db.migrations[mid], Stamped(db, mid, code, message);
            after.events == db.events && mid in after.migrations
            && after.migrations == db.migrations[mid := after.migrations[mid]]
            && after.migrations[mid] == Migration(m.tenantId, m.status, m.startedAt, m.completedAt, m.success, Some(code), Some(message))
  {
  }

  /** `fail_migration` and then `set_migration_status(FAILED)`: the failure is told with the code and the
      message that were stamped. */
  lemma FailureIsTold(c: Chain, db: Db, mid: int, code: string, message: string, now: int)
    requires LogsOk(c, db.events) && mid in db.migrations && db.migrations[mid].status != Failed
    requires code != "" && message != ""
    ensures var after := StatusSet(c, Stamped(db, mid, code, message), mid, Failed, now);
            OneEvent(c, db.events, after.events, mid)
            && var e := after.events[|db.events|].event;
               e.eventType == ClassifiedError && e.message == Some(message) && e.payload == Some(map["error_code" := Str(code)])
  {
    StampEffect(db, mid, code, message);
    StatusWriteEffect(c, Stamped(db, mid, code, message), mid, Failed, now);
  }
}
