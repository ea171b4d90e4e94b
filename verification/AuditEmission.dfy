/** Where the rows of the audit log come from: every row that a run commits is what one of its emitters
    asked for, an undisturbed emitter gets its row, and a rollback undoes exactly what lies behind its
    savepoint. */
module AuditEmission {
  import opened Options
  import opened AuditChain
  import opened AuditLog

  // ----- The columns of a written row ----------------------------------------------------

  /** The event carries, column by column, what the emitter passed. */
  ghost predicate Carries(e: Event, mid: int, b: Body) {
    e.migrationId == mid
    && e.tenantId == b.tenantId
    && e.eventType == b.eventType
    && e.fromStatus == b.fromStatus
    && e.toStatus == b.toStatus
    && e.actorId == b.actorId
    && e.actorType == b.actorType
    && e.message == b.message
    && e.payload == b.payload
  }

  /** Some emitter of the run asked for this event. */
  ghost predicate AskedFor(acts: seq<Action>, e: Event) {
    exists k :: 0 <= k < |acts| && acts[k].Lock? && Carries(e, acts[k].mid, acts[k].body)
  }

  ghost predicate EmitAskedFor(acts: seq<Action>, x: Txn) {
    !x.emit.Idle? ==> exists k :: 0 <= k < |acts| && acts[k].Lock? && acts[k].mid == x.emit.mid && acts[k].body == x.emit.body
  }

  ghost predicate RowsAskedFor(acts: seq<Action>, rows: seq<Row>) {
    forall i :: 0 <= i < |rows| ==> AskedFor(acts, rows[i].event)
  }

  ghost predicate Origin(acts: seq<Action>, base: seq<Row>, s: State) {
    base <= s.table && RowsAskedFor(acts, s.table[|base|..])
    && forall t :: t in s.txns ==> RowsAskedFor(acts, s.txns[t].pending) && EmitAskedFor(acts, s.txns[t])
  }

  lemma OneMoreAction(acts: seq<Action>, a: Action, base: seq<Row>, s: State)
    requires Origin(acts, base, s)
    ensures Origin(acts + [a], base, s)
  {
    assert forall k :: 0 <= k < |acts| ==> (acts + [a])[k] == acts[k];
    forall e | AskedFor(acts, e) ensures AskedFor(acts + [a], e) {
      var k :| 0 <= k < |acts| && acts[k].Lock? && Carries(e, acts[k].mid, acts[k].body);
      assert (acts + [a])[k].Lock?;
    }
    forall t | t in s.txns ensures EmitAskedFor(acts + [a], s.txns[t]) {
      if !s.txns[t].emit.Idle? {
        var k :| 0 <= k < |acts| && acts[k].Lock? && acts[k].mid == s.txns[t].emit.mid && acts[k].body == s.txns[t].emit.body;
        assert (acts + [a])[k].Lock?;
      }
    }
  }

  lemma LocalKeepsOrigin(c: Chain, acts: seq<Action>, table: seq<Row>, x: Txn, l: Local)
    requires RowsAskedFor(acts, x.pending) && EmitAskedFor(acts, x)
    ensures RowsAskedFor(acts, DoLocal(c, table, x, l).pending) && EmitAskedFor(acts, DoLocal(c, table, x, l))
  {
    if l.Insert? && x.emit.Linked? {
      var e := DoLocal(c, table, x, l).pending[|x.pending|].event;
      var k :| 0 <= k < |acts| && acts[k].Lock? && acts[k].mid == x.emit.mid && acts[k].body == x.emit.body;
      assert Carries(e, acts[k].mid, acts[k].body);
    }
  }

  /** `acts` ends with `a`. */
  lemma StepKeepsOrigin(c: Chain, acts: seq<Action>, a: Action, base: seq<Row>, s: State)
    requires acts != [] && acts[|acts| - 1] == a && Origin(acts, base, s)
    ensures Origin(acts, base, Step(c, s, a))
  {
    match a
    case Do(t, l) =>
      if t in s.txns { LocalKeepsOrigin(c, acts, s.table, s.txns[t], l); }
    case Commit(t) =>
      if t in s.txns && s.txns[t].emit.Idle? {
        assert (s.table + s.txns[t].pending)[|base|..] == s.table[|base|..] + s.txns[t].pending;
      }
    case _ =>
  }

  lemma {:induction false} RunKeepsOrigin(c: Chain, base: seq<Row>, acts: seq<Action>)
    ensures Origin(acts, base, Run(c, Quiet(base), acts))
  {
    if acts == [] {
    } else {
      var earlier, a := acts[..|acts| - 1], acts[|acts| - 1];
      assert acts == earlier + [a];
      RunKeepsOrigin(c, base, earlier);
      OneMoreAction(earlier, a, base, Run(c, Quiet(base), earlier));
      StepKeepsOrigin(c, acts, a, base, Run(c, Quiet(base), earlier));
    }
  }

  /** Whatever the interleaving, every row a run commits carries, column by column, what one of its
      emitters passed. */
  lemma CommittedRowsWereAskedFor(c: Chain, table: seq<Row>, acts: seq<Action>, i: nat)
    ensures var after := Run(c, Quiet(table), acts).table;
            table <= after && (|table| <= i < |after| ==> AskedFor(acts, after[i].event))
  {
    RunKeepsOrigin(c, table, acts);
    var after := Run(c, Quiet(table), acts).table;
    if |table| <= i < |after| { assert after[|table|..][i - |table|] == after[i]; }
  }

  // ----- One emitter alone ---------------------------------------------------------------

  function Emission(t: nat, mid: int, b: Body): seq<Action> {
    [Begin(t), Lock(t, mid, b), Do(t, ReadMax), Do(t, ReadHash), Do(t, Insert)]
  }

  lemma RunLast(c: Chain, s: State, acts: seq<Action>, a: Action)
    ensures Run(c, s, acts + [a]) == Step(c, Run(c, s, acts), a)
  {
    assert (acts + [a])[..|acts|] == acts;
  }

  lemma RunFive(c: Chain, s: State, x: Action, y: Action, z: Action, u: Action, v: Action)
    ensures Run(c, s, [x, y, z, u, v]) == Step(c, Step(c, Step(c, Step(c, Step(c, s, x), y), z), u), v)
  {
    assert Run(c, s, []) == s && [] + [x] == [x];
    RunLast(c, s, [], x);
    assert [x] + [y] == [x, y] && [x, y] + [z] == [x, y, z] && [x, y, z] + [u] == [x, y, z, u] && [x, y, z, u] + [v] == [x, y, z, u, v];
    RunLast(c, s, [x], y);
    RunLast(c, s, [x, y], z);
    RunLast(c, s, [x, y, z], u);
    RunLast(c, s, [x, y, z, u], v);
  }

  /** The row an undisturbed emitter adds to the log `log` of its migration. */
  ghost predicate NextRow(c: Chain, log: seq<Row>, mid: int, b: Body, row: Row) {
    Carries(row.event, mid, b) && row.event.sequenceId == |log| + 1
    && row.rowHash == Some(c.sha((if log == [] || log[|log| - 1].rowHash.None? then "" else log[|log| - 1].rowHash.value)
                                 + c.text(row.event)))
  }

  /** Alone, an emitter that commits has appended exactly its row, numbered and chained behind the log; one
      that aborts has changed nothing. */
  lemma EmitterAlone(c: Chain, table: seq<Row>, t: nat, mid: int, b: Body)
    requires LogsOk(c, table) && b.actorType in {"worker", "user", "system"}
    ensures exists row :: NextRow(c, Of(table, mid), mid, b, row)
              && Run(c, Quiet(table), Emission(t, mid, b) + [Commit(t)]) == Quiet(table + [row])
    ensures Run(c, Quiet(table), Emission(t, mid, b) + [Abort(t)]) == Quiet(table)
  {
    var s := Quiet(table);
    QueriesSeeTheEnd(c, table, mid);
    RunFive(c, s, Begin(t), Lock(t, mid, b), Do(t, ReadMax), Do(t, ReadHash), Do(t, Insert));
    var s2 := Step(c, Step(c, s, Begin(t)), Lock(t, mid, b));
    InsertAlone(c, s2, t, mid, b);
    var row := Run(c, s, Emission(t, mid, b)).txns[t].pending[0];
    RunLast(c, s, Emission(t, mid, b), Commit(t));
    RunLast(c, s, Emission(t, mid, b), Abort(t));
    EndAlone(c, Run(c, s, Emission(t, mid, b)), t, row);
  }

  lemma EndAlone(c: Chain, s: State, t: nat, row: Row)
    requires s.txns.Keys == {t} && s.txns[t].pending == [row] && s.txns[t].emit.Idle?
    ensures Step(c, s, Commit(t)) == Quiet(s.table + [row]) && Step(c, s, Abort(t)) == Quiet(s.table)
  {
    assert s.txns - {t} == map[];
  }

  lemma InsertAlone(c: Chain, s: State, t: nat, mid: int, b: Body)
    requires s.txns.Keys == {t} && s.txns[t].emit == Locked(mid, b) && s.txns[t].pending == []
    requires NextSequenceId(s.table, mid) == |Of(s.table, mid)| + 1 && PreviousRowHash(s.table, mid) == LastHash(Of(s.table, mid))
    ensures var s' := Step(c, Step(c, Step(c, s, Do(t, ReadMax)), Do(t, ReadHash)), Do(t, Insert));
            s'.table == s.table && s'.txns.Keys == {t} && s'.txns[t].emit.Idle?
            && exists row :: s'.txns[t].pending == [row] && NextRow(c, Of(s.table, mid), mid, b, row)
  {
    assert s.table + [] == s.table;
    var s' := Step(c, Step(c, Step(c, s, Do(t, ReadMax)), Do(t, ReadHash)), Do(t, Insert));
    var row := s'.txns[t].pending[0];
    assert s'.txns[t].pending == [row] && NextRow(c, Of(s.table, mid), mid, b, row);
  }

  // ----- Savepoints ----------------------------------------------------------------------

  /** Transaction `y` is `x` after more statements, with the savepoint that `x` set still standing. */
  ghost predicate Behind(x: Txn, y: Txn) {
    x.pending <= y.pending && SavepointsOk(y)
    && x.savepoints + [Savepoint(|x.pending|, x.held)] <= y.savepoints
  }

  lemma SettingStandsBehind(c: Chain, table: seq<Row>, x: Txn)
    requires x.emit.Idle? && TxnOk(c, table, x)
    ensures Behind(x, DoLocal(c, table, x, SetSavepoint))
  {
    LocalOk(c, table, x, SetSavepoint);
  }

  /** Every statement that does not end this savepoint leaves it standing. */
  lemma StatementStaysBehind(c: Chain, table: seq<Row>, x: Txn, y: Txn, l: Local)
    requires Behind(x, y) && TxnOk(c, table, y)
    requires l.ReleaseSavepoint? || l.RollbackToSavepoint? ==> |y.savepoints| > |x.savepoints| + 1
    ensures Behind(x, DoLocal(c, table, y, l))
  {
    LocalOk(c, table, y, l);
    if l.RollbackToSavepoint? {
      var p := y.savepoints[|y.savepoints| - 1];
      assert y.savepoints[|x.savepoints|] == Savepoint(|x.pending|, x.held);
      assert |x.pending| <= p.rows;
    }
  }

  /** The rollback gives back exactly the rows and the locks of the moment the savepoint was set. */
  lemma RollbackRestores(c: Chain, table: seq<Row>, x: Txn, y: Txn)
    requires Behind(x, y) && |y.savepoints| == |x.savepoints| + 1 && x.emit.Idle?
    ensures DoLocal(c, table, y, RollbackToSavepoint) == x
  {
    assert y.savepoints[..|x.savepoints|] == x.savepoints;
    assert y.pending[..|x.pending|] == x.pending;
  }
}
