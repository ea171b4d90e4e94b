/** Delta paging over the audit log of one migration (`GET /migrations/{id}/events`): the client
    hands back the last sequence id it received while writers keep committing. */
module AuditPaging {
  import opened Options
  import opened AuditChain
  import opened AuditLog

  /** The optional filters of `list_events_for_migration`. */
  datatype Filter = Filter(tenant: Option<string>, kind: Option<EventType>)

  predicate Matches(f: Filter, r: Row) {
    (f.tenant.Some? ==> r.event.tenantId == f.tenant.value)
    && (f.kind.Some? ==> r.event.eventType == f.kind.value)
  }

  /** The rows that pass the filter and, for a positive cursor, lie behind it. */
  function Where(rows: seq<Row>, f: Filter, since: int): seq<Row> {
    if rows == [] then []
    else
      var last := rows[|rows| - 1];
      Where(rows[..|rows| - 1], f, since)
      + (if Matches(f, last) && (since > 0 ==> last.event.sequenceId > since) then [last] else [])
  }

  /** All rows of `rows` that pass the filter. */
  function Select(rows: seq<Row>, f: Filter): seq<Row> { Where(rows, f, 0) }

  function Limit(rows: seq<Row>, limit: nat): seq<Row> {
    if |rows| <= limit then rows else rows[..limit]
  }

  /** The query: filter, `ORDER BY sequence_id ASC`, `LIMIT`. */
  function ListEvents(table: seq<Row>, mid: int, f: Filter, since: int, limit: nat): seq<Row> {
    Limit(InOrder(Where(Of(table, mid), f, since)), limit)
  }

  /** A polling client: the rows it has received and the cursor it sends next. */
  datatype Reader = Reader(received: seq<Row>, cursor: int)

  datatype Page = Page(items: seq<Row>, next: Option<int>, hasMore: bool)

  /** The endpoint asks for one row more than `limit` to learn whether the page was cut. */
  function FetchPage(table: seq<Row>, mid: int, f: Filter, since: int, limit: nat): Page {
    var raw := ListEvents(table, mid, f, since, limit + 1);
    var hasMore := |raw| > limit;
    var items := if hasMore then raw[..limit] else raw;
    Page(items, if items == [] then None else Some(items[|items| - 1].event.sequenceId), hasMore)
  }

  function Receive(r: Reader, p: Page): Reader {
    Reader(r.received + p.items, match p.next case Some(n) => n case None => r.cursor)
  }

  lemma {:induction false} WhereConcat(a: seq<Row>, b: seq<Row>, f: Filter, since: int)
    ensures Where(a + b, f, since) == Where(a, f, since) + Where(b, f, since)
  {
    if b == [] {
      assert a + b == a;
    } else {
      WhereConcat(a, b[..|b| - 1], f, since);
      DropLastConcat(a, b);
    }
  }

  /** The conditions of the request: the tenant and the kind of event, if they are given. */
  ghost predicate Asked(f: Filter, x: Row) {
    (f.kind.Some? ==> x.event.eventType == f.kind.value) && (f.tenant.Some? ==> x.event.tenantId == f.tenant.value)
  }

  lemma {:induction false} WhereMeans(rows: seq<Row>, f: Filter, since: int, x: Row)
    ensures x in Where(rows, f, since) <==> x in rows && Asked(f, x) && (since > 0 ==> x.event.sequenceId > since)
  {
    if rows == [] {
    } else {
      WhereMeans(rows[..|rows| - 1], f, since, x);
      assert rows == rows[..|rows| - 1] + [rows[|rows| - 1]];
    }
  }

  /** A selected part of the log holds exactly the rows of that part that were asked for. */
  lemma SelectMeans(rows: seq<Row>, f: Filter)
    ensures forall x :: x in Select(rows, f) <==> x in rows && Asked(f, x)
  {
    forall x ensures x in Select(rows, f) <==> x in rows && Asked(f, x) {
      WhereMeans(rows, f, 0, x);
    }
  }

  lemma BehindCursor(log: seq<Row>, since: nat, x: Row)
    requires Numbered1ToN(log) && since <= |log|
    ensures x in log[since..] <==> x in log && x.event.sequenceId > since
    ensures x in log[..since] <==> x in log && x.event.sequenceId <= since
  {
    if x in log {
      var i :| 0 <= i < |log| && log[i] == x;
      assert i >= since ==> log[since..][i - since] == x;
      assert i < since ==> log[..since][i] == x;
    }
  }

  ghost predicate Increasing(rows: seq<Row>) {
    forall i, j :: 0 <= i < j < |rows| ==> rows[i].event.sequenceId < rows[j].event.sequenceId
  }

  lemma AppendInOrder(before: seq<Row>, last: Row)
    requires InOrder(before) == before
    requires before == [] || before[|before| - 1].event.sequenceId <= last.event.sequenceId
    ensures InOrder(before + [last]) == before + [last]
  {
    assert (before + [last])[..|before|] == before;
  }

  lemma IncreasingPrefix(rows: seq<Row>)
    requires Increasing(rows) && rows != []
    ensures Increasing(rows[..|rows| - 1])
  {
  }

  lemma {:induction false} IncreasingInOrder(rows: seq<Row>)
    requires Increasing(rows)
    ensures InOrder(rows) == rows
  {
    if rows == [] {
    } else {
      IncreasingPrefix(rows);
      IncreasingInOrder(rows[..|rows| - 1]);
      AppendInOrder(rows[..|rows| - 1], rows[|rows| - 1]);
      assert rows == rows[..|rows| - 1] + [rows[|rows| - 1]];
    }
  }

  lemma {:induction false} WhereIncreasing(rows: seq<Row>, f: Filter, since: int)
    requires Increasing(rows)
    ensures Increasing(Where(rows, f, since))
    ensures forall r :: r in Where(rows, f, since) ==> r in rows
  {
    if rows == [] {
    } else {
      var before, last := rows[..|rows| - 1], rows[|rows| - 1];
      WhereIncreasing(before, f, since);
      assert forall r :: r in before ==> r.event.sequenceId < last.event.sequenceId;
    }
  }

  /** On a numbered log the cursor cuts off exactly the rows up to it. */
  lemma {:induction false} CursorCuts(log: seq<Row>, f: Filter, since: nat)
    requires Numbered1ToN(log) && since <= |log|
    ensures Where(log, f, since) == Select(log[since..], f)
  {
    if |log| == since {
      NothingBehind(log, f, since);
    } else {
      var before := log[..|log| - 1];
      CursorCuts(before, f, since);
      assert log[since..][..|log| - since - 1] == before[since..];
    }
  }

  lemma {:induction false} NothingBehind(log: seq<Row>, f: Filter, since: nat)
    requires Numbered1ToN(log) && |log| <= since
    ensures Where(log, f, since) == []
  {
    if log == [] {
    } else {
      NothingBehind(log[..|log| - 1], f, since);
    }
  }

  /** The first `n` selected rows are what is selected up to the last of them. */
  lemma {:induction false} SelectedPrefix(rows: seq<Row>, f: Filter, n: nat) returns (q: nat)
    requires 1 <= n <= |Select(rows, f)|
    ensures 1 <= q <= |rows| && rows[q - 1] == Select(rows, f)[n - 1]
    ensures Select(rows[..q], f) == Select(rows, f)[..n]
  {
    var before := rows[..|rows| - 1];
    if n == |Select(rows, f)| && |Select(before, f)| < n {
      q := |rows|;
      assert rows[..q] == rows;
    } else {
      q := SelectedPrefix(before, f, n);
      assert rows[..q] == before[..q];
    }
  }

  /** The reader holds exactly the matching rows up to its cursor. */
  ghost predicate ReaderOk(log: seq<Row>, f: Filter, r: Reader) {
    0 <= r.cursor <= |log| && r.received == Select(log[..r.cursor], f)
  }

  lemma PageIs(table: seq<Row>, mid: int, f: Filter, since: nat, limit: nat)
    requires Numbered1ToN(Of(table, mid)) && since <= |Of(table, mid)|
    ensures var rest := Select(Of(table, mid)[since..], f);
            var p := FetchPage(table, mid, f, since, limit);
            p.items == Limit(rest, limit) && (p.hasMore <==> |rest| > limit)
  {
    var log := Of(table, mid);
    assert Increasing(log);
    WhereIncreasing(log, f, since);
    IncreasingInOrder(Where(log, f, since));
    CursorCuts(log, f, since);
  }

  lemma LimitMeans(rest: seq<Row>, limit: nat)
    ensures |rest| <= limit ==> Limit(rest, limit) == rest
    ensures |rest| > limit ==> |Limit(rest, limit)| == limit
    ensures forall x :: x in Limit(rest, limit) ==> x in rest
    ensures Increasing(rest) ==> Increasing(Limit(rest, limit))
  {
  }

  /** What is left behind the cursor, row by row and in order. */
  lemma RestHolds(table: seq<Row>, mid: int, f: Filter, since: nat)
    requires Numbered1ToN(Of(table, mid)) && since <= |Of(table, mid)|
    ensures var rest := Select(Of(table, mid)[since..], f);
            Increasing(rest)
            && forall x :: x in rest <==> x in table && x.event.migrationId == mid && x.event.sequenceId > since && Asked(f, x)
  {
    var behind := Of(table, mid)[since..];
    SelectMeans(behind, f);
    WhereIncreasing(behind, f, 0);
    forall x
      ensures x in Select(behind, f) <==> x in table && x.event.migrationId == mid && x.event.sequenceId > since && Asked(f, x)
    {
      BehindCursor(Of(table, mid), since, x);
      OfMeans(table, mid, x);
    }
  }

  /** What a page holds, in terms of the table and the request: rows of this migration behind the cursor
      that were asked for, in increasing order and at most `limit` of them; exactly `limit` if more are
      left, and all of them if none is. */
  lemma PageHolds(table: seq<Row>, mid: int, f: Filter, since: nat, limit: nat)
    requires Numbered1ToN(Of(table, mid)) && since <= |Of(table, mid)|
    ensures var p := FetchPage(table, mid, f, since, limit);
            (forall x :: x in p.items ==>
               x in table && x.event.migrationId == mid && x.event.sequenceId > since && Asked(f, x))
            && (!p.hasMore ==> forall x ::
                  x in table && x.event.migrationId == mid && x.event.sequenceId > since && Asked(f, x) ==> x in p.items)
            && (if p.hasMore then |p.items| == limit else |p.items| <= limit)
            && Increasing(p.items)
            && p.next == (if p.items == [] then None else Some(p.items[|p.items| - 1].event.sequenceId))
  {
    PageIs(table, mid, f, since, limit);
    RestHolds(table, mid, f, since);
    LimitMeans(Select(Of(table, mid)[since..], f), limit);
  }

  /** Taking in the next rows keeps the reader exact. */
  lemma Advance(log: seq<Row>, f: Filter, r: Reader, items: seq<Row>)
    requires Numbered1ToN(log) && ReaderOk(log, f, r) && items != []
    requires items <= Select(log[r.cursor..], f)
    ensures ReaderOk(log, f, Reader(r.received + items, items[|items| - 1].event.sequenceId))
  {
    var rest := log[r.cursor..];
    var q := SelectedPrefix(rest, f, |items|);
    WhereConcat(log[..r.cursor], rest[..q], f, 0);
    assert log[..r.cursor + q] == log[..r.cursor] + rest[..q];
    assert rest[q - 1] == log[r.cursor + q - 1];
  }

  /** The log selects into what the reader has and what lies behind its cursor. */
  lemma ReceivedAndRest(log: seq<Row>, f: Filter, r: Reader)
    requires ReaderOk(log, f, r)
    ensures Select(log, f) == r.received + Select(log[r.cursor..], f)
  {
    WhereConcat(log[..r.cursor], log[r.cursor..], f, 0);
    assert log == log[..r.cursor] + log[r.cursor..];
  }

  /** One poll keeps the reader exact, moves it on if anything new matches, and leaves it complete
      when the page says that nothing is left. */
  lemma {:induction false} PollKeepsReader(table: seq<Row>, mid: int, f: Filter, limit: nat, r: Reader)
    requires Numbered1ToN(Of(table, mid)) && ReaderOk(Of(table, mid), f, r) && limit >= 1
    ensures var all := Select(Of(table, mid), f);
            var p := FetchPage(table, mid, f, r.cursor, limit);
            ReaderOk(Of(table, mid), f, Receive(r, p))
            && (!p.hasMore ==> r.received + p.items == all)
            && (r.received != all ==> p.items != [])
  {
    var p := FetchPage(table, mid, f, r.cursor, limit);
    PageIs(table, mid, f, r.cursor, limit);
    ReceivedAndRest(Of(table, mid), f, r);
    if p.items != [] {
      Advance(Of(table, mid), f, r, p.items);
    }
  }

  datatype Op = Write(action: Action) | Poll(limit: nat)

  /** Writers' statements and the reader's polls in any order, from table `table` on. */
  function RunWithReader(c: Chain, table: seq<Row>, mid: int, f: Filter, ops: seq<Op>): (State, Reader) {
    if ops == [] then (Quiet(table), Reader([], 0))
    else
      var (s, r) := RunWithReader(c, table, mid, f, ops[..|ops| - 1]);
      match ops[|ops| - 1]
      case Write(a) => (Step(c, s, a), r)
      case Poll(limit) => (s, Receive(r, FetchPage(s.table, mid, f, r.cursor, limit)))
  }

  ghost predicate Exact(c: Chain, mid: int, f: Filter, s: State, r: Reader) {
    Inv(c, s) && ReaderOk(Of(s.table, mid), f, r)
  }

  lemma LongerLogStaysOk(log: seq<Row>, longer: seq<Row>, f: Filter, r: Reader)
    requires ReaderOk(log, f, r) && log <= longer
    ensures ReaderOk(longer, f, r)
  {
    assert longer[..r.cursor] == log[..r.cursor];
  }

  lemma WriteKeepsExact(c: Chain, mid: int, f: Filter, s: State, r: Reader, a: Action)
    requires Exact(c, mid, f, s, r)
    ensures Exact(c, mid, f, Step(c, s, a), r)
  {
    StepKeepsInv(c, s, a);
    OfGrows(s.table, Step(c, s, a).table, mid);
    LongerLogStaysOk(Of(s.table, mid), Of(Step(c, s, a).table, mid), f, r);
  }

  lemma PollKeepsExact(c: Chain, mid: int, f: Filter, s: State, r: Reader, limit: nat)
    requires Exact(c, mid, f, s, r) && limit >= 1
    ensures Exact(c, mid, f, s, Receive(r, FetchPage(s.table, mid, f, r.cursor, limit)))
  {
    assert Log(c, mid, Of(s.table, mid));
    PollKeepsReader(s.table, mid, f, limit, r);
  }

  lemma {:induction false} ReaderStaysExact(c: Chain, table: seq<Row>, mid: int, f: Filter, ops: seq<Op>)
    requires LogsOk(c, table) && forall k :: 0 <= k < |ops| && ops[k].Poll? ==> ops[k].limit >= 1
    ensures var (s, r) := RunWithReader(c, table, mid, f, ops); Exact(c, mid, f, s, r)
  {
    if ops == [] {
      QuietInv(c, table);
      assert Of(table, mid)[..0] == [];
    } else {
      ReaderStaysExact(c, table, mid, f, ops[..|ops| - 1]);
      var (s, r) := RunWithReader(c, table, mid, f, ops[..|ops| - 1]);
      match ops[|ops| - 1]
      case Write(a) => WriteKeepsExact(c, mid, f, s, r, a);
      case Poll(limit) => PollKeepsExact(c, mid, f, s, r, limit);
    }
  }

  /** Whatever the table at the start and whatever the writers do meanwhile, the reader has received
      every matching row up to its cursor once, in sequence order, and nothing else; a poll that reports
      no more rows completes it. */
  lemma {:induction false} ReaderReceivesEveryEventOnce(c: Chain, table: seq<Row>, mid: int, f: Filter, ops: seq<Op>, limit: nat)
    requires LogsOk(c, table)
    requires limit >= 1 && forall k :: 0 <= k < |ops| && ops[k].Poll? ==> ops[k].limit >= 1
    ensures var (s, r) := RunWithReader(c, table, mid, f, ops);
            var all := Select(CommittedLog(s, mid), f);
            var p := FetchPage(s.table, mid, f, r.cursor, limit);
            r.received <= all && Increasing(r.received)
            && (!p.hasMore ==> r.received + p.items == all)
            && (r.received != all ==> p.items != [])
  {
    ReaderStaysExact(c, table, mid, f, ops);
    var (s, r) := RunWithReader(c, table, mid, f, ops);
    CommittedLogIs(c, s, mid);
    PollKeepsReader(s.table, mid, f, limit, r);
    ReceivedAndRest(Of(s.table, mid), f, r);
    ReceivedInOrder(Of(s.table, mid), f, r);
  }

  /** The same in terms of the table and the request alone: the reader has exactly the committed rows of
      the migration up to its cursor that were asked for, in increasing order and so each once; with a last
      page it has all of them. */
  lemma ReaderHasWhatWasAsked(c: Chain, table: seq<Row>, mid: int, f: Filter, ops: seq<Op>, limit: nat)
    requires LogsOk(c, table)
    requires limit >= 1 && forall k :: 0 <= k < |ops| && ops[k].Poll? ==> ops[k].limit >= 1
    ensures var (s, r) := RunWithReader(c, table, mid, f, ops);
            var p := FetchPage(s.table, mid, f, r.cursor, limit);
            Increasing(r.received)
            && (forall x :: x in r.received <==>
                  x in s.table && x.event.migrationId == mid && Asked(f, x) && x.event.sequenceId <= r.cursor)
            && (!p.hasMore ==> forall x ::
                  x in s.table && x.event.migrationId == mid && Asked(f, x) ==> x in r.received + p.items)
  {
    ReaderStaysExact(c, table, mid, f, ops);
    var (s, r) := RunWithReader(c, table, mid, f, ops);
    assert Log(c, mid, Of(s.table, mid));
    ReceivedInOrder(Of(s.table, mid), f, r);
    SelectMeans(Of(s.table, mid)[..r.cursor], f);
    forall x
      ensures x in r.received <==>
              x in s.table && x.event.migrationId == mid && Asked(f, x) && x.event.sequenceId <= r.cursor
    {
      BehindCursor(Of(s.table, mid), r.cursor, x);
      OfMeans(s.table, mid, x);
    }
    PageHolds(s.table, mid, f, r.cursor, limit);
  }

  lemma ReceivedInOrder(log: seq<Row>, f: Filter, r: Reader)
    requires Numbered1ToN(log) && ReaderOk(log, f, r)
    ensures Increasing(r.received)
  {
    WhereIncreasing(log[..r.cursor], f, 0);
  }
}
