/** The CSV writer of `frontend/src/lib/csv.ts`, read back by a parser for the grammar in section 2
    of RFC 4180 (with TEXTDATA widened to every character but comma, quote, CR and LF). */
module Csv {
  import opened Options

  /** `None` is null or undefined; any other value is given as its string. */
  datatype Column<!T> = Column(header: string, value: T -> Option<string>)

  const TRIGGERS := {'=', '+', '-', '@', '\t', '\r'}

  /** A cell that a spreadsheet would evaluate gets a single quote in front. */
  function Neutralised(raw: Option<string>): string {
    match raw
    case None => ""
    case Some(s) => if s != "" && s[0] in TRIGGERS then "'" + s else s
  }

  predicate Special(c: char) { c == '"' || c == ',' || c == '\r' || c == '\n' }

  predicate NeedsQuotes(s: string) { exists k :: 0 <= k < |s| && Special(s[k]) }

  function DoubleQuotes(s: string): string {
    if s == "" then "" else (if s[0] == '"' then "\"\"" else [s[0]]) + DoubleQuotes(s[1..])
  }

  function EscapeCell(raw: Option<string>): string {
    var s := Neutralised(raw);
    if NeedsQuotes(s) then "\"" + DoubleQuotes(s) + "\"" else s
  }

  function Join(parts: seq<string>, separator: string): string {
    if parts == [] then "" else if |parts| == 1 then parts[0] else parts[0] + separator + Join(parts[1..], separator)
  }

  function Line(cells: seq<Option<string>>): string {
    Join(seq(|cells|, i requires 0 <= i < |cells| => EscapeCell(cells[i])), ",")
  }

  function HeaderCells<T>(columns: seq<Column<T>>): seq<Option<string>> {
    seq(|columns|, i requires 0 <= i < |columns| => Some(columns[i].header))
  }

  function RowCells<T>(row: T, columns: seq<Column<T>>): seq<Option<string>> {
    seq(|columns|, i requires 0 <= i < |columns| => columns[i].value(row))
  }

  function Table<T>(rows: seq<T>, columns: seq<Column<T>>): seq<seq<Option<string>>> {
    seq(|rows|, i requires 0 <= i < |rows| => RowCells(rows[i], columns))
  }

  function LinesOf(records: seq<seq<Option<string>>>): seq<string> {
    seq(|records|, i requires 0 <= i < |records| => Line(records[i]))
  }

  const CRLF := "\r\n"

  function RowsToCsv<T>(rows: seq<T>, columns: seq<Column<T>>): string {
    var head := Line(HeaderCells(columns));
    var body := Join(LinesOf(Table(rows, columns)), CRLF);
    if |body| > 0 then head + CRLF + body + CRLF else head + CRLF
  }

  // ----- The parser ----------------------------------------------------------------------

  /** The rest of a quoted field, behind its opening quote. */
  function ParseQuoted(s: string): (r: Option<(string, string)>)
    ensures r.Some? ==> |r.value.1| < |s|
  {
    if s == "" then None
    else if s[0] != '"' then
      match ParseQuoted(s[1..]) case None => None case Some((t, rest)) => Some(([s[0]] + t, rest))
    else if |s| >= 2 && s[1] == '"' then
      match ParseQuoted(s[2..]) case None => None case Some((t, rest)) => Some(("\"" + t, rest))
    else Some(("", s[1..]))
  }

  function ParsePlain(s: string): (r: (string, string))
    ensures |r.1| <= |s|
  {
    if s == "" || s[0] in {',', '"', '\r', '\n'} then ("", s)
    else var (t, rest) := ParsePlain(s[1..]); ([s[0]] + t, rest)
  }

  function ParseField(s: string): (r: Option<(string, string)>)
    ensures r.Some? ==> |r.value.1| <= |s|
  {
    if s != "" && s[0] == '"' then ParseQuoted(s[1..]) else Some(ParsePlain(s))
  }

  function ParseRecord(s: string): (r: Option<(seq<string>, string)>)
    ensures r.Some? ==> |r.value.1| <= |s| && r.value.0 != []
    decreases |s|
  {
    match ParseField(s)
    case None => None
    case Some((f, rest)) =>
      if rest == "" || rest[0] != ',' then Some(([f], rest))
      else
        match ParseRecord(rest[1..])
        case None => None
        case Some((fs, rest')) => Some(([f] + fs, rest'))
  }

  /** Records separated by CRLF; the last one may end in CRLF too. */
  function ParseFile(s: string): (r: Option<seq<seq<string>>>)
    ensures r.Some? ==> r.value != [] && r.value[0] != []
    decreases |s|
  {
    match ParseRecord(s)
    case None => None
    case Some((record, rest)) =>
      if rest == "" || rest == CRLF then Some([record])
      else if |rest| >= 2 && rest[..2] == CRLF then
        match ParseFile(rest[2..])
        case None => None
        case Some(records) => Some([record] + records)
      else None
  }

  // ----- Round trip ----------------------------------------------------------------------

  /** Where a field may end. */
  predicate FieldEnd(r: string) { r == "" || r[0] == ',' || r[0] == '\r' }

  predicate RecordEnd(r: string) { r == "" || r[0] == '\r' }

  lemma {:induction false} QuotedRoundTrip(s: string, r: string)
    requires FieldEnd(r)
    ensures ParseQuoted(DoubleQuotes(s) + ("\"" + r)) == Some((s, r))
  {
    var t := DoubleQuotes(s) + ("\"" + r);
    if s == "" {
      assert t == "\"" + r && t[1..] == r;
    } else {
      var tail := DoubleQuotes(s[1..]) + ("\"" + r);
      QuotedRoundTrip(s[1..], r);
      if s[0] == '"' {
        assert t == "\"\"" + tail && t[2..] == tail;
      } else {
        assert t == [s[0]] + tail && t[1..] == tail;
      }
      assert s == [s[0]] + s[1..];
    }
  }

  lemma {:induction false} PlainRoundTrip(s: string, r: string)
    requires FieldEnd(r) && !NeedsQuotes(s)
    ensures ParsePlain(s + r) == (s, r)
  {
    if s == "" {
      assert s + r == r;
    } else {
      assert !Special(s[0]);
      assert forall k :: 0 <= k < |s[1..]| ==> s[1..][k] == s[k + 1];
      PlainRoundTrip(s[1..], r);
      assert (s + r)[1..] == s[1..] + r;
      assert s == [s[0]] + s[1..];
    }
  }

  lemma CellRoundTrip(raw: Option<string>, r: string)
    requires FieldEnd(r)
    ensures ParseField(EscapeCell(raw) + r) == Some((Neutralised(raw), r))
  {
    var s := Neutralised(raw);
    if NeedsQuotes(s) {
      QuotedRoundTrip(s, r);
      ReadQuoted(DoubleQuotes(s), s, r);
    } else {
      PlainRoundTrip(s, r);
      ReadPlain(s, r);
    }
  }

  lemma ReadQuoted(d: string, s: string, r: string)
    requires ParseQuoted(d + ("\"" + r)) == Some((s, r))
    ensures ParseField("\"" + d + "\"" + r) == Some((s, r))
  {
    Quoted(d, r);
  }

  lemma Quoted(d: string, r: string)
    ensures var t := "\"" + d + "\"" + r; t != "" && t[0] == '"' && t[1..] == d + ("\"" + r)
  {
  }

  lemma ReadPlain(s: string, r: string)
    requires FieldEnd(r) && !NeedsQuotes(s) && ParsePlain(s + r) == (s, r)
    ensures ParseField(s + r) == Some((s, r))
  {
    if s != "" {
      assert !Special(s[0]) && (s + r)[0] == s[0];
    } else {
      assert s + r == r;
    }
  }

  function NeutralCells(cells: seq<Option<string>>): seq<string> {
    seq(|cells|, i requires 0 <= i < |cells| => Neutralised(cells[i]))
  }

  lemma LineStep(cells: seq<Option<string>>)
    requires |cells| > 1
    ensures Line(cells) == EscapeCell(cells[0]) + "," + Line(cells[1..])
    ensures NeutralCells(cells) == [Neutralised(cells[0])] + NeutralCells(cells[1..])
  {
    var parts := seq(|cells|, i requires 0 <= i < |cells| => EscapeCell(cells[i]));
    var rest := cells[1..];
    assert parts[1..] == seq(|rest|, i requires 0 <= i < |rest| => EscapeCell(rest[i]));
  }

  lemma {:induction false} RecordRoundTrip(cells: seq<Option<string>>, r: string)
    requires cells != [] && RecordEnd(r)
    ensures ParseRecord(Line(cells) + r) == Some((NeutralCells(cells), r))
    decreases |cells|
  {
    if |cells| == 1 {
      CellRoundTrip(cells[0], r);
      ReadLastField(EscapeCell(cells[0]), Neutralised(cells[0]), r);
      LineOne(cells);
    } else {
      var e, more := EscapeCell(cells[0]), Line(cells[1..]);
      LineStep(cells);
      RecordRoundTrip(cells[1..], r);
      CellRoundTrip(cells[0], "," + (more + r));
      ReadField(e, Neutralised(cells[0]), more + r, NeutralCells(cells[1..]), r);
      Regroup(e, more, r);
    }
  }

  lemma LineOne(cells: seq<Option<string>>)
    requires |cells| == 1
    ensures Line(cells) == EscapeCell(cells[0]) && NeutralCells(cells) == [Neutralised(cells[0])]
  {
  }

  lemma ReadLastField(e: string, f: string, r: string)
    requires ParseField(e + r) == Some((f, r)) && RecordEnd(r)
    ensures ParseRecord(e + r) == Some(([f], r))
  {
  }

  lemma Regroup(e: string, more: string, r: string)
    ensures (e + "," + more) + r == e + ("," + (more + r))
  {
  }

  lemma ReadField(e: string, f: string, tail: string, fs: seq<string>, r: string)
    requires ParseField(e + ("," + tail)) == Some((f, "," + tail)) && ParseRecord(tail) == Some((fs, r))
    ensures ParseRecord(e + ("," + tail)) == Some(([f] + fs, r))
  {
    assert ("," + tail)[1..] == tail;
  }

  /** Every record followed by CRLF. */
  function Terminated(records: seq<seq<Option<string>>>): string {
    if records == [] then "" else Line(records[0]) + (CRLF + Terminated(records[1..]))
  }

  function NeutralTable(records: seq<seq<Option<string>>>): seq<seq<string>> {
    seq(|records|, i requires 0 <= i < |records| => NeutralCells(records[i]))
  }

  lemma {:induction false} FileRoundTrip(records: seq<seq<Option<string>>>)
    requires records != [] && forall i :: 0 <= i < |records| ==> records[i] != []
    ensures ParseFile(Terminated(records)) == Some(NeutralTable(records))
    decreases |records|
  {
    TerminatedStep(records);
    if |records| == 1 {
      TerminatedOne(records);
      RecordRoundTrip(records[0], CRLF);
      ReadLastRecord(Line(records[0]), NeutralCells(records[0]));
    } else {
      var tail := Terminated(records[1..]);
      TerminatedStep(records[1..]);
      RecordRoundTrip(records[0], CRLF + tail);
      FileRoundTrip(records[1..]);
      ReadRecord(Line(records[0]), NeutralCells(records[0]), tail, NeutralTable(records[1..]));
    }
  }

  lemma TerminatedStep(records: seq<seq<Option<string>>>)
    requires records != []
    ensures Terminated(records) == Line(records[0]) + (CRLF + Terminated(records[1..]))
    ensures Terminated(records) != ""
    ensures NeutralTable(records) == [NeutralCells(records[0])] + NeutralTable(records[1..])
  {
    NonEmpty(Line(records[0]), CRLF, Terminated(records[1..]));
  }

  lemma NonEmpty(a: string, b: string, c: string)
    requires b != ""
    ensures a + (b + c) != ""
  {
    assert |a + (b + c)| == |a| + |b| + |c|;
  }

  lemma TerminatedOne(records: seq<seq<Option<string>>>)
    requires |records| == 1
    ensures Terminated(records) == Line(records[0]) + CRLF
    ensures NeutralTable(records) == [NeutralCells(records[0])]
  {
    assert Terminated(records[1..]) == "" && CRLF + "" == CRLF;
  }

  lemma ReadLastRecord(line: string, cells: seq<string>)
    requires ParseRecord(line + CRLF) == Some((cells, CRLF))
    ensures ParseFile(line + CRLF) == Some([cells])
  {
  }

  lemma ReadRecord(line: string, cells: seq<string>, tail: string, table: seq<seq<string>>)
    requires ParseRecord(line + (CRLF + tail)) == Some((cells, CRLF + tail)) && tail != "" && ParseFile(tail) == Some(table)
    ensures ParseFile(line + (CRLF + tail)) == Some([cells] + table)
  {
    assert (CRLF + tail)[2..] == tail && (CRLF + tail)[..2] == CRLF;
  }

  lemma {:induction false} JoinTerminates(records: seq<seq<Option<string>>>)
    requires records != []
    ensures Join(LinesOf(records), CRLF) + CRLF == Terminated(records)
    decreases |records|
  {
    if |records| == 1 {
      assert Terminated(records[1..]) == "";
    } else {
      JoinTerminates(records[1..]);
      assert LinesOf(records)[1..] == LinesOf(records[1..]);
    }
  }

  /** A single row that prints as the empty line is dropped: the body is empty. */
  predicate DropsRow<T>(rows: seq<T>, columns: seq<Column<T>>) {
    |rows| == 1 && |columns| == 1 && Neutralised(columns[0].value(rows[0])) == ""
  }

  lemma {:induction false} BodyEmptyIff(records: seq<seq<Option<string>>>, width: nat)
    requires forall i :: 0 <= i < |records| ==> |records[i]| == width
    requires width > 0
    ensures Join(LinesOf(records), CRLF) == "" <==>
            (records == [] || (|records| == 1 && width == 1 && Neutralised(records[0][0]) == ""))
  {
    if |records| == 1 {
      var cells := records[0];
      assert Join(LinesOf(records), CRLF) == Line(cells);
      if width == 1 {
        assert Line(cells) == EscapeCell(cells[0]);
      } else {
        LineStep(cells);
      }
    }
  }

  /** The header and the rows, each cell formula-neutralised. */
  function Expected<T>(rows: seq<T>, columns: seq<Column<T>>): seq<seq<string>> {
    [NeutralCells(HeaderCells(columns))] + NeutralTable(Table(rows, columns))
  }

  lemma PrintsTerminated<T>(rows: seq<T>, columns: seq<Column<T>>)
    requires columns != []
    ensures RowsToCsv(rows, columns) ==
              Terminated([HeaderCells(columns)] + if DropsRow(rows, columns) then [] else Table(rows, columns))
  {
    var records := Table(rows, columns);
    var head := HeaderCells(columns);
    BodyEmptyIff(records, |columns|);
    var kept := if DropsRow(rows, columns) then [] else records;
    TerminatedCons(head, kept);
    if kept != [] {
      JoinTerminates(records);
      Associate(Line(head), CRLF, Join(LinesOf(records), CRLF));
    }
  }

  lemma TerminatedCons(head: seq<Option<string>>, kept: seq<seq<Option<string>>>)
    ensures Terminated([head] + kept) == Line(head) + (CRLF + Terminated(kept))
    ensures kept == [] ==> Terminated([head] + kept) == Line(head) + CRLF
  {
    assert ([head] + kept)[1..] == kept;
    assert CRLF + "" == CRLF;
  }

  lemma Associate(a: string, b: string, c: string)
    ensures a + b + c + b == a + (b + (c + b))
  {
  }

  /** Parsing the printed text gives back the header and every row, except exactly when there are no
      columns, or one column and one row whose cell is empty. */
  lemma RoundTripIff<T>(rows: seq<T>, columns: seq<Column<T>>)
    ensures (ParseFile(RowsToCsv(rows, columns)) == Some(Expected(rows, columns)))
            <==> (columns != [] && !DropsRow(rows, columns))
  {
    if columns == [] {
      assert Expected(rows, columns)[0] == [];
    } else {
      ParsesKeptRows(rows, columns);
    }
  }

  lemma ParsesKeptRows<T>(rows: seq<T>, columns: seq<Column<T>>)
    requires columns != []
    ensures ParseFile(RowsToCsv(rows, columns)) ==
              Some(if DropsRow(rows, columns) then [NeutralCells(HeaderCells(columns))] else Expected(rows, columns))
  {
    PrintsTerminated(rows, columns);
    var kept := if DropsRow(rows, columns) then [] else Table(rows, columns);
    FileRoundTrip([HeaderCells(columns)] + kept);
    TerminatedStep([HeaderCells(columns)] + kept);
    assert ([HeaderCells(columns)] + kept)[1..] == kept;
  }

  /** No cell that a reader of the file sees starts a formula. */
  lemma NoFormulas<T>(rows: seq<T>, columns: seq<Column<T>>, i: nat, j: nat)
    requires columns != []
    ensures var parsed := ParseFile(RowsToCsv(rows, columns));
            parsed.Some?
            && (i < |parsed.value| && j < |parsed.value[i]| && parsed.value[i][j] != "" ==>
                  parsed.value[i][j][0] !in {'=', '+', '-', '@', '\t', '\r'})
  {
    var records := [HeaderCells(columns)] + if DropsRow(rows, columns) then [] else Table(rows, columns);
    PrintsTerminated(rows, columns);
    FileRoundTrip(records);
    if i < |records| && j < |records[i]| { NoTrigger(records[i][j]); }
  }

  lemma NoTrigger(raw: Option<string>)
    ensures Neutralised(raw) != "" ==> Neutralised(raw)[0] !in {'=', '+', '-', '@', '\t', '\r'}
  {
    if raw.Some? && raw.value != "" && raw.value[0] in TRIGGERS {
      assert ("'" + raw.value)[0] == '\'';
    }
  }

  // ----- The file, cell by cell ----------------------------------------------------------

  /** What a reader finds in the cell of `raw`: nothing for a missing value, a quote in front of the six
      characters that would start a formula, and any other value as it is. */
  ghost predicate Reads(cell: string, raw: Option<string>) {
    match raw
    case None => cell == ""
    case Some(s) =>
      cell == if s != "" && (s[0] == '=' || s[0] == '+' || s[0] == '-' || s[0] == '@' || s[0] == '\t' || s[0] == '\r')
              then ['\''] + s else s
  }

  lemma NeutralReads(raw: Option<string>)
    ensures Reads(Neutralised(raw), raw)
  {
  }

  /** A cell is quoted exactly if it holds a comma, a quote or a line break; otherwise it is printed as it
      will be read. */
  lemma QuotedIff(raw: Option<string>, cell: string)
    requires Reads(cell, raw)
    ensures if '"' in cell || ',' in cell || '\r' in cell || '\n' in cell
            then |EscapeCell(raw)| >= |cell| + 2 && EscapeCell(raw)[0] == '"' && EscapeCell(raw)[|EscapeCell(raw)| - 1] == '"'
            else EscapeCell(raw) == cell
  {
    NeutralReads(raw);
    DoublingGrows(cell);
    assert NeedsQuotes(cell) <==> '"' in cell || ',' in cell || '\r' in cell || '\n' in cell;
  }

  lemma {:induction false} DoublingGrows(s: string)
    ensures |DoubleQuotes(s)| >= |s|
  {
    if s == "" {
    } else {
      DoublingGrows(s[1..]);
    }
  }

  /** The reader finds the header row and behind it every row, column by column, except that it finds no row
      at all where a single row of a single column prints as nothing. */
  lemma CellsReadBack<T>(rows: seq<T>, columns: seq<Column<T>>)
    requires columns != []
    ensures ParseFile(RowsToCsv(rows, columns)).Some?
    ensures var table := ParseFile(RowsToCsv(rows, columns)).value;
            |table| == 1 + (if |rows| == 1 && |columns| == 1 && Reads("", columns[0].value(rows[0])) then 0 else |rows|)
            && |table[0]| == |columns|
            && (forall j :: 0 <= j < |columns| ==> Reads(table[0][j], Some(columns[j].header)))
            && forall i :: 0 <= i < |table| - 1 ==>
                 |table[i + 1]| == |columns|
                 && forall j :: 0 <= j < |columns| ==> Reads(table[i + 1][j], columns[j].value(rows[i]))
  {
    ParsesKeptRows(rows, columns);
    forall j | 0 <= j < |columns| ensures Reads(NeutralCells(HeaderCells(columns))[j], Some(columns[j].header)) {
      NeutralReads(Some(columns[j].header));
    }
    forall i, j | 0 <= i < |rows| && 0 <= j < |columns|
      ensures Reads(NeutralTable(Table(rows, columns))[i][j], columns[j].value(rows[i]))
    {
      NeutralReads(columns[j].value(rows[i]));
    }
    if |rows| == 1 && |columns| == 1 { NeutralReads(columns[0].value(rows[0])); }
  }
}
