/** The audit log as CSV, and a reader for section 2 of RFC 4180 (LF line ends accepted). */
module CsvExport {

  import opened Protocol
  import opened Text

  const EXPORT_MAX_ROWS := 10_000

  /** One audit row. `detail` is its JSON text, or None for a JSON null; identifiers,
      timestamps and event names are already printed. */
  datatype AuditRow = AuditRow(
    id: string, ts: string, eventType: string, actorId: string,
    actorName: Option<string>, sessionId: Option<string>, detail: Option<string>)

  /** Characters that end or open a field. */
  predicate Special(c: char) { c == ',' || c == '"' || c == '\n' || c == '\r' }

  predicate Plain(s: string) { forall i :: 0 <= i < |s| ==> !Special(s[i]) }

  /** Numbers, RFC 3339 timestamps, event names and UUIDs print without special characters. */
  predicate Printable(row: AuditRow) {
    Plain(row.id) && Plain(row.ts) && Plain(row.eventType) && Plain(row.actorId)
  }

  // ---- the printer ----

  predicate FormulaTrigger(c: char) {
    c == '=' || c == '+' || c == '-' || c == '@' || c == '\t' || c == '\r'
  }

  function Guarded(s: string): string {
    if s != "" && FormulaTrigger(s[0]) then "'" + s else s
  }

  function Doubled(s: string): string {
    if s == "" then "" else (if s[0] == '"' then "\"\"" else [s[0]]) + Doubled(s[1..])
  }

  function CsvCell(s: string): string {
    if s != "" && FormulaTrigger(s[0]) then "\"'" + Doubled(s) + "\"" else "\"" + Doubled(s) + "\""
  }

  function OrEmpty(s: Option<string>): string { if s.Some? then s.value else "" }

  function Detail(row: AuditRow): string { if row.detail.None? then "" else CsvCell(row.detail.value) }

  const NAMES := ["id", "timestamp", "event_type", "actor_id", "actor_name", "session_id", "detail"]

  /** The fields of a row as printed. */
  function Cells(row: AuditRow): (cells: seq<string>)
    ensures |cells| == 7
  {
    [row.id, row.ts, row.eventType, row.actorId, CsvCell(OrEmpty(row.actorName)), CsvCell(OrEmpty(row.sessionId)),
     Detail(row)]
  }

  function Join(cells: seq<string>): string
    requires cells != []
  {
    if |cells| == 1 then cells[0] + "\n" else cells[0] + "," + Join(cells[1..])
  }

  function Body(rows: seq<AuditRow>): string {
    if rows == [] then "" else Join(Cells(rows[0])) + Body(rows[1..])
  }

  // ---- the reader ----

  /** Behind an opening quote: up to the closing quote, `""` standing for one quote. */
  function Quoted(s: string): (r: Read<string>)
    ensures r.Read? ==> |r.rest| < |s|
    decreases |s|
  {
    if s == "" then Malformed
    else if s[0] != '"' then Prepend(s[0], Quoted(s[1..]))
    else if |s| >= 2 && s[1] == '"' then Prepend('"', Quoted(s[2..]))
    else Read("", s[1..])
  }

  function Unquoted(s: string): (r: Read<string>)
    ensures r.Read? && |r.rest| <= |s|
  {
    if s == "" || Special(s[0]) then Read("", s) else Prepend(s[0], Unquoted(s[1..]))
  }

  function Field(s: string): (r: Read<string>)
    ensures r.Read? ==> |r.rest| <= |s|
  {
    if s != "" && s[0] == '"' then Quoted(s[1..]) else Unquoted(s)
  }

  function Record(s: string): (r: Read<seq<string>>)
    ensures r.Read? && s != "" ==> |r.rest| < |s|
    decreases |s|
  {
    var field := Field(s);
    if field.Malformed? then Malformed
    else if field.rest == "" then Read([field.value], "")
    else if field.rest[0] == '\n' then Read([field.value], field.rest[1..])
    else if |field.rest| >= 2 && field.rest[..2] == "\r\n" then Read([field.value], field.rest[2..])
    else if field.rest[0] == ',' then
      var more := Record(field.rest[1..]);
      if more.Read? then Read([field.value] + more.value, more.rest) else Malformed
    else Malformed
  }

  function Parse(s: string): Option<seq<seq<string>>>
    decreases |s|
  {
    if s == "" then Some([])
    else
      var record := Record(s);
      if record.Malformed? then None
      else
        var more := Parse(record.rest);
        if more.None? then None else Some([record.value] + more.value)
  }

  // ---- what the reader makes of the printer's output ----

  /** A field text that the reader takes as `value`, whatever separator follows. */
  ghost predicate ReadsAs(cell: string, value: string) {
    forall tail: string :: tail != "" && (tail[0] == ',' || tail[0] == '\n') ==>
      Field(cell + tail) == Read(value, tail)
  }

  lemma {:induction false} PlainReads(s: string, tail: string)
    requires Plain(s)
    requires tail != "" && Special(tail[0])
    ensures Unquoted(s + tail) == Read(s, tail)
  {
    if s == "" {
      assert s + tail == tail;
    } else {
      PlainReads(s[1..], tail);
      assert (s + tail)[1..] == s[1..] + tail;
      assert s == [s[0]] + s[1..];
    }
  }

  lemma PlainReadsAs(s: string)
    requires Plain(s)
    ensures ReadsAs(s, s)
  {
    forall tail: string | tail != "" && (tail[0] == ',' || tail[0] == '\n') ensures Field(s + tail) == Read(s, tail) {
      PlainReads(s, tail);
    }
  }

  lemma {:induction false} QuotedReads(s: string, tail: string)
    requires tail != "" && tail[0] != '"'
    ensures Quoted(Doubled(s) + ("\"" + tail)) == Read(s, tail)
  {
    var end := "\"" + tail;
    if s == "" {
      assert Doubled(s) + end == end && end[1..] == tail;
    } else {
      QuotedReads(s[1..], tail);
      assert s == [s[0]] + s[1..];
      DoubledHead(s, end);
    }
  }

  lemma Behind(head: string, middle: string, end: string)
    ensures (head + middle + end)[..|head|] == head
    ensures (head + middle + end)[|head|..] == middle + end
  {
  }

  lemma DoubledHead(s: string, end: string)
    requires s != ""
    ensures var t := Doubled(s) + end;
            if s[0] == '"' then |t| >= 2 && t[0] == '"' && t[1] == '"' && t[2..] == Doubled(s[1..]) + end
            else t != "" && t[0] == s[0] && t[1..] == Doubled(s[1..]) + end
  {
    var head := if s[0] == '"' then "\"\"" else [s[0]];
    Behind(head, Doubled(s[1..]), end);
    assert Doubled(s) == head + Doubled(s[1..]);
  }

  lemma CellText(s: string, tail: string)
    ensures CsvCell(s) + tail == "\"" + (Doubled(Guarded(s)) + ("\"" + tail))
  {
    if s != "" && FormulaTrigger(s[0]) {
      assert Guarded(s)[1..] == s;
      assert Doubled(Guarded(s)) == "'" + Doubled(s);
    }
  }

  lemma CellReadsAs(s: string)
    ensures ReadsAs(CsvCell(s), Guarded(s))
  {
    forall tail: string | tail != "" && (tail[0] == ',' || tail[0] == '\n')
      ensures Field(CsvCell(s) + tail) == Read(Guarded(s), tail)
    {
      CellText(s, tail);
      var body := Doubled(Guarded(s)) + ("\"" + tail);
      assert (CsvCell(s) + tail)[1..] == body;
      QuotedReads(Guarded(s), tail);
    }
  }

  lemma FieldBefore(cell: string, value: string, tail: string)
    requires ReadsAs(cell, value) && tail != "" && (tail[0] == ',' || tail[0] == '\n')
    ensures Field(cell + tail) == Read(value, tail)
  {
  }

  lemma LastField(s: string, value: string, tail: string)
    requires Field(s) == Read(value, "\n" + tail)
    ensures Record(s) == Read([value], tail)
  {
    assert ("\n" + tail)[1..] == tail;
  }

  lemma MoreFields(s: string, value: string, more: string, values: seq<string>, tail: string)
    requires Field(s) == Read(value, "," + more) && Record(more) == Read(values, tail)
    ensures Record(s) == Read([value] + values, tail)
  {
    assert ("," + more)[1..] == more;
  }

  lemma Regroup(a: string, b: string, c: string, d: string)
    ensures a + b + c + d == a + (b + (c + d))
    ensures a + b + d == a + (b + d)
  {
  }

  lemma JoinText(cells: seq<string>, tail: string)
    requires cells != []
    ensures |cells| == 1 ==> Join(cells) + tail == cells[0] + ("\n" + tail)
    ensures |cells| > 1 ==> Join(cells) + tail == cells[0] + ("," + (Join(cells[1..]) + tail))
  {
    Regroup(cells[0], "\n", "", tail);
    if |cells| > 1 {
      Regroup(cells[0], ",", Join(cells[1..]), tail);
    }
  }

  lemma FirstCellReads(cells: seq<string>, values: seq<string>, tail: string)
    requires cells != [] && |cells| == |values| && ReadsAs(cells[0], values[0])
    requires |cells| > 1 ==> Record(Join(cells[1..]) + tail) == Read(values[1..], tail)
    ensures Record(Join(cells) + tail) == Read(values, tail)
  {
    hide Record, Field, ReadsAs, Join;
    JoinText(cells, tail);
    if |cells| == 1 {
      FieldBefore(cells[0], values[0], "\n" + tail);
      LastField(Join(cells) + tail, values[0], tail);
      assert values == [values[0]];
    } else {
      var more := Join(cells[1..]) + tail;
      FieldBefore(cells[0], values[0], "," + more);
      MoreFields(Join(cells) + tail, values[0], more, values[1..], tail);
      assert values == [values[0]] + values[1..];
    }
  }

  lemma {:induction false} RecordReads(cells: seq<string>, values: seq<string>, tail: string)
    requires cells != [] && |cells| == |values|
    requires forall i :: 0 <= i < |cells| ==> ReadsAs(cells[i], values[i])
    ensures Record(Join(cells) + tail) == Read(values, tail)
  {
    if |cells| > 1 {
      RecordReads(cells[1..], values[1..], tail);
    }
    FirstCellReads(cells, values, tail);
  }

  /** What a reader recovers of a row: every field, guarded where it is quoted. */
  function Recovered(row: AuditRow): (values: seq<string>)
    ensures |values| == 7
  {
    [row.id, row.ts, row.eventType, row.actorId, Guarded(OrEmpty(row.actorName)), Guarded(OrEmpty(row.sessionId)),
     Guarded(OrEmpty(row.detail))]
  }

  function RecoveredAll(rows: seq<AuditRow>): seq<seq<string>> {
    if rows == [] then [] else [Recovered(rows[0])] + RecoveredAll(rows[1..])
  }

  lemma RowReads(row: AuditRow, tail: string)
    requires Printable(row)
    ensures Record(Join(Cells(row)) + tail) == Read(Recovered(row), tail)
  {
    PlainReadsAs(row.id);
    PlainReadsAs(row.ts);
    PlainReadsAs(row.eventType);
    PlainReadsAs(row.actorId);
    CellReadsAs(OrEmpty(row.actorName));
    CellReadsAs(OrEmpty(row.sessionId));
    if row.detail.None? {
      PlainReadsAs("");
    } else {
      CellReadsAs(row.detail.value);
    }
    RecordReads(Cells(row), Recovered(row), tail);
  }

  lemma {:induction false} BodyReads(rows: seq<AuditRow>)
    requires forall i :: 0 <= i < |rows| ==> Printable(rows[i])
    ensures Parse(Body(rows)) == Some(RecoveredAll(rows))
  {
    if rows != [] {
      BodyReads(rows[1..]);
      RowReads(rows[0], Body(rows[1..]));
    }
  }

  lemma HeaderReads(tail: string)
    ensures Record(Join(NAMES) + tail) == Read(NAMES, tail)
  {
    forall i | 0 <= i < |NAMES| ensures ReadsAs(NAMES[i], NAMES[i]) {
      PlainReadsAs(NAMES[i]);
    }
    RecordReads(NAMES, NAMES, tail);
  }

  /** One record per row behind the header, each with exactly the row's seven fields,
      whatever quotes, commas and line ends the texts contain. */
  lemma ExportRoundTrip(rows: seq<AuditRow>)
    requires forall i :: 0 <= i < |rows| ==> Printable(rows[i])
    ensures Parse(Join(NAMES) + Body(rows)) == Some([NAMES] + RecoveredAll(rows))
  {
    HeaderReads(Body(rows));
    BodyReads(rows);
  }

  /** No recovered text can start a spreadsheet formula, and the guard can be told apart:
      two texts share a guarded form only if one is the other behind a `'`. */
  lemma GuardNeutralises(a: string, b: string)
    ensures Guarded(a) != "" ==> Guarded(a)[0] !in "=+-@\t\r"
    ensures Guarded(a) == if a != "" && a[0] in "=+-@\t\r" then "'" + a else a
    ensures Guarded(a) == Guarded(b) <==>
              (a == b || (Guarded(a) != a && b == "'" + a) || (Guarded(b) != b && a == "'" + b))
  {
    if Guarded(a) == Guarded(b) && Guarded(a) != a && Guarded(b) != b {
      assert a == ("'" + a)[1..];
      assert b == ("'" + b)[1..];
    }
  }

  /** The text of an optional field, empty if there is none. */
  predicate IsText(value: string, field: Option<string>) {
    match field
    case None => value == ""
    case Some(text) => value == if text != "" && text[0] in "=+-@\t\r" then "'" + text else text
  }

  lemma {:induction false} RecoveredAt(rows: seq<AuditRow>, i: nat)
    requires i < |rows|
    ensures |RecoveredAll(rows)| == |rows| && RecoveredAll(rows)[i] == Recovered(rows[i])
    decreases |rows|
  {
    RecoveredSize(rows);
    if i > 0 {
      RecoveredAt(rows[1..], i - 1);
    }
  }

  lemma {:induction false} RecoveredSize(rows: seq<AuditRow>)
    ensures |RecoveredAll(rows)| == |rows|
  {
    if rows != [] {
      RecoveredSize(rows[1..]);
    }
  }

  /** Read back, the export is the header and, row for row, these seven fields. */
  lemma FieldsRecovered(rows: seq<AuditRow>, i: nat)
    requires forall k :: 0 <= k < |rows| ==> Printable(rows[k])
    requires i < |rows|
    ensures var records := Parse(Join(NAMES) + Body(rows));
            && records.Some? && |records.value| == |rows| + 1
            && records.value[0]
               == ["id", "timestamp", "event_type", "actor_id", "actor_name", "session_id", "detail"]
            && var fields, row := records.value[i + 1], rows[i];
               && |fields| == 7
               && fields[0] == row.id && fields[1] == row.ts && fields[2] == row.eventType && fields[3] == row.actorId
               && IsText(fields[4], row.actorName) && IsText(fields[5], row.sessionId) && IsText(fields[6], row.detail)
  {
    hide Parse, Join, Body, RecoveredAll, Recovered, IsText;
    ExportRoundTrip(rows);
    RecoveredAt(rows, i);
    RowFields(rows[i]);
  }

  lemma RowFields(row: AuditRow)
    ensures var fields := Recovered(row);
            && fields[0] == row.id && fields[1] == row.ts && fields[2] == row.eventType && fields[3] == row.actorId
            && IsText(fields[4], row.actorName) && IsText(fields[5], row.sessionId) && IsText(fields[6], row.detail)
  {
    hide Guarded;
    TextIsGuarded(row.actorName);
    TextIsGuarded(row.sessionId);
    TextIsGuarded(row.detail);
  }

  lemma TextIsGuarded(field: Option<string>)
    ensures IsText(Guarded(OrEmpty(field)), field)
  {
    GuardNeutralises(OrEmpty(field), "");
  }

  /** The export loop: header, then one line per row; too many rows are refused. */
  method ExportAudit(rows: seq<AuditRow>) returns (csv: Option<string>)
    ensures csv == if |rows| > 10_000 then None else Some(Join(NAMES) + Body(rows))
  {
    if |rows| > EXPORT_MAX_ROWS {
      return None;
    }
    var text := Join(NAMES);
    var i := 0;
    assert rows[0..] == rows;
    while i < |rows|
      invariant 0 <= i <= |rows|
      invariant text + Body(rows[i..]) == Join(NAMES) + Body(rows)
    {
      assert rows[i..][1..] == rows[i + 1..];
      Regroup(text, Join(Cells(rows[i])), "", Body(rows[i + 1..]));
      text := WriteRow(text, rows[i]);
      i := i + 1;
    }
    assert rows[|rows|..] == [] && text + "" == text;
    return Some(text);
  }

  method WriteRow(csv: string, row: AuditRow) returns (text: string)
    ensures text == csv + Join(Cells(row))
  {
    var actorName := CsvCell(OrEmpty(row.actorName));
    var sessionId := CsvCell(OrEmpty(row.sessionId));
    var detail := Detail(row);
    text := csv;
    JoinStep(text, row.id, [row.ts, row.eventType, row.actorId, actorName, sessionId, detail]);
    text := text + row.id + ",";
    JoinStep(text, row.ts, [row.eventType, row.actorId, actorName, sessionId, detail]);
    text := text + row.ts + ",";
    JoinStep(text, row.eventType, [row.actorId, actorName, sessionId, detail]);
    text := text + row.eventType + ",";
    JoinStep(text, row.actorId, [actorName, sessionId, detail]);
    text := text + row.actorId + ",";
    JoinStep(text, actorName, [sessionId, detail]);
    text := text + actorName + ",";
    JoinStep(text, sessionId, [detail]);
    text := text + sessionId + ",";
    Regroup(text, detail, "", "\n");
    text := text + detail + "\n";
  }

  lemma JoinStep(text: string, cell: string, more: seq<string>)
    requires more != []
    ensures text + Join([cell] + more) == (text + cell + ",") + Join(more)
  {
    assert ([cell] + more)[1..] == more;
    Regroup(text, cell, ",", Join(more));
    Regroup(text, cell + ",", "", Join(more));
  }
}
