/** Recording events as lines of an asciicast v2 file, and a reader for such a file. */
module Asciicast {

  import opened Protocol
  import opened Text
  import opened Json
  import opened Utf8

  type u16 = n: int | 0 <= n < 0x1_0000

  datatype RecordingEvent =
    | Output(data: seq<byte>)
    | Resize(cols: u16, rows: u16)
    | ParticipantJoin(userId: string, name: string, role: string)
    | ParticipantLeave(userId: string)
    | Chat(userId: string, name: string, text: string)
    | Stop

  // ---- printing ----

  const MICROS: nat := 1_000_000

  /** Seconds with six decimals. */
  function Time(micros: nat): string {
    Decimal(micros / MICROS) + ("." + Fixed(micros % MICROS, 6))
  }

  function Frame(micros: nat, code: string, payload: string): string {
    "[" + (Time(micros) + (", " + (Quoted(code) + (", " + (payload + "]")))))
  }

  function Code(e: RecordingEvent): string
    requires !e.Stop?
  {
    match e
    case Output(_) => "o"
    case Resize(_, _) => "r"
    case ParticipantJoin(_, _, _) => "j"
    case ParticipantLeave(_) => "l"
    case Chat(_, _, _) => "c"
  }

  function Size(cols: nat, rows: nat): string { Decimal(cols) + ("x" + Decimal(rows)) }

  /** Object members come in the order of their names. */
  function Payload(e: RecordingEvent): string
    requires !e.Stop?
  {
    match e
    case Output(data) => Quoted(Lossy(data))
    case Resize(cols, rows) => Quoted(Size(cols, rows))
    case ParticipantJoin(userId, name, role) => PrintObject([("name", name), ("role", role), ("user_id", userId)])
    case ParticipantLeave(userId) => PrintObject([("user_id", userId)])
    case Chat(userId, name, text) => PrintObject([("name", name), ("text", text), ("user_id", userId)])
  }

  /** The stop signal is never written. */
  function ToAsciicastLine(e: RecordingEvent, micros: nat): string
    requires !e.Stop?
  {
    Frame(micros, Code(e), Payload(e))
  }

  // ---- reading ----

  /** What a player sees of an event. */
  datatype Shown =
    | ShownOutput(text: string)
    | ShownResize(cols: nat, rows: nat)
    | ShownJoin(userId: string, name: string, role: string)
    | ShownLeave(userId: string)
    | ShownChat(userId: string, name: string, text: string)

  /** Digits, a point, digits. */
  function ReadDecimal(s: string): (r: Read<(string, string)>)
    ensures r.Read? ==> AllDigits(r.value.0) && AllDigits(r.value.1)
  {
    var whole := Digits(s);
    if whole.value == "" || whole.rest == "" || whole.rest[0] != '.' then Malformed
    else
      var part := Digits(whole.rest[1..]);
      if part.value == "" then Malformed else Read((whole.value, part.value), part.rest)
  }

  function ReadTime(s: string): Read<nat> {
    var d := ReadDecimal(s);
    if d.Malformed? || |d.value.1| != 6 then Malformed
    else Read(Value(d.value.0) * MICROS + Value(d.value.1), d.rest)
  }

  /** A comma with one blank behind it. */
  function ReadComma(s: string): Option<string> {
    if |s| >= 2 && s[0] == ',' && s[1] == ' ' then Some(s[2..]) else None
  }

  function ReadSize(s: string): Option<Shown> {
    var cols := Digits(s);
    if cols.value == "" || cols.rest == "" || cols.rest[0] != 'x' then None
    else
      var rows := Digits(cols.rest[1..]);
      if rows.value == "" || rows.rest != "" then None else Some(ShownResize(Value(cols.value), Value(rows.value)))
  }

  function Lookup(ms: Members, key: string): Option<string> {
    if ms == [] then None else if ms[0].0 == key then Some(ms[0].1) else Lookup(ms[1..], key)
  }

  function FromText(code: string, text: string): Option<Shown> {
    if code == "o" then Some(ShownOutput(text)) else if code == "r" then ReadSize(text) else None
  }

  function FromMembers(code: string, ms: Members): Option<Shown> {
    var userId, name := Lookup(ms, "user_id"), Lookup(ms, "name");
    if userId.None? then None
    else if code == "l" then Some(ShownLeave(userId.value))
    else if name.None? then None
    else if code == "j" && Lookup(ms, "role").Some? then
      Some(ShownJoin(userId.value, name.value, Lookup(ms, "role").value))
    else if code == "c" && Lookup(ms, "text").Some? then
      Some(ShownChat(userId.value, name.value, Lookup(ms, "text").value))
    else None
  }

  /** The payload with the bracket that closes the line. */
  function ReadPayload(code: string, s: string): Option<Shown> {
    if s != "" && s[0] == '"' then
      var text := JsonString(s);
      if text.Malformed? || text.rest != "]" then None else FromText(code, text.value)
    else
      var ms := ReadObject(s);
      if ms.Malformed? || ms.rest != "]" then None else FromMembers(code, ms.value)
  }

  /** Time, code and the rest of a line. */
  function ReadFrame(line: string): Read<(nat, string)> {
    if line == "" || line[0] != '[' then Malformed
    else
      var time := ReadTime(line[1..]);
      if time.Malformed? || ReadComma(time.rest).None? then Malformed
      else
        var code := JsonString(ReadComma(time.rest).value);
        if code.Malformed? || ReadComma(code.rest).None? then Malformed
        else Read((time.value, code.value), ReadComma(code.rest).value)
  }

  datatype Played = Played(micros: nat, shown: Shown)

  function ReadLine(line: string): Option<Played> {
    var frame := ReadFrame(line);
    if frame.Malformed? then None
    else
      var (micros, code) := frame.value;
      var shown := ReadPayload(code, frame.rest);
      if shown.None? then None else Some(Played(micros, shown.value))
  }

  // ---- every line is read back ----

  /** The event as recorded: terminal output as its lossy text, everything else as it is. */
  function Shows(e: RecordingEvent): Shown
    requires !e.Stop?
  {
    match e
    case Output(data) => ShownOutput(Lossy(data))
    case Resize(cols, rows) => ShownResize(cols, rows)
    case ParticipantJoin(userId, name, role) => ShownJoin(userId, name, role)
    case ParticipantLeave(userId) => ShownLeave(userId)
    case Chat(userId, name, text) => ShownChat(userId, name, text)
  }

  lemma TimeRead(micros: nat, tail: string)
    requires tail == "" || !IsDigit(tail[0])
    ensures ReadTime(Time(micros) + tail) == Read(micros, tail)
  {
    hide ReadDecimal, Value, Fixed, Decimal, Pow10;
    DecimalValue(micros / MICROS);
    MillionIsSixDigits();
    FixedValue(micros % MICROS, 6);
    DecimalRead(Decimal(micros / MICROS), Fixed(micros % MICROS, 6), tail);
  }

  lemma DecimalRead(whole: string, part: string, tail: string)
    requires AllDigits(whole) && whole != "" && AllDigits(part) && part != ""
    requires tail == "" || !IsDigit(tail[0])
    ensures ReadDecimal((whole + ("." + part)) + tail) == Read((whole, part), tail)
  {
    Regroup(whole, "." + part, tail);
    Regroup(".", part, tail);
    DigitsRead(whole, "." + (part + tail));
    Behind('.', part + tail);
    DigitsRead(part, tail);
  }

  lemma CommaRead(tail: string)
    ensures ReadComma(", " + tail) == Some(tail)
  {
  }

  lemma FrameRead(micros: nat, code: string, payload: string)
    ensures ReadFrame(Frame(micros, code, payload)) == Read((micros, code), payload + "]")
  {
    var last := ", " + (payload + "]");
    var middle := ", " + (Quoted(code) + last);
    Behind('[', Time(micros) + middle);
    TimeRead(micros, middle);
    CommaRead(Quoted(code) + last);
    StringRoundTrip(code, last);
    CommaRead(payload + "]");
  }

  lemma SizeRead(cols: nat, rows: nat)
    ensures ReadSize(Size(cols, rows)) == Some(ShownResize(cols, rows))
  {
    DigitsRead(Decimal(cols), "x" + Decimal(rows));
    Behind('x', Decimal(rows));
    DigitsRead(Decimal(rows), "");
    assert Decimal(rows) + "" == Decimal(rows);
    DecimalValue(cols);
    DecimalValue(rows);
  }

  lemma TextPayload(code: string, text: string)
    ensures ReadPayload(code, Quoted(text) + "]") == FromText(code, text)
  {
    StringRoundTrip(text, "]");
    assert (Quoted(text) + "]")[0] == '"';
  }

  lemma ObjectPayload(code: string, ms: Members)
    requires ms != []
    ensures ReadPayload(code, PrintObject(ms) + "]") == FromMembers(code, ms)
  {
    ObjectRoundTrip(ms, "]");
    assert (PrintObject(ms) + "]")[0] == '{';
  }

  lemma LookupThree(a: string, x: string, b: string, y: string, c: string, z: string)
    requires a != b && a != c && b != c
    ensures var ms := [(a, x), (b, y), (c, z)];
            Lookup(ms, a) == Some(x) && Lookup(ms, b) == Some(y) && Lookup(ms, c) == Some(z)
  {
    var ms := [(a, x), (b, y), (c, z)];
    assert ms[1..] == [(b, y), (c, z)] && ms[1..][1..] == [(c, z)];
    assert Lookup(ms[1..], c) == Lookup([(c, z)], c);
  }

  lemma JoinMembers(userId: string, name: string, role: string)
    ensures FromMembers("j", [("name", name), ("role", role), ("user_id", userId)])
         == Some(ShownJoin(userId, name, role))
  {
    LookupThree("name", name, "role", role, "user_id", userId);
  }

  lemma ChatMembers(userId: string, name: string, text: string)
    ensures FromMembers("c", [("name", name), ("text", text), ("user_id", userId)])
         == Some(ShownChat(userId, name, text))
  {
    LookupThree("name", name, "text", text, "user_id", userId);
  }

  lemma PayloadRead(e: RecordingEvent)
    requires !e.Stop?
    ensures ReadPayload(Code(e), Payload(e) + "]") == Some(Shows(e))
  {
    match e
    case Output(data) => TextPayload("o", Lossy(data));
    case Resize(cols, rows) =>
      TextPayload("r", Size(cols, rows));
      SizeRead(cols, rows);
    case ParticipantJoin(userId, name, role) =>
      ObjectPayload("j", [("name", name), ("role", role), ("user_id", userId)]);
      JoinMembers(userId, name, role);
    case ParticipantLeave(userId) => ObjectPayload("l", [("user_id", userId)]);
    case Chat(userId, name, text) =>
      ObjectPayload("c", [("name", name), ("text", text), ("user_id", userId)]);
      ChatMembers(userId, name, text);
  }

  /** Every line decodes to its time and its event. */
  lemma LineRoundTrip(e: RecordingEvent, micros: nat)
    requires !e.Stop?
    ensures ReadLine(ToAsciicastLine(e, micros)) == Some(Played(micros, Shows(e)))
  {
    FrameRead(micros, Code(e), Payload(e));
    PayloadRead(e);
  }

  /** Two events share a line only if they are the same up to undecodable output bytes. */
  lemma LineDetermines(e: RecordingEvent, micros: nat, e': RecordingEvent, micros': nat)
    requires !e.Stop? && !e'.Stop? && ToAsciicastLine(e, micros) == ToAsciicastLine(e', micros')
    ensures micros == micros' && Shows(e) == Shows(e')
    ensures e.Output? && IsUtf8(e.data) && IsUtf8(e'.data) ==> e == e'
    ensures !e.Output? ==> e == e'
  {
    LineRoundTrip(e, micros);
    LineRoundTrip(e', micros');
    if e.Output? {
      LossyIsFaithfulIff(e.data);
      LossyIsFaithfulIff(e'.data);
    }
  }

  // ---- whole files ----

  /** Recorded events with their times. */
  type Entries = seq<(RecordingEvent, nat)>

  predicate Recordable(entries: Entries) { forall i :: 0 <= i < |entries| ==> !entries[i].0.Stop? }

  function LinesOf(entries: Entries): (lines: seq<string>)
    requires Recordable(entries)
    ensures |lines| == |entries|
    ensures forall i :: 0 <= i < |lines| ==> lines[i] == ToAsciicastLine(entries[i].0, entries[i].1)
  {
    seq(|entries|, i requires 0 <= i < |entries| => ToAsciicastLine(entries[i].0, entries[i].1))
  }

  function Terminated(lines: seq<string>): string {
    if lines == [] then "" else lines[0] + ("\n" + Terminated(lines[1..]))
  }

  /** The first line, and what follows its line break. */
  function FirstLine(s: string): (r: Read<string>)
    ensures r.Read? ==> |r.rest| < |s|
  {
    if s == "" then Malformed
    else if s[0] == '\n' then Read("", s[1..])
    else Prepend(s[0], FirstLine(s[1..]))
  }

  /** The lines of a text; one that is cut short does not count. */
  function Lines(s: string): seq<string>
    decreases |s|
  {
    var first := FirstLine(s);
    if first.Malformed? then [] else [first.value] + Lines(first.rest)
  }

  lemma {:induction false} FirstLineRead(line: string, tail: string)
    requires Printable(line)
    ensures FirstLine(line + ("\n" + tail)) == Read(line, tail)
  {
    var end := "\n" + tail;
    if line == "" {
      assert line + end == end && end[1..] == tail;
    } else {
      FirstLineRead(line[1..], tail);
      assert (line + end)[1..] == line[1..] + end;
      assert line == [line[0]] + line[1..];
    }
  }

  lemma {:induction false} LinesOfTerminated(lines: seq<string>)
    requires forall i :: 0 <= i < |lines| ==> Printable(lines[i])
    ensures Lines(Terminated(lines)) == lines
  {
    if lines != [] {
      FirstLineRead(lines[0], Terminated(lines[1..]));
      LinesOfTerminated(lines[1..]);
      assert lines == [lines[0]] + lines[1..];
    }
  }

  lemma LineIsPrintable(e: RecordingEvent, micros: nat)
    requires !e.Stop?
    ensures Printable(ToAsciicastLine(e, micros))
  {
    QuotedIsPrintable(Code(e));
    match e {
      case Output(data) => QuotedIsPrintable(Lossy(data));
      case Resize(cols, rows) => QuotedIsPrintable(Size(cols, rows));
      case ParticipantJoin(userId, name, role) =>
        MembersArePrintable([("name", name), ("role", role), ("user_id", userId)]);
      case ParticipantLeave(userId) => MembersArePrintable([("user_id", userId)]);
      case Chat(userId, name, text) => MembersArePrintable([("name", name), ("text", text), ("user_id", userId)]);
    }
    FrameIsPrintable(micros, Code(e), Payload(e));
  }

  lemma FrameIsPrintable(micros: nat, code: string, payload: string)
    requires Printable(Quoted(code)) && Printable(payload)
    ensures Printable(Frame(micros, code, payload))
  {
    assert Printable(Time(micros));
    assert Printable(payload + "]");
    assert Printable(Quoted(code) + (", " + (payload + "]")));
  }

  /** Splitting the file at its line breaks gives the header and one line for each event,
      and each of those decodes to the event and its time. */
  lemma FileRoundTrip(header: string, entries: Entries)
    requires Printable(header) && Recordable(entries)
    ensures var lines := Lines(Terminated([header] + LinesOf(entries)));
            && |lines| == |entries| + 1 && lines[0] == header
            && forall i :: 0 <= i < |entries| ==>
                 ReadLine(lines[i + 1]) == Some(Played(entries[i].1, Shows(entries[i].0)))
  {
    var lines := [header] + LinesOf(entries);
    forall i | 0 <= i < |entries|
      ensures Printable(LinesOf(entries)[i])
      ensures ReadLine(LinesOf(entries)[i]) == Some(Played(entries[i].1, Shows(entries[i].0)))
    {
      LineIsPrintable(entries[i].0, entries[i].1);
      LineRoundTrip(entries[i].0, entries[i].1);
    }
    LinesOfTerminated(lines);
  }
}
