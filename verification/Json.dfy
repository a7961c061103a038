/** JSON strings and objects of strings, printed compactly and read by section 7 of RFC 8259. */
module Json {

  import opened Text

  // ---- printing ----

  function HexDigit(n: nat): char
    requires n < 16
  {
    if n < 10 then '0' + n as char else 'a' + (n - 10) as char
  }

  function EscapeChar(c: char): (s: string)
    ensures s != ""
  {
    var n := c as int;
    if c == '"' then "\\\""
    else if c == '\\' then "\\\\"
    else if n == 0x08 then "\\b"
    else if n == 0x09 then "\\t"
    else if n == 0x0A then "\\n"
    else if n == 0x0C then "\\f"
    else if n == 0x0D then "\\r"
    else if n < 0x20 then ['\\', 'u', '0', '0', HexDigit(n / 16), HexDigit(n % 16)]
    else [c]
  }

  function Escaped(s: string): string {
    if s == "" then "" else EscapeChar(s[0]) + Escaped(s[1..])
  }

  function Quoted(s: string): string { "\"" + (Escaped(s) + "\"") }

  type Members = seq<(string, string)>

  /** `"key":"value"` pairs separated by commas, up to the closing brace. */
  function PrintMembers(ms: Members): string
    requires ms != []
  {
    Quoted(ms[0].0) + (":" + (Quoted(ms[0].1) + (if |ms| == 1 then "}" else "," + PrintMembers(ms[1..]))))
  }

  function PrintObject(ms: Members): string
    requires ms != []
  {
    "{" + PrintMembers(ms)
  }

  // ---- reading ----

  predicate IsHex(c: char) { IsDigit(c) || 'a' <= c <= 'f' || 'A' <= c <= 'F' }

  function HexValue(c: char): (n: nat)
    requires IsHex(c)
    ensures n < 16
  {
    if IsDigit(c) then DigitOf(c)
    else if 'a' <= c then 10 + (c as int - 'a' as int)
    else 10 + (c as int - 'A' as int)
  }

  /** One character of a string body: the character and how much text it takes, the
      closing quote, or neither. Escapes of surrogates are not understood. */
  datatype Item = Char(c: char, length: nat) | EndQuote | Broken

  function FirstItem(s: string): (item: Item)
    ensures item.Char? ==> 1 <= item.length <= |s|
    ensures item.EndQuote? ==> s != ""
  {
    if s == "" then Broken
    else if s[0] == '"' then EndQuote
    else if s[0] as int < 0x20 then Broken
    else if s[0] != '\\' then Char(s[0], 1)
    else if |s| == 1 then Broken
    else if s[1] == '"' || s[1] == '\\' || s[1] == '/' then Char(s[1], 2)
    else if s[1] == 'b' then Char(0x08 as char, 2)
    else if s[1] == 't' then Char(0x09 as char, 2)
    else if s[1] == 'n' then Char(0x0A as char, 2)
    else if s[1] == 'f' then Char(0x0C as char, 2)
    else if s[1] == 'r' then Char(0x0D as char, 2)
    else if s[1] == 'u' && |s| >= 6 && IsHex(s[2]) && IsHex(s[3]) && IsHex(s[4]) && IsHex(s[5]) then
      var n := HexValue(s[2]) * 4096 + HexValue(s[3]) * 256 + HexValue(s[4]) * 16 + HexValue(s[5]);
      if 0xD800 <= n < 0xE000 then Broken else Char(n as char, 6)
    else Broken
  }

  function StringBody(s: string): (r: Read<string>)
    ensures r.Read? ==> |r.rest| < |s|
    decreases |s|
  {
    match FirstItem(s)
    case EndQuote => Read("", s[1..])
    case Char(c, length) => Prepend(c, StringBody(s[length..]))
    case Broken => Malformed
  }

  function JsonString(s: string): (r: Read<string>)
    ensures r.Read? ==> |r.rest| < |s|
  {
    if s != "" && s[0] == '"' then StringBody(s[1..]) else Malformed
  }

  function ReadMembers(s: string): Read<Members>
    decreases |s|
  {
    var key := JsonString(s);
    if key.Malformed? || key.rest == "" || key.rest[0] != ':' then Malformed
    else
      var value := JsonString(key.rest[1..]);
      if value.Malformed? || value.rest == "" then Malformed
      else if value.rest[0] == '}' then Read([(key.value, value.value)], value.rest[1..])
      else if value.rest[0] != ',' then Malformed
      else
        var more := ReadMembers(value.rest[1..]);
        if more.Malformed? then Malformed else Read([(key.value, value.value)] + more.value, more.rest)
  }

  function ReadObject(s: string): Read<Members> {
    if s != "" && s[0] == '{' then ReadMembers(s[1..]) else Malformed
  }

  // ---- what is printed is read back ----

  lemma FirstItemOfEscape(c: char, rest: string)
    ensures FirstItem(EscapeChar(c) + rest) == Char(c, |EscapeChar(c)|)
    ensures (EscapeChar(c) + rest)[|EscapeChar(c)|..] == rest
  {
    var n := c as int;
    if n < 0x20 && n != 8 && n != 9 && n != 10 && n != 12 && n != 13 {
      HexRoundTrip(n / 16);
      HexRoundTrip(n % 16);
      assert HexValue('0') == 0;
    }
  }

  lemma HexRoundTrip(n: nat)
    requires n < 16
    ensures IsHex(HexDigit(n)) && HexValue(HexDigit(n)) == n
  {
  }

  lemma Regroup(a: string, b: string, c: string)
    ensures (a + b) + c == a + (b + c)
  {
  }

  lemma {:induction false} BodyRead(s: string, tail: string)
    ensures StringBody(Escaped(s) + ("\"" + tail)) == Read(s, tail)
  {
    var end := "\"" + tail;
    if s == "" {
      assert Escaped(s) + end == end && end[1..] == tail;
    } else {
      BodyRead(s[1..], tail);
      var rest := Escaped(s[1..]) + end;
      Regroup(EscapeChar(s[0]), Escaped(s[1..]), end);
      FirstItemOfEscape(s[0], rest);
      assert s == [s[0]] + s[1..];
    }
  }

  lemma StringRoundTrip(s: string, tail: string)
    ensures JsonString(Quoted(s) + tail) == Read(s, tail)
  {
    BodyRead(s, tail);
    Regroup("\"", Escaped(s) + "\"", tail);
    Regroup(Escaped(s), "\"", tail);
    var body := Escaped(s) + ("\"" + tail);
    assert ("\"" + body)[1..] == body;
  }

  lemma MemberText(ms: Members, tail: string)
    requires ms != []
    ensures PrintMembers(ms) + tail ==
            Quoted(ms[0].0) + (":" + (Quoted(ms[0].1) +
              (if |ms| == 1 then "}" + tail else "," + (PrintMembers(ms[1..]) + tail))))
  {
    var more := if |ms| == 1 then "}" else "," + PrintMembers(ms[1..]);
    Regroup(Quoted(ms[0].0), ":" + (Quoted(ms[0].1) + more), tail);
    Regroup(":", Quoted(ms[0].1) + more, tail);
    Regroup(Quoted(ms[0].1), more, tail);
    if |ms| > 1 {
      Regroup(",", PrintMembers(ms[1..]), tail);
    }
  }

  lemma Behind(c: char, s: string)
    ensures ([c] + s)[1..] == s && ([c] + s)[0] == c && [c] + s != ""
  {
  }

  lemma LastMember(s: string, key: string, s': string, value: string, tail: string)
    requires JsonString(s) == Read(key, ":" + s') && JsonString(s') == Read(value, "}" + tail)
    ensures ReadMembers(s) == Read([(key, value)], tail)
  {
    Behind(':', s');
    Behind('}', tail);
  }

  lemma MoreMembers(s: string, key: string, s': string, value: string, s'': string, ms: Members, tail: string)
    requires JsonString(s) == Read(key, ":" + s') && JsonString(s') == Read(value, "," + s'')
    requires ReadMembers(s'') == Read(ms, tail)
    ensures ReadMembers(s) == Read([(key, value)] + ms, tail)
  {
    Behind(':', s');
    Behind(',', s'');
  }

  lemma FirstMemberRead(key: string, value: string, end: string)
    ensures JsonString(Quoted(key) + (":" + (Quoted(value) + end))) == Read(key, ":" + (Quoted(value) + end))
    ensures JsonString(Quoted(value) + end) == Read(value, end)
  {
    StringRoundTrip(key, ":" + (Quoted(value) + end));
    StringRoundTrip(value, end);
  }

  lemma FirstOfMembers(ms: Members)
    requires ms != []
    ensures ms == [ms[0]] + ms[1..]
    ensures |ms| == 1 ==> ms == [ms[0]]
  {
  }

  lemma {:induction false} MembersRead(ms: Members, tail: string)
    requires ms != []
    ensures ReadMembers(PrintMembers(ms) + tail) == Read(ms, tail)
  {
    MemberText(ms, tail);
    var (key, value) := ms[0];
    var s := PrintMembers(ms) + tail;
    if |ms| == 1 {
      FirstMemberRead(key, value, "}" + tail);
      LastMember(s, key, Quoted(value) + ("}" + tail), value, tail);
    } else {
      var more := PrintMembers(ms[1..]) + tail;
      FirstMemberRead(key, value, "," + more);
      MembersRead(ms[1..], tail);
      MoreMembers(s, key, Quoted(value) + ("," + more), value, more, ms[1..], tail);
    }
    FirstOfMembers(ms);
  }

  lemma ObjectRoundTrip(ms: Members, tail: string)
    requires ms != []
    ensures ReadObject(PrintObject(ms) + tail) == Read(ms, tail)
  {
    MembersRead(ms, tail);
    Regroup("{", PrintMembers(ms), tail);
    Behind('{', PrintMembers(ms) + tail);
  }

  // ---- printed text has no line breaks ----

  /** No control character, so in particular no line break. */
  predicate Printable(s: string) { forall i :: 0 <= i < |s| ==> s[i] as int >= 0x20 }

  lemma {:induction false} EscapedIsPrintable(s: string)
    ensures Printable(Escaped(s))
  {
    if s != "" {
      EscapedIsPrintable(s[1..]);
      assert Printable(EscapeChar(s[0]));
    }
  }

  lemma QuotedIsPrintable(s: string)
    ensures Printable(Quoted(s))
  {
    EscapedIsPrintable(s);
  }

  lemma {:induction false} MembersArePrintable(ms: Members)
    requires ms != []
    ensures Printable(PrintMembers(ms))
  {
    QuotedIsPrintable(ms[0].0);
    QuotedIsPrintable(ms[0].1);
    if |ms| > 1 {
      MembersArePrintable(ms[1..]);
    }
  }
}
