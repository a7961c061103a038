/** A reader for the timestamps of RFC 3339 in UTC, and what it finds in the normal form. */
module TimestampReader {
  import opened Protocol
  import opened Text
  import opened Calendar
  import opened Timestamps

  /** The fields as written; `clock` holds hour, minute and second. */
  datatype Fields = Fields(date: (int, nat, nat), clock: (nat, nat, nat), nanos: nat)

  /** Exactly `w` digits. */
  function Number(s: string, w: nat): Read<nat> {
    if |s| >= w && AllDigits(s[..w]) then Read(Value(s[..w]), s[w..]) else Malformed
  }

  /** Two digits and the character that must follow them. */
  function Pair(s: string, end: char): Read<nat> {
    var n := Number(s, 2);
    if n.Malformed? || n.rest == "" || n.rest[0] != end then Malformed else Read(n.value, n.rest[1..])
  }

  /** Four digits, or a sign and at least four digits. */
  function Year(s: string): Read<int> {
    if s != "" && (s[0] == '-' || s[0] == '+') then Signed(s[0] == '-', s[1..])
    else
      var n := Number(s, 4);
      if n.Malformed? then Malformed else Read(n.value, n.rest)
  }

  function Signed(negative: bool, s: string): Read<int> {
    var digits := Digits(s);
    var n: int := Value(digits.value);
    if |digits.value| < 4 then Malformed else Read(if negative then -n else n, digits.rest)
  }

  /** Nothing, or a point and 3, 6 or 9 digits of a second, the last three not all zero. */
  function SecondFraction(s: string): Read<nat> {
    if s == "" || s[0] != '.' then Read(0, s)
    else
      var digits := Digits(s[1..]);
      var n := |digits.value|;
      if n in {3, 6, 9} && digits.value[n - 3..] != "000"
      then Read(Value(digits.value) * Pow10(9 - n), digits.rest) else Malformed
  }

  function Parse(s: string): Option<Fields> {
    var year := Year(s);
    if year.Malformed? || year.rest == "" || year.rest[0] != '-' then None
    else
      var month := Pair(year.rest[1..], '-');
      if month.Malformed? then None
      else
        var day := Pair(month.rest, 'T');
        if day.Malformed? then None
        else
          var time := Time(day.rest);
          if time.Malformed? || time.rest != "+00:00" then None
          else Some(Fields((year.value, month.value, day.value), time.value.0, time.value.1))
  }

  function Time(s: string): Read<((nat, nat, nat), nat)> {
    var hour := Pair(s, ':');
    if hour.Malformed? then Malformed
    else
      var minute := Pair(hour.rest, ':');
      if minute.Malformed? then Malformed
      else
        var second := Number(minute.rest, 2);
        if second.Malformed? then Malformed
        else
          var part := SecondFraction(second.rest);
          if part.Malformed? then Malformed else Read(((hour.value, minute.value, second.value), part.value), part.rest)
  }

  // ---- reading what the printer writes ----

  lemma NumberRead(n: nat, w: nat, rest: string)
    requires n < Pow10(w)
    ensures Number(Fixed(n, w) + rest, w) == Read(n, rest)
  {
    FixedValue(n, w);
    assert (Fixed(n, w) + rest)[..w] == Fixed(n, w) && (Fixed(n, w) + rest)[w..] == rest;
  }

  lemma Hundred()
    ensures Pow10(2) == 100 && Pow10(3) == 1_000 && Pow10(4) == 10_000
            && Pow10(6) == 1_000_000 && Pow10(9) == 1_000_000_000
  {
    assert Pow10(2) == 10 * Pow10(1) && Pow10(1) == 10 * Pow10(0);
    assert Pow10(3) == 10 * Pow10(2) && Pow10(4) == 10 * Pow10(3);
    assert Pow10(6) == 10 * Pow10(5) && Pow10(5) == 10 * Pow10(4);
    assert Pow10(9) == 10 * Pow10(8) && Pow10(8) == 10 * Pow10(7) && Pow10(7) == 10 * Pow10(6);
  }

  lemma PairRead(n: nat, end: char, rest: string)
    requires n < 100
    ensures Pair(Fixed(n, 2) + ([end] + rest), end) == Read(n, rest)
  {
    Hundred();
    NumberRead(n, 2, [end] + rest);
    assert ([end] + rest)[1..] == rest;
  }

  lemma SignedRead(negative: bool, digits: string, rest: string)
    requires AllDigits(digits) && |digits| >= 4 && rest != "" && !IsDigit(rest[0])
    ensures var n: int := Value(digits);
            Signed(negative, digits + rest) == Read(if negative then -n else n, rest)
  {
    hide Value, Digits;
    DigitsRead(digits, rest);
    assert Digits(digits + rest) == Read(digits, rest);
  }

  lemma SignFirst(negative: bool, s: string)
    ensures Year((if negative then "-" else "+") + s) == Signed(negative, s)
  {
    hide Signed, Number;
    var t := (if negative then "-" else "+") + s;
    assert t[1..] == s && (t[0] == '-' <==> negative) && (t[0] == '+' <==> !negative);
  }

  lemma FiveDigits(n: nat)
    requires n > 9999
    ensures |Decimal(n)| >= 5
  {
    assert Decimal(n) == Decimal(n / 10) + [DigitChar(n % 10)];
    assert Decimal(n / 10) == Decimal(n / 100) + [DigitChar(n / 10 % 10)];
    assert Decimal(n / 100) == Decimal(n / 1000) + [DigitChar(n / 100 % 10)];
    assert Decimal(n / 1000) == Decimal(n / 10000) + [DigitChar(n / 1000 % 10)];
  }

  lemma YearRead(y: int, rest: string)
    requires rest != "" && !IsDigit(rest[0])
    ensures Year(YearText(y) + rest) == Read(y, rest)
  {
    Hundred();
    if 0 <= y <= 9999 {
      hide Value;
      NumberRead(y, 4, rest);
      assert IsDigit((YearText(y) + rest)[0]);
    } else {
      var n: nat := if y < 0 then -y else y;
      var digits := if n <= 9999 then Fixed(n, 4) else Decimal(n);
      if n <= 9999 {
        FixedValue(n, 4);
      } else {
        DecimalValue(n);
        FiveDigits(n);
      }
      SignedRead(y < 0, digits, rest);
      SignFirst(y < 0, digits + rest);
      hide *;
      assert (if y < 0 then "-" else "+") + digits + rest == (if y < 0 then "-" else "+") + (digits + rest);
    }
  }

  lemma LastThree(value: nat, w: nat)
    requires w >= 3 && value % 1000 != 0
    ensures Fixed(value, w)[w - 3..] != "000"
  {
    FixedThree(value, w - 3);
    var a, b, c := value / 10 / 10 % 10, value / 10 % 10, value % 10;
    assert Fixed(value, w)[w - 3..] == [DigitChar(a), DigitChar(b), DigitChar(c)];
    assert value % 1000 == 100 * a + 10 * b + c;
  }

  lemma PointRead(value: nat, w: nat, rest: string)
    requires value < Pow10(w) && w in {3, 6, 9} && value % 1000 != 0 && (rest == "" || !IsDigit(rest[0]))
    ensures SecondFraction("." + Fixed(value, w) + rest) == Read(value * Pow10(9 - w), rest)
  {
    FixedValue(value, w);
    DigitsRead(Fixed(value, w), rest);
    LastThree(value, w);
    hide Value, Fixed, Digits, Pow10;
    assert ("." + Fixed(value, w) + rest)[1..] == Fixed(value, w) + rest;
  }

  lemma NoPoint(rest: string)
    requires rest != "" && rest[0] != '.'
    ensures SecondFraction(rest) == Read(0, rest)
  {
  }

  lemma FractionRead(n: nat, rest: string)
    requires n < NANOS && rest != "" && !IsDigit(rest[0]) && rest[0] != '.'
    ensures SecondFraction(Fraction(n) + rest) == Read(n, rest)
  {
    Hundred();
    hide Fixed, Digits, Value, SecondFraction;
    if n == 0 {
      NoPoint(rest);
      assert Fraction(n) + rest == rest;
    } else if n % 1_000_000 == 0 {
      PointRead(n / 1_000_000, 3, rest);
    } else if n % 1_000 == 0 {
      PointRead(n / 1_000, 6, rest);
    } else {
      PointRead(n, 9, rest);
      assert Pow10(0) == 1;
    }
  }

  lemma TimeRead(h: nat, m: nat, s: nat, n: nat)
    requires h < 24 && m < 60 && s <= 60 && n < NANOS
    ensures Time(Fixed(h, 2) + (":" + (Fixed(m, 2) + (":" + (Fixed(s, 2) + (Fraction(n) + "+00:00"))))))
         == Read(((h, m, s), n), "+00:00")
  {
    Hundred();
    var tail := Fraction(n) + "+00:00";
    PairRead(h, ':', Fixed(m, 2) + (":" + (Fixed(s, 2) + tail)));
    PairRead(m, ':', Fixed(s, 2) + tail);
    NumberRead(s, 2, tail);
    FractionRead(n, "+00:00");
  }

  lemma DateRead(y: int, month: nat, day: nat, time: string, clock: (nat, nat, nat), nanos: nat)
    requires month < 100 && day < 100 && Time(time) == Read((clock, nanos), "+00:00")
    ensures Parse(YearText(y) + ("-" + (Fixed(month, 2) + ("-" + (Fixed(day, 2) + ("T" + time))))))
         == Some(Fields((y, month, day), clock, nanos))
  {
    var rest := Fixed(month, 2) + ("-" + (Fixed(day, 2) + ("T" + time)));
    YearRead(y, "-" + rest);
    assert ("-" + rest)[1..] == rest;
    PairRead(month, '-', Fixed(day, 2) + ("T" + time));
    PairRead(day, 'T', time);
  }

  lemma TwoFields(a: nat, b: nat, x: string, y: string, tail: string)
    ensures PrintFields([a, b], [Field(2, x), Field(2, y)], tail) == Fixed(a, 2) + (x + (Fixed(b, 2) + (y + tail)))
  {
    hide Fixed;
    assert [a, b][1..] == [b] && [b][1..] == [];
    assert [Field(2, x), Field(2, y)][1..] == [Field(2, y)] && [Field(2, y)][1..] == [];
    OneField(b, y, tail);
  }

  lemma OneField(b: nat, y: string, tail: string)
    ensures PrintFields([b], [Field(2, y)], tail) == Fixed(b, 2) + (y + tail)
  {
    hide Fixed;
    var none: seq<nat> := [];
    assert [b][1..] == none && PrintFields(none, [], tail) == tail;
  }

  lemma ClockTextIs(i: Instant)
    requires ValidInstant(i)
    ensures var c := Clock(i);
            ClockText(i) == Fixed(c[0], 2) + (":" + (Fixed(c[1], 2) + (":" + (Fixed(c[2], 2)
                            + ("" + (Fraction(Nanos(i)) + "+00:00"))))))
  {
    hide Fixed, Fraction;
    var c, l, tail := Clock(i), ClockLayout(), Fraction(Nanos(i)) + "+00:00";
    assert c[1..] == [c[1], c[2]] && l[1..] == [Field(2, ":"), Field(2, "")];
    TwoFields(c[1], c[2], ":", "", tail);
  }

  lemma SecondFits(i: Instant)
    requires ValidInstant(i)
    ensures Clock(i)[0] < 24 && Clock(i)[1] < 60 && Clock(i)[2] <= 60 && Nanos(i) < NANOS
  {
  }

  function Written(i: Instant): Fields
    requires ValidInstant(i)
  {
    Fields((UtcDate(i).year, UtcDate(i).month, UtcDate(i).day), (Clock(i)[0], Clock(i)[1], Clock(i)[2]), Nanos(i))
  }

  lemma PrintedText(i: Instant)
    requires ValidInstant(i)
    ensures var d := UtcDate(i);
            ToRfc3339(i) == YearText(d.year) +
               ("-" + (Fixed(d.month, 2) + ("-" + (Fixed(d.day, 2) + ("T" + ClockText(i))))))
  {
    hide PrintFields, YearText, ClockText, Fixed, UtcDate;
    TwoFields(UtcDate(i).month, UtcDate(i).day, "-", "T", ClockText(i));
  }

  lemma ClockReads(i: Instant)
    requires ValidInstant(i)
    ensures Time(ClockText(i)) == Read(((Clock(i)[0], Clock(i)[1], Clock(i)[2]), Nanos(i)), "+00:00")
  {
    SecondFits(i);
    ClockTextIs(i);
    hide ClockText, Fixed, Fraction, Clock, Nanos, Time, ValidInstant;
    assert "" + (Fraction(Nanos(i)) + "+00:00") == Fraction(Nanos(i)) + "+00:00";
    TimeRead(Clock(i)[0], Clock(i)[1], Clock(i)[2], Nanos(i));
  }

  /** A printed instant reads as its fields. */
  lemma PrintedReads(i: Instant)
    requires ValidInstant(i)
    ensures Parse(ToRfc3339(i)) == Some(Written(i))
  {
    PrintedText(i);
    ClockReads(i);
    hide ToRfc3339, ClockText, Fixed, YearText, Clock, Nanos, Time, Parse, UtcDate, ValidInstant;
    DateRead(UtcDate(i).year, UtcDate(i).month, UtcDate(i).day, ClockText(i),
             (Clock(i)[0], Clock(i)[1], Clock(i)[2]), Nanos(i));
  }

  /** Seconds since the start of year 0 of fields taken as UTC, a second of 60 included. */
  function Seconds(date: Date, hour: nat, minute: nat, second: nat): int
    requires ValidDate(date)
  {
    86400 * DayNumber(date) + 3600 * hour + 60 * minute + second
  }

  predicate Valid(f: Fields) {
    && f.date.0 >= -1 && ValidDate(Date(f.date.0, f.date.1, f.date.2))
    && f.clock.0 < 24 && f.clock.1 < 60 && f.clock.2 <= 60 && f.nanos < 1_000_000_000
  }

  /** The normal form reads as a valid date and time that lies the offset before the fields
      of the timestamp, to the nanosecond; a leap second stays one. */
  lemma NormaliseReads(t: OffsetDateTime) returns (f: Fields)
    requires Parsed(t)
    ensures Parse(Normalise(t)) == Some(f) && Valid(f)
    ensures Seconds(Date(f.date.0, f.date.1, f.date.2), f.clock.0, f.clock.1, f.clock.2)
         == Seconds(t.date, t.hour, t.minute, t.second) - 60 * t.offsetMinutes
    ensures f.nanos == t.nanos && (f.clock.2 == 60 <==> t.second == 60)
  {
    PrintedReads(ToInstant(t));
    SecondFits(ToInstant(t));
    WrittenSeconds(ToInstant(t));
    f := Written(ToInstant(t));
  }

  lemma WrittenSeconds(i: Instant)
    requires ValidInstant(i)
    ensures Seconds(UtcDate(i), Clock(i)[0], Clock(i)[1], Clock(i)[2]) == i.secs + if i.frac >= NANOS then 1 else 0
    ensures Clock(i)[2] == 60 <==> i.frac >= NANOS
  {
    hide DayNumber;
    var sod := SecondOfDay(i);
    assert sod / 3600 == sod / 60 / 60;
    assert i.secs == i.secs / DAY * DAY + sod;
    assert sod % 60 == i.secs % 60;
  }

  lemma SameSeconds(d: Date, h: nat, m: nat, s: nat, e: Date, h': nat, m': nat, s': nat)
    requires ValidDate(d) && ValidDate(e) && h < 24 && h' < 24 && m < 60 && m' < 60 && s <= 60 && s' <= 60
    requires s == 60 <==> s' == 60
    requires Seconds(d, h, m, s) == Seconds(e, h', m', s')
    ensures d == e && h == h' && m == m' && s == s'
  {
    DateOrder(d, e);
    var a, b := 3600 * h + 60 * m + s, 3600 * h' + 60 * m' + s';
    assert 86400 * DayNumber(d) + a == 86400 * DayNumber(e) + b;
    assert s < 60 ==> 0 <= a < 86400 && 0 <= b < 86400;
    assert s == 60 ==> 60 <= a <= 86400 && 60 <= b <= 86400;
  }

  /** Written in UTC, a timestamp keeps its fields. */
  lemma UtcIsKept(t: OffsetDateTime)
    requires Parsed(t) && t.offsetMinutes == 0
    ensures Parse(Normalise(t))
         == Some(Fields((t.date.year, t.date.month, t.date.day), (t.hour, t.minute, t.second), t.nanos))
  {
    var f := NormaliseReads(t);
    SameSeconds(Date(f.date.0, f.date.1, f.date.2), f.clock.0, f.clock.1, f.clock.2,
                t.date, t.hour, t.minute, t.second);
  }

  /** A new share is accepted exactly if its instant lies behind `now`, and then stored in
      its normal form. */
  lemma AcceptedIff(t: OffsetDateTime, now: Instant)
    requires Parsed(t)
    ensures var secs := Seconds(t.date, t.hour, t.minute, if t.second == 60 then 59 else t.second)
                        - 60 * t.offsetMinutes;
            var frac := t.nanos + if t.second == 60 then 1_000_000_000 else 0;
            ValidateFuture(t, now).0 <==> now.secs < secs || (now.secs == secs && now.frac < frac)
    ensures ValidateFuture(t, now).0 ==> ValidateFuture(t, now).1 == Normalise(t)
  {
  }
}
