/** The normal form of stored expiry timestamps. Both expiry columns are compared
    as strings, so the order of the strings must be the order of the instants. */
module Timestamps {
  import opened Text
  import opened Calendar

  const NANOS := 1_000_000_000
  const DAY := 86_400

  /** Seconds since 0000-01-01T00:00:00 UTC and nanoseconds; a leap second keeps
      the preceding second and counts `frac` from one to two billion. */
  datatype Instant = Instant(secs: int, frac: nat)

  predicate ValidInstant(i: Instant) {
    && i.secs >= -365 * DAY
    && i.frac < 2 * NANOS
    && (i.frac >= NANOS ==> i.secs % 60 == 59)
  }

  predicate Before(a: Instant, b: Instant) {
    a.secs < b.secs || (a.secs == b.secs && a.frac < b.frac)
  }

  /** A timestamp as RFC 3339 writes it: local fields and an offset in minutes. */
  datatype OffsetDateTime = OffsetDateTime(
    date: Date, hour: nat, minute: nat, second: nat, nanos: nat, offsetMinutes: int)

  predicate Parsed(t: OffsetDateTime) {
    && ValidDate(t.date) && 0 <= t.date.year <= 9999
    && t.hour < 24 && t.minute < 60 && t.second <= 60 && t.nanos < NANOS
    && -1440 < t.offsetMinutes < 1440
  }

  function ToInstant(t: OffsetDateTime): (i: Instant)
    requires Parsed(t)
    ensures ValidInstant(i)
  {
    NotBeforeYearZero(t.date);
    var second := if t.second == 60 then 59 else t.second;
    Instant(DayNumber(t.date) * DAY + t.hour * 3600 + t.minute * 60 + second - t.offsetMinutes * 60,
            t.nanos + (if t.second == 60 then NANOS else 0))
  }

  lemma NotBeforeYearZero(d: Date)
    requires ValidDate(d) && d.year >= 0
    ensures DayNumber(d) >= 0
  {
    InsideYear(d);
    if d.year > 0 {
      YearsGrow(0, d.year);
    }
  }

  function UtcDate(i: Instant): Date
    requires ValidInstant(i)
  {
    DateOf(i.secs / DAY)
  }

  function SecondOfDay(i: Instant): nat { i.secs % DAY }

  /** Hour, minute and second; the second is 60 within a leap second. */
  function Clock(i: Instant): seq<nat> {
    var sod := SecondOfDay(i);
    [sod / 3600, sod / 60 % 60, sod % 60 + (if i.frac >= NANOS then 1 else 0)]
  }

  function Nanos(i: Instant): nat {
    if i.frac >= NANOS then i.frac - NANOS else i.frac
  }

  /** Four digits, or an explicit sign and at least four digits outside 0..9999. */
  function YearText(y: int): string {
    if 0 <= y <= 9999 then Fixed(y, 4)
    else
      var n: nat := if y < 0 then -y else y;
      (if y < 0 then "-" else "+") + (if n <= 9999 then Fixed(n, 4) else Decimal(n))
  }

  /** `n` zero padded to a number of three-digit groups. */
  function Grouped(n: nat, groups: nat): string { Fixed(n, 3 * groups) }

  /** No digits, or 3, 6 or 9 digits, as many as the value needs. */
  function Fraction(n: nat): string
    requires n < NANOS
  {
    if n == 0 then ""
    else if n % 1_000_000 == 0 then "." + Grouped(n / 1_000_000, 1)
    else if n % 1_000 == 0 then "." + Grouped(n / 1_000, 2)
    else "." + Grouped(n, 3)
  }

  function DateLayout(): seq<Field> { [Field(2, "-"), Field(2, "T")] }
  function ClockLayout(): seq<Field> { [Field(2, ":"), Field(2, ":"), Field(2, "")] }

  function ClockText(i: Instant): string
    requires ValidInstant(i)
  {
    PrintFields(Clock(i), ClockLayout(), Fraction(Nanos(i)) + "+00:00")
  }

  function AfterYear(i: Instant): string
    requires ValidInstant(i)
  {
    PrintFields([UtcDate(i).month, UtcDate(i).day], DateLayout(), ClockText(i))
  }

  function ToRfc3339(i: Instant): string
    requires ValidInstant(i)
  {
    YearText(UtcDate(i).year) + ("-" + AfterYear(i))
  }

  /** What is stored for a caller's timestamp. */
  function Normalise(t: OffsetDateTime): string
    requires Parsed(t)
  {
    ToRfc3339(ToInstant(t))
  }

  /** Removing the offset moves a timestamp by less than a day. */
  lemma YearRange(t: OffsetDateTime)
    requires Parsed(t)
    ensures -1 <= UtcDate(ToInstant(t)).year <= 10000
  {
    InsideYear(t.date);
    if t.date.year < 9999 {
      YearsGrow(t.date.year, 9999);
    }
    var i := ToInstant(t);
    assert i.secs / DAY <= DayNumber(t.date) + 1;
    var d := UtcDate(i);
    if d.year > 10000 {
      YearsGrow(9999, 10000);
      YearsGrow(10000, d.year);
      InsideYear(d);
    }
  }

  // ---- the fraction suffix ----

  lemma ThreeDigits(n: nat)
    requires n < 1000
    ensures n < Pow10(3)
  {
    assert Pow10(3) == 10 * Pow10(2) && Pow10(2) == 10 * Pow10(1) && Pow10(1) == 10 * Pow10(0);
  }

  lemma DropThreeDigits(n: nat, hi: nat, lo: nat)
    requires lo < 1000 && n == hi * 1000 + lo
    ensures n % 10 == lo % 10 && n / 10 % 10 == lo / 10 % 10 && n / 10 / 10 % 10 == lo / 10 / 10 % 10
    ensures n / 10 / 10 / 10 == hi
  {
    assert n / 10 == hi * 100 + lo / 10;
    assert n / 10 / 10 == hi * 10 + lo / 10 / 10;
  }

  lemma GroupedSplit(hi: nat, lo: nat, groups: nat)
    requires lo < 1000
    ensures Grouped(hi * 1000 + lo, groups + 1) == Grouped(hi, groups) + Grouped(lo, 1)
  {
    var n, w := hi * 1000 + lo, 3 * groups;
    DropThreeDigits(n, hi, lo);
    FixedThree(n, w);
    ThreeChars(lo);
  }

  lemma FixedThree(n: nat, w: nat)
    ensures Fixed(n, w + 3)
         == Fixed(n / 10 / 10 / 10, w) + [DigitChar(n / 10 / 10 % 10), DigitChar(n / 10 % 10), DigitChar(n % 10)]
  {
    assert Fixed(n, w + 3) == Fixed(n / 10, w + 2) + [DigitChar(n % 10)];
    assert Fixed(n / 10, w + 2) == Fixed(n / 10 / 10, w + 1) + [DigitChar(n / 10 % 10)];
    assert Fixed(n / 10 / 10, w + 1) == Fixed(n / 10 / 10 / 10, w) + [DigitChar(n / 10 / 10 % 10)];
  }

  lemma ThreeChars(lo: nat)
    requires lo < 1000
    ensures Grouped(lo, 1) == [DigitChar(lo / 10 / 10 % 10), DigitChar(lo / 10 % 10), DigitChar(lo % 10)]
  {
    assert Fixed(lo, 3) == Fixed(lo / 10, 2) + [DigitChar(lo % 10)];
    assert Fixed(lo / 10, 2) == Fixed(lo / 10 / 10, 1) + [DigitChar(lo / 10 % 10)];
    assert Fixed(lo / 10 / 10, 1) == Fixed(lo / 1000, 0) + [DigitChar(lo / 10 / 10 % 10)];
  }

  const UTC := "+00:00"

  function LowGroup(c: nat): string { if c == 0 then UTC else Grouped(c, 1) + UTC }

  function MidGroup(b: nat, c: nat): string { if b == 0 && c == 0 then UTC else Grouped(b, 1) + LowGroup(c) }

  function Tail(a: nat, b: nat, c: nat): string {
    if a == 0 && b == 0 && c == 0 then UTC else "." + (Grouped(a, 1) + MidGroup(b, c))
  }

  lemma Groups(a: nat, b: nat, c: nat)
    requires a < 1000 && b < 1000 && c < 1000
    ensures var n := a * 1_000_000 + b * 1_000 + c;
            && n < NANOS
            && (n % 1_000_000 == 0 <==> b == 0 && c == 0) && n / 1_000_000 == a
            && (n % 1_000 == 0 <==> c == 0) && n / 1_000 == a * 1_000 + b
  {
    var n := a * 1_000_000 + b * 1_000 + c;
    assert n == 1_000_000 * a + (b * 1_000 + c);
    assert n == 1_000 * (a * 1_000 + b) + c;
  }

  lemma Regroup(a: string, b: string, c: string)
    ensures "." + (a + b + c) + UTC == "." + (a + (b + (c + UTC)))
    ensures "." + (a + b) + UTC == "." + (a + (b + UTC))
    ensures "." + a + UTC == "." + (a + UTC)
  {
  }

  lemma FractionIsTail(n: nat, a: nat, b: nat, c: nat)
    requires a < 1000 && b < 1000 && c < 1000 && n == a * 1_000_000 + b * 1_000 + c && n < NANOS
    ensures Fraction(n) + UTC == Tail(a, b, c)
  {
    Groups(a, b, c);
    Regroup(Grouped(a, 1), Grouped(b, 1), Grouped(c, 1));
    if b != 0 && c == 0 {
      GroupedSplit(a, b, 1);
    } else if c != 0 {
      assert Grouped(n, 3) == Grouped(a, 1) + Grouped(b, 1) + Grouped(c, 1) by {
        GroupedSplit(a, b, 1);
        assert n == (a * 1_000 + b) * 1_000 + c;
        GroupedSplit(a * 1_000 + b, c, 2);
      }
    }
  }

  /** The offset sign sorts before any digit. */
  lemma SignBeforeDigits(n: nat, rest: string)
    ensures LexLess(UTC, Grouped(n, 1) + rest) && !LexLess(Grouped(n, 1) + rest, UTC)
  {
    assert IsDigit(Grouped(n, 1)[0]);
  }

  lemma GroupOrder(a: nat, b: nat, x: string, y: string)
    requires a < 1000 && b < 1000
    ensures LexLess(Grouped(a, 1) + x, Grouped(b, 1) + y) <==> a < b || (a == b && LexLess(x, y))
  {
    ThreeDigits(a);
    ThreeDigits(b);
    FixedOrder(a, b, 3);
    LexConcat(Grouped(a, 1), Grouped(b, 1), x, y);
  }

  lemma LowGroupOrder(c: nat, f: nat)
    requires c < 1000 && f < 1000
    ensures LexLess(LowGroup(c), LowGroup(f)) <==> c < f
  {
    LexIrreflexive(UTC);
    SignBeforeDigits(c, UTC);
    SignBeforeDigits(f, UTC);
    GroupOrder(c, f, UTC, UTC);
  }

  lemma MidGroupOrder(b: nat, c: nat, e: nat, f: nat)
    requires b < 1000 && c < 1000 && e < 1000 && f < 1000
    ensures LexLess(MidGroup(b, c), MidGroup(e, f)) <==> b < e || (b == e && c < f)
  {
    LexIrreflexive(UTC);
    SignBeforeDigits(b, LowGroup(c));
    SignBeforeDigits(e, LowGroup(f));
    GroupOrder(b, e, LowGroup(c), LowGroup(f));
    LowGroupOrder(c, f);
  }

  lemma TailOrder(a: nat, b: nat, c: nat, d: nat, e: nat, f: nat)
    requires a < 1000 && b < 1000 && c < 1000 && d < 1000 && e < 1000 && f < 1000
    ensures LexLess(Tail(a, b, c), Tail(d, e, f)) <==> a < d || (a == d && (b < e || (b == e && c < f)))
  {
    LexIrreflexive(UTC);
    var x, y := Grouped(a, 1) + MidGroup(b, c), Grouped(d, 1) + MidGroup(e, f);
    LexConcat(".", ".", x, y);
    LexIrreflexive(".");
    GroupOrder(a, d, MidGroup(b, c), MidGroup(e, f));
    MidGroupOrder(b, c, e, f);
  }

  /** Fractions of 0, 3, 6 or 9 digits compare as the nanoseconds do. */
  lemma FractionOrder(n: nat, m: nat)
    requires n < NANOS && m < NANOS
    ensures LexLess(Fraction(n) + UTC, Fraction(m) + UTC) <==> n < m
  {
    var a, b, c := SplitGroups(n);
    var d, e, f := SplitGroups(m);
    FractionIsTail(n, a, b, c);
    FractionIsTail(m, d, e, f);
    TailOrder(a, b, c, d, e, f);
  }

  lemma SplitGroups(n: nat) returns (a: nat, b: nat, c: nat)
    requires n < NANOS
    ensures a < 1000 && b < 1000 && c < 1000 && n == a * 1_000_000 + b * 1_000 + c
  {
    a, b, c := n / 1_000_000, n / 1_000 % 1_000, n % 1_000;
    assert n / 1_000 / 1_000 == a;
  }

  // ---- the clock ----

  lemma ClockFits(i: Instant)
    requires ValidInstant(i)
    ensures Fits(Clock(i), ClockLayout())
  {
    assert Pow10(2) == 10 * Pow10(1) && Pow10(1) == 10 * Pow10(0);
  }

  lemma EarlierOne(a: nat, b: nat)
    ensures Earlier([a], [b]) <==> a < b
  {
    var none: seq<nat> := [];
    assert [a][1..] == none && [b][1..] == none;
    assert !Earlier(none, none);
  }

  lemma EarlierTwo(a: nat, b: nat, c: nat, d: nat)
    ensures Earlier([a, b], [c, d]) <==> (a < c || (a == c && b < d))
  {
    EarlierOne(b, d);
    assert [a, b][1..] == [b] && [c, d][1..] == [d];
  }

  lemma EarlierThree(a: seq<nat>, b: seq<nat>)
    requires |a| == |b| == 3
    ensures Earlier(a, b) <==> (a[0] < b[0] || (a[0] == b[0] && (a[1] < b[1] || (a[1] == b[1] && a[2] < b[2]))))
  {
    EarlierTwo(a[1], a[2], b[1], b[2]);
    assert a[1..] == [a[1], a[2]] && b[1..] == [b[1], b[2]];
  }

  /** Order of two instants of the same day. */
  predicate SoonerInDay(i: Instant, j: Instant) {
    SecondOfDay(i) < SecondOfDay(j) || (SecondOfDay(i) == SecondOfDay(j) && i.frac < j.frac)
  }

  lemma ClockOrder(i: Instant, j: Instant)
    requires ValidInstant(i) && ValidInstant(j)
    ensures LexLess(ClockText(i), ClockText(j)) <==> SoonerInDay(i, j)
  {
    ClockFits(i);
    ClockFits(j);
    FieldsOrder(Clock(i), Clock(j), ClockLayout(), Fraction(Nanos(i)) + UTC, Fraction(Nanos(j)) + UTC);
    FractionOrder(Nanos(i), Nanos(j));
    EarlierThree(Clock(i), Clock(j));
    MinuteOrder(i, j);
  }

  lemma MinuteOrder(i: Instant, j: Instant)
    requires ValidInstant(i) && ValidInstant(j)
    ensures SoonerInDay(i, j) <==>
            (var a, b := Clock(i), Clock(j);
             || a[0] < b[0]
             || (a[0] == b[0] && (a[1] < b[1] || (a[1] == b[1] && a[2] < b[2])))
             || (a == b && Nanos(i) < Nanos(j)))
  {
    var s, t := SecondOfDay(i), SecondOfDay(j);
    assert s % 60 == i.secs % 60 && t % 60 == j.secs % 60;
    assert s / 3600 == s / 60 / 60 && t / 3600 == t / 60 / 60;
  }

  // ---- the whole string ----

  predicate OverflowsYear(i: Instant)
    requires ValidInstant(i)
  {
    UtcDate(i).year > 9999
  }

  lemma DateFits(d: Date)
    requires ValidDate(d)
    ensures Fits([d.month, d.day], DateLayout())
  {
    assert Pow10(2) == 10 * Pow10(1) && Pow10(1) == 10 * Pow10(0);
  }

  lemma InstantOrder(i: Instant, j: Instant)
    requires ValidInstant(i) && ValidInstant(j)
    ensures Before(i, j) <==> (DateLess(UtcDate(i), UtcDate(j)) || (UtcDate(i) == UtcDate(j) && SoonerInDay(i, j)))
  {
    DateOrder(UtcDate(i), UtcDate(j));
    assert i.secs == i.secs / DAY * DAY + SecondOfDay(i) && j.secs == j.secs / DAY * DAY + SecondOfDay(j);
  }

  lemma AfterYearOrder(i: Instant, j: Instant)
    requires ValidInstant(i) && ValidInstant(j) && UtcDate(i).year == UtcDate(j).year
    ensures LexLess("-" + AfterYear(i), "-" + AfterYear(j))
       <==> (DateLess(UtcDate(i), UtcDate(j)) || (UtcDate(i) == UtcDate(j) && SoonerInDay(i, j)))
  {
    var d, e := UtcDate(i), UtcDate(j);
    DateFits(d);
    DateFits(e);
    FieldsOrder([d.month, d.day], [e.month, e.day], DateLayout(), ClockText(i), ClockText(j));
    EarlierTwo(d.month, d.day, e.month, e.day);
    LexConcat("-", "-", AfterYear(i), AfterYear(j));
    LexIrreflexive("-");
    ClockOrder(i, j);
  }

  lemma YearTextOrder(y: int, z: int, x: string, w: string)
    requires -1 <= y <= 10000 && -1 <= z <= 10000
    requires y > 9999 <==> z > 9999
    ensures LexLess(YearText(y) + x, YearText(z) + w) <==> y < z || (y == z && LexLess(x, w))
  {
    assert Pow10(4) == 10 * Pow10(3) && Pow10(3) == 10 * Pow10(2);
    assert Pow10(2) == 10 * Pow10(1) && Pow10(1) == 10 * Pow10(0);
    if y == z {
      LexConcat(YearText(y), YearText(z), x, w);
      LexIrreflexive(YearText(y));
    } else if y >= 0 && z >= 0 {
      FixedOrder(y, z, 4);
      LexConcat(YearText(y), YearText(z), x, w);
    } else if y < 0 {
      assert (YearText(y) + x)[0] == '-' && IsDigit((YearText(z) + w)[0]);
    } else {
      assert (YearText(z) + w)[0] == '-' && IsDigit((YearText(y) + x)[0]);
    }
  }

  lemma YearFirst(i: Instant)
    requires ValidInstant(i)
    ensures var c := ToRfc3339(i)[0];
            ToRfc3339(i) != "" && (UtcDate(i).year > 9999 ==> c == '+') && (UtcDate(i).year < 0 ==> c == '-')
            && (0 <= UtcDate(i).year <= 9999 ==> IsDigit(c))
  {
  }

  /** Two instants up to year 10000: their strings compare as the instants do if
      and only if both or neither lie in year 10000, unless they are equal. */
  lemma InstantStringOrder(i: Instant, j: Instant)
    requires ValidInstant(i) && ValidInstant(j) && i != j
    requires UtcDate(i).year <= 10000 && UtcDate(j).year <= 10000
    ensures (LexLess(ToRfc3339(i), ToRfc3339(j)) <==> Before(i, j)) <==> (OverflowsYear(i) <==> OverflowsYear(j))
  {
    var d, e := UtcDate(i), UtcDate(j);
    InstantOrder(i, j);
    if OverflowsYear(i) <==> OverflowsYear(j) {
      YearTextOrder(d.year, e.year, "-" + AfterYear(i), "-" + AfterYear(j));
      if d.year == e.year {
        AfterYearOrder(i, j);
      }
    } else {
      YearFirst(i);
      YearFirst(j);
    }
  }

  /** Whatever offsets two timestamps were written with, their normal forms
      compare as the instants do, except when exactly one of them is pushed into
      year 10000 by its offset: that one sorts first. */
  lemma StringOrderIsTimeOrderIff(s: OffsetDateTime, t: OffsetDateTime)
    requires Parsed(s) && Parsed(t) && ToInstant(s) != ToInstant(t)
    ensures (LexLess(Normalise(s), Normalise(t)) <==> Before(ToInstant(s), ToInstant(t)))
       <==> (OverflowsYear(ToInstant(s)) <==> OverflowsYear(ToInstant(t)))
  {
    YearRange(s);
    YearRange(t);
    InstantStringOrder(ToInstant(s), ToInstant(t));
  }

  /** Different instants never share a normal form. */
  lemma NormaliseInjective(s: OffsetDateTime, t: OffsetDateTime)
    requires Parsed(s) && Parsed(t)
    ensures Normalise(s) == Normalise(t) ==> ToInstant(s) == ToInstant(t)
  {
    if Normalise(s) == Normalise(t) && ToInstant(s) != ToInstant(t) {
      YearRange(s);
      YearRange(t);
      YearFirst(ToInstant(s));
      YearFirst(ToInstant(t));
      StringOrderIsTimeOrderIff(s, t);
      StringOrderIsTimeOrderIff(t, s);
      LexIrreflexive(Normalise(s));
    }
  }

  /** The normal form accepted for a new share, if it lies in the future. */
  function ValidateFuture(t: OffsetDateTime, now: Instant): (r: (bool, string))
    requires Parsed(t)
  {
    if Before(now, ToInstant(t)) then (true, Normalise(t)) else (false, "")
  }

  /** A share accepted as "in the future" passes the stored-string expiry test at
      the moment it is minted exactly when its instant is not in year 10000. */
  lemma MintedShareIsLiveIff(t: OffsetDateTime, now: Instant)
    requires Parsed(t) && ValidInstant(now)
    ensures ValidateFuture(t, now).0 && UtcDate(now).year <= 9999 ==>
              (LexLess(ToRfc3339(now), ValidateFuture(t, now).1) <==> !OverflowsYear(ToInstant(t)))
  {
    if ValidateFuture(t, now).0 && UtcDate(now).year <= 9999 {
      YearRange(t);
      InstantStringOrder(now, ToInstant(t));
    }
  }

  /** 9999-12-31T23:59:59-01:00 is such a timestamp. */
  lemma YearEndOverflows() returns (t: OffsetDateTime)
    ensures t == OffsetDateTime(Date(9999, 12, 31), 23, 59, 59, 0, -60)
    ensures Parsed(t) && OverflowsYear(ToInstant(t))
  {
    t := OffsetDateTime(Date(9999, 12, 31), 23, 59, 59, 0, -60);
    YearHasTwelveMonths(9999);
    var i := ToInstant(t);
    assert i.secs / DAY == DayNumber(t.date) + 1;
    var d := UtcDate(i);
    InsideYear(d);
    if d.year < 9999 {
      YearsGrow(d.year, 9999);
    }
  }
}
