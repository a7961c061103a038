/** Decimal digits and lexicographic order on strings. */
module Text {

  function Pow10(w: nat): (p: nat)
    ensures p > 0
  {
    if w == 0 then 1 else 10 * Pow10(w - 1)
  }

  lemma MillionIsSixDigits()
    ensures Pow10(6) == 1_000_000
  {
    assert Pow10(3) == 1000;
    assert Pow10(4) == 10_000;
    assert Pow10(5) == 100_000;
  }

  function DigitChar(d: nat): char
    requires d < 10
  {
    '0' + d as char
  }

  predicate IsDigit(c: char) { '0' <= c <= '9' }

  function DigitOf(c: char): (d: nat)
    requires IsDigit(c)
    ensures d < 10 && DigitChar(d) == c
  {
    (c as int) - ('0' as int)
  }

  predicate AllDigits(s: string) { forall i :: 0 <= i < |s| ==> IsDigit(s[i]) }

  /** `n` in exactly `w` digits, zero padded. */
  function Fixed(n: nat, w: nat): (s: string)
    ensures |s| == w && AllDigits(s)
  {
    if w == 0 then "" else Fixed(n / 10, w - 1) + [DigitChar(n % 10)]
  }

  /** `n` in as few digits as possible, at least one. */
  function Decimal(n: nat): (s: string)
    ensures |s| > 0 && AllDigits(s)
  {
    if n < 10 then [DigitChar(n)] else Decimal(n / 10) + [DigitChar(n % 10)]
  }

  function Value(s: string): nat
    requires AllDigits(s)
  {
    if s == "" then 0 else 10 * Value(s[..|s| - 1]) + DigitOf(s[|s| - 1])
  }

  lemma {:induction false} FixedValue(n: nat, w: nat)
    requires n < Pow10(w)
    ensures Value(Fixed(n, w)) == n
  {
    if w > 0 {
      FixedValue(n / 10, w - 1);
      assert Fixed(n, w)[..w - 1] == Fixed(n / 10, w - 1);
    }
  }

  lemma {:induction false} DecimalValue(n: nat)
    ensures Value(Decimal(n)) == n
  {
    if n < 10 {
      assert Decimal(n)[..0] == "";
    } else {
      DecimalValue(n / 10);
      assert Decimal(n)[..|Decimal(n)| - 1] == Decimal(n / 10);
    }
  }

  // ---- reading text from the front ----

  /** A value and what is left behind it. */
  datatype Read<T> = Read(value: T, rest: string) | Malformed

  function Prepend(c: char, r: Read<string>): Read<string> {
    if r.Read? then Read([c] + r.value, r.rest) else Malformed
  }

  /** The longest prefix of digits. */
  function Digits(s: string): (r: Read<string>)
    ensures r.Read? && AllDigits(r.value) && |r.rest| <= |s|
  {
    if s == "" || !IsDigit(s[0]) then Read("", s) else Prepend(s[0], Digits(s[1..]))
  }

  lemma {:induction false} DigitsRead(d: string, tail: string)
    requires AllDigits(d) && (tail == "" || !IsDigit(tail[0]))
    ensures Digits(d + tail) == Read(d, tail)
  {
    if d == "" {
      assert d + tail == tail;
    } else {
      DigitsRead(d[1..], tail);
      assert (d + tail)[1..] == d[1..] + tail;
      assert d == [d[0]] + d[1..];
    }
  }

  // ---- lexicographic order ----

  predicate LexLess(a: string, b: string) {
    b != "" && (a == "" || a[0] < b[0] || (a[0] == b[0] && LexLess(a[1..], b[1..])))
  }

  lemma {:induction false} LexIrreflexive(a: string)
    ensures !LexLess(a, a)
  {
    if a != "" {
      LexIrreflexive(a[1..]);
    }
  }

  lemma {:induction false} LexTransitive(a: string, b: string, c: string)
    requires LexLess(a, b) && LexLess(b, c)
    ensures LexLess(a, c)
  {
    if a != "" && a[0] == b[0] == c[0] {
      LexTransitive(a[1..], b[1..], c[1..]);
    }
  }

  lemma {:induction false} LexTotal(a: string, b: string)
    ensures LexLess(a, b) || a == b || LexLess(b, a)
  {
    if a != "" && b != "" && a[0] == b[0] {
      LexTotal(a[1..], b[1..]);
      assert a == [a[0]] + a[1..] && b == [b[0]] + b[1..];
    }
  }

  /** Equally long heads decide the order unless they are equal. */
  lemma {:induction false} LexConcat(a: string, b: string, x: string, y: string)
    requires |a| == |b|
    ensures LexLess(a + x, b + y) <==> LexLess(a, b) || (a == b && LexLess(x, y))
  {
    if a == "" {
      assert a + x == x && b + y == y;
    } else {
      assert (a + x)[1..] == a[1..] + x && (b + y)[1..] == b[1..] + y;
      LexConcat(a[1..], b[1..], x, y);
      assert a[1..] == b[1..] && a[0] == b[0] ==> a == b by {
        assert a == [a[0]] + a[1..] && b == [b[0]] + b[1..];
      }
    }
  }

  lemma {:induction false} FixedOrder(n: nat, m: nat, w: nat)
    requires n < Pow10(w) && m < Pow10(w)
    ensures LexLess(Fixed(n, w), Fixed(m, w)) <==> n < m
    ensures Fixed(n, w) == Fixed(m, w) <==> n == m
  {
    if w > 0 {
      FixedOrder(n / 10, m / 10, w - 1);
      LexConcat(Fixed(n / 10, w - 1), Fixed(m / 10, w - 1), [DigitChar(n % 10)], [DigitChar(m % 10)]);
      assert LexLess([DigitChar(n % 10)], [DigitChar(m % 10)]) <==> n % 10 < m % 10;
      if Fixed(n, w) == Fixed(m, w) {
        assert Fixed(n, w)[..w - 1] == Fixed(m, w)[..w - 1];
        assert Fixed(n, w)[w - 1] == Fixed(m, w)[w - 1];
      }
    }
  }

  // ---- fixed-width fields with separators ----

  datatype Field = Field(width: nat, separator: string)

  predicate Fits(values: seq<nat>, layout: seq<Field>) {
    |values| == |layout| && forall i :: 0 <= i < |values| ==> values[i] < Pow10(layout[i].width)
  }

  function PrintFields(values: seq<nat>, layout: seq<Field>, tail: string): string
    requires |values| == |layout|
  {
    if values == [] then tail
    else Fixed(values[0], layout[0].width) + (layout[0].separator + PrintFields(values[1..], layout[1..], tail))
  }

  /** Lexicographic order on equally long value lists. */
  predicate Earlier(a: seq<nat>, b: seq<nat>)
    requires |a| == |b|
  {
    a != [] && (a[0] < b[0] || (a[0] == b[0] && Earlier(a[1..], b[1..])))
  }

  lemma FieldOrder(n: nat, m: nat, w: nat, separator: string, x: string, y: string)
    requires n < Pow10(w) && m < Pow10(w)
    ensures LexLess(Fixed(n, w) + (separator + x), Fixed(m, w) + (separator + y))
       <==> n < m || (n == m && LexLess(x, y))
  {
    FixedOrder(n, m, w);
    LexConcat(Fixed(n, w), Fixed(m, w), separator + x, separator + y);
    LexConcat(separator, separator, x, y);
    LexIrreflexive(separator);
  }

  lemma {:induction false} FieldsOrder(a: seq<nat>, b: seq<nat>, layout: seq<Field>, x: string, y: string)
    requires Fits(a, layout) && Fits(b, layout)
    ensures LexLess(PrintFields(a, layout, x), PrintFields(b, layout, y))
       <==> Earlier(a, b) || (a == b && LexLess(x, y))
  {
    if a != [] {
      FieldsOrder(a[1..], b[1..], layout[1..], x, y);
      FieldOrder(a[0], b[0], layout[0].width, layout[0].separator,
                 PrintFields(a[1..], layout[1..], x), PrintFields(b[1..], layout[1..], y));
      HeadAndTail(a, b);
    }
  }

  lemma HeadAndTail(a: seq<nat>, b: seq<nat>)
    requires |a| == |b| > 0
    ensures a == b <==> a[0] == b[0] && a[1..] == b[1..]
  {
    assert a == [a[0]] + a[1..] && b == [b[0]] + b[1..];
  }
}
