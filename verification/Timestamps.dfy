/** `datetime.isoformat()` in UTC, and why comparing two such texts compares the two times. An instant is the number of
    microseconds since 0001-01-01T00:00:00. */
module Timestamps {
  import opened Text

  const MICROS_PER_SECOND := 1_000_000
  const MICROS_PER_DAY := 86_400 * MICROS_PER_SECOND

  predicate Leap(year: nat) {
    year % 4 == 0 && (year % 100 != 0 || year % 400 == 0)
  }

  function YearLength(year: nat): nat {
    if Leap(year) then 366 else 365
  }

  function MonthLength(year: nat, month: nat): nat {
    if month == 2 then (if Leap(year) then 29 else 28)
    else if month in {4, 6, 9, 11} then 30
    else 31
  }

  // The year holding day `d` counted from 1 January of `year`, and the day within it.
  function SplitYear(year: nat, d: nat): (r: (nat, nat))
    ensures r.0 >= year && r.1 < YearLength(r.0)
    decreases d
  {
    if d < YearLength(year) then (year, d) else SplitYear(year + 1, d - YearLength(year))
  }

  // The days from the start of `month` to the end of the year.
  function DaysLeft(year: nat, month: nat): nat
    requires month <= 13
    decreases 13 - month
  {
    if month == 13 then 0 else MonthLength(year, month) + DaysLeft(year, month + 1)
  }

  lemma TwelveMonths(year: nat)
    ensures DaysLeft(year, 1) == YearLength(year)
  {
    assert DaysLeft(year, 11) == 61;
    assert DaysLeft(year, 9) == 122;
    assert DaysLeft(year, 7) == 184;
    assert DaysLeft(year, 5) == 245;
    assert DaysLeft(year, 3) == 306;
  }

  function SplitMonth(year: nat, month: nat, d: nat): (r: (nat, nat))
    requires month <= 12 && d < DaysLeft(year, month)
    ensures month <= r.0 <= 12 && r.1 < MonthLength(year, r.0)
    decreases 12 - month
  {
    if d < MonthLength(year, month) then (month, d)
    else SplitMonth(year, month + 1, d - MonthLength(year, month))
  }

  datatype Fields = Fields(year: nat, month: nat, day: nat, hour: nat, minute: nat, second: nat, micro: nat)

  // Year, month and day of month of the day numbered `d`.
  function DateOf(d: nat): (r: (nat, nat, nat))
    ensures r.1 <= 12 && r.2 <= 31
  {
    var (year, yearDay) := SplitYear(1, d);
    TwelveMonths(year);
    var (month, day) := SplitMonth(year, 1, yearDay);
    (year, month, day + 1)
  }

  function FieldsOf(t: nat): Fields {
    var (year, month, day) := DateOf(t / MICROS_PER_DAY);
    var time := t % MICROS_PER_DAY;
    var second := time / MICROS_PER_SECOND;
    var minute := second / 60;
    Fields(year, month, day, minute / 60, minute % 60, second % 60, time % MICROS_PER_SECOND)
  }

  // The range of `datetime`: years 1 to 9999.
  predicate InRange(t: int) {
    0 <= t && SplitYear(1, t / MICROS_PER_DAY).0 <= 9999
  }

  function Digit(n: nat): char
    requires n < 10
  {
    ('0' as int + n) as char
  }

  // `n` in decimal, padded with zeros to `width` characters.
  function Digits(n: nat, width: nat): (s: string)
    ensures |s| == width
  {
    if width == 0 then "" else Digits(n / 10, width - 1) + [Digit(n % 10)]
  }

  // ----- Fixed-width numbers compare as numbers.

  function Pow10(w: nat): nat {
    if w == 0 then 1 else 10 * Pow10(w - 1)
  }

  lemma {:induction false} DigitsOrder(m: nat, n: nat, w: nat)
    requires m < n < Pow10(w)
    ensures TextLess(Digits(m, w), Digits(n, w))
  {
    if m / 10 < n / 10 {
      DigitsOrder(m / 10, n / 10, w - 1);
      DecidedEarly(Digits(m / 10, w - 1), Digits(n / 10, w - 1), [Digit(m % 10)], [Digit(n % 10)]);
    } else {
      SkipPrefix(Digits(m / 10, w - 1), [Digit(m % 10)], [Digit(n % 10)]);
    }
  }

  // ----- A text made of fixed-width fields compares field by field.

  datatype Field = Field(value: nat, width: nat, mark: string)

  function FieldText(fs: seq<Field>): string {
    if fs == [] then "" else Digits(fs[0].value, fs[0].width) + fs[0].mark + FieldText(fs[1..])
  }

  predicate SameShape(fs: seq<Field>, gs: seq<Field>) {
    && |fs| == |gs|
    && (forall i :: 0 <= i < |fs| ==> fs[i].width == gs[i].width && fs[i].mark == gs[i].mark)
    && (forall i :: 0 <= i < |fs| ==> fs[i].value < Pow10(fs[i].width))
    && (forall i :: 0 <= i < |gs| ==> gs[i].value < Pow10(gs[i].width))
  }

  predicate FieldsLess(fs: seq<Field>, gs: seq<Field>)
    requires |fs| == |gs|
  {
    fs != [] && (fs[0].value < gs[0].value || (fs[0].value == gs[0].value && FieldsLess(fs[1..], gs[1..])))
  }

  lemma Regroup(a: string, b: string, c: string, x: string)
    ensures a + b + c + x == a + (b + (c + x))
  {}

  lemma {:induction false} FieldTextOrder(fs: seq<Field>, gs: seq<Field>, x: string, y: string)
    requires SameShape(fs, gs) && FieldsLess(fs, gs)
    ensures TextLess(FieldText(fs) + x, FieldText(gs) + y)
  {
    var f, g := fs[0], gs[0];
    var a, b := FieldText(fs[1..]) + x, FieldText(gs[1..]) + y;
    Regroup(Digits(f.value, f.width), f.mark, FieldText(fs[1..]), x);
    Regroup(Digits(g.value, g.width), g.mark, FieldText(gs[1..]), y);
    if f.value < g.value {
      DigitsOrder(f.value, g.value, f.width);
      DecidedEarly(Digits(f.value, f.width), Digits(g.value, g.width), f.mark + a, g.mark + b);
    } else {
      FieldTextOrder(fs[1..], gs[1..], x, y);
      SkipPrefix(f.mark, a, b);
      SkipPrefix(Digits(f.value, f.width), f.mark + a, g.mark + b);
    }
  }

  // ----- Later days have later calendar fields.

  lemma {:induction false} SplitYearOrder(year: nat, d: nat, e: nat)
    requires d < e
    ensures var (y, r), (y', r') := SplitYear(year, d), SplitYear(year, e);
            y < y' || (y == y' && r < r')
    decreases d
  {
    if d >= YearLength(year) { SplitYearOrder(year + 1, d - YearLength(year), e - YearLength(year)); }
  }

  lemma {:induction false} SplitMonthOrder(year: nat, month: nat, d: nat, e: nat)
    requires month <= 12 && d < e < DaysLeft(year, month)
    ensures var (m, r), (m', r') := SplitMonth(year, month, d), SplitMonth(year, month, e);
            m < m' || (m == m' && r < r')
    decreases 12 - month
  {
    if d >= MonthLength(year, month) {
      SplitMonthOrder(year, month + 1, d - MonthLength(year, month), e - MonthLength(year, month));
    }
  }

  // ----- The text of an instant, and the main result.

  // The fields of an instant with the punctuation `isoformat` writes after each one.
  function Clock(f: Fields): seq<Field> {
    [Field(f.year, 4, "-"), Field(f.month, 2, "-"), Field(f.day, 2, "T"),
     Field(f.hour, 2, ":"), Field(f.minute, 2, ":"), Field(f.second, 2, "")]
  }

  function Fraction(f: Fields): string {
    (if f.micro == 0 then "" else "." + Digits(f.micro, 6)) + "+00:00"
  }

  function IsoFormat(t: nat): string {
    FieldText(Clock(FieldsOf(t))) + Fraction(FieldsOf(t))
  }

  lemma ClockInBounds(t: int)
    requires InRange(t)
    ensures forall i :: 0 <= i < 6 ==> Clock(FieldsOf(t))[i].value < Pow10(Clock(FieldsOf(t))[i].width)
  {
    assert Pow10(2) == 100 && Pow10(4) == 10_000;
  }

  lemma FractionOrder(m: Fields, n: Fields)
    requires m.micro < n.micro < 1_000_000
    ensures TextLess(Fraction(m), Fraction(n))
  {
    if m.micro == 0 {
      assert Fraction(m)[0] == '+' && Fraction(n)[0] == '.';
    } else {
      assert Pow10(6) == 1_000_000;
      DigitsOrder(m.micro, n.micro, 6);
      DecidedEarly(Digits(m.micro, 6), Digits(n.micro, 6), "+00:00", "+00:00");
      SkipPrefix(".", Digits(m.micro, 6) + "+00:00", Digits(n.micro, 6) + "+00:00");
      assert Fraction(m) == "." + (Digits(m.micro, 6) + "+00:00");
      assert Fraction(n) == "." + (Digits(n.micro, 6) + "+00:00");
    }
  }

  lemma DateOrder(d: nat, e: nat)
    requires d < e
    ensures var p, q := DateOf(d), DateOf(e);
            p.0 < q.0 || (p.0 == q.0 && (p.1 < q.1 || (p.1 == q.1 && p.2 < q.2)))
  {
    SplitYearOrder(1, d, e);
    var (y, r) := SplitYear(1, d);
    var (y', r') := SplitYear(1, e);
    if y == y' {
      TwelveMonths(y);
      SplitMonthOrder(y, 1, r, r');
    }
  }

  // The clock fields of a later instant are lexicographically larger, or equal with a larger fraction.
  lemma FieldsOrder(t: nat, u: nat)
    requires t < u
    ensures var f, g := FieldsOf(t), FieldsOf(u);
            FieldsLess(Clock(f), Clock(g)) || (Clock(f) == Clock(g) && f.micro < g.micro)
  {
    var f, g := FieldsOf(t), FieldsOf(u);
    var d, e := t / MICROS_PER_DAY, u / MICROS_PER_DAY;
    if d < e {
      DateOrder(d, e);
      DayDecides(Clock(f), Clock(g));
    } else {
      var p, q := t % MICROS_PER_DAY, u % MICROS_PER_DAY;
      DivOrder(p, q, MICROS_PER_SECOND);
      SecondDecides(f, g, p / MICROS_PER_SECOND, q / MICROS_PER_SECOND);
    }
  }

  // Quotient and remainder compare lexicographically.
  lemma DivOrder(p: nat, q: nat, k: nat)
    requires p < q && k > 0
    ensures p / k < q / k || (p / k == q / k && p % k < q % k)
  {
    if p / k > q / k { Times(k, p / k, q / k); }
    assert k * (p / k) + p % k == p && k * (q / k) + q % k == q;
  }

  lemma OneMore(k: nat, x: nat)
    ensures k * (x + 1) == k * x + k
  {}

  lemma {:induction false} Times(k: nat, a: nat, b: nat)
    requires a > b
    ensures k * a >= k * b + k
  {
    OneMore(k, a - 1);
    if a - 1 > b { Times(k, a - 1, b); }
  }

  // The first field that differs decides.
  lemma {:induction false} FirstDifference(c: seq<Field>, c': seq<Field>, i: nat)
    requires |c| == |c'| && i < |c| && c[..i] == c'[..i] && c[i].value < c'[i].value
    ensures FieldsLess(c, c')
  {
    if i > 0 {
      assert c[0] == c[..i][0] && c'[0] == c'[..i][0];
      assert c[1..][..i - 1] == c[..i][1..] && c'[1..][..i - 1] == c'[..i][1..];
      FirstDifference(c[1..], c'[1..], i - 1);
    }
  }

  lemma DayDecides(c: seq<Field>, c': seq<Field>)
    requires |c| == |c'| == 6 && forall i :: 0 <= i < 3 ==> (c[i].width, c[i].mark) == (c'[i].width, c'[i].mark)
    requires || c[0].value < c'[0].value
             || (c[0].value == c'[0].value && c[1].value < c'[1].value)
             || (c[0].value == c'[0].value && c[1].value == c'[1].value && c[2].value < c'[2].value)
    ensures FieldsLess(c, c')
  {
    FirstDifference(c, c', if c[0].value < c'[0].value then 0 else if c[1].value < c'[1].value then 1 else 2);
  }

  lemma SecondDecides(f: Fields, g: Fields, a: nat, b: nat)
    requires (f.year, f.month, f.day) == (g.year, g.month, g.day)
    requires (f.hour, f.minute, f.second) == (a / 60 / 60, a / 60 % 60, a % 60)
    requires (g.hour, g.minute, g.second) == (b / 60 / 60, b / 60 % 60, b % 60)
    requires a < b || (a == b && f.micro < g.micro)
    ensures FieldsLess(Clock(f), Clock(g)) || (Clock(f) == Clock(g) && f.micro < g.micro)
  {
    if a < b {
      DivOrder(a, b, 60);
      if a / 60 < b / 60 { DivOrder(a / 60, b / 60, 60); }
      hide FieldsLess;
      FirstDifference(Clock(f), Clock(g), if f.hour < g.hour then 3 else if f.minute < g.minute then 4 else 5);
    }
  }

  lemma IsoOrder(t: nat, u: nat)
    requires InRange(t) && InRange(u) && t < u
    ensures TextLess(IsoFormat(t), IsoFormat(u))
  {
    var f, g := FieldsOf(t), FieldsOf(u);
    FieldsOrder(t, u);
    if FieldsLess(Clock(f), Clock(g)) {
      ClockInBounds(t);
      ClockInBounds(u);
      FieldTextOrder(Clock(f), Clock(g), Fraction(f), Fraction(g));
    } else {
      FractionOrder(f, g);
      SkipPrefix(FieldText(Clock(f)), Fraction(f), Fraction(g));
    }
  }

  /** Text order of two timestamps is time order, also when only one of them shows a fraction. */
  lemma TextOrderIsTimeOrder(t: nat, u: nat)
    requires InRange(t) && InRange(u)
    ensures TextLess(IsoFormat(t), IsoFormat(u)) <==> t < u
    ensures IsoFormat(t) == IsoFormat(u) <==> t == u
  {
    Irreflexive(IsoFormat(t));
    if t < u {
      IsoOrder(t, u);
    } else if u < t {
      IsoOrder(u, t);
      Asymmetric(IsoFormat(u), IsoFormat(t));
    }
  }
}
