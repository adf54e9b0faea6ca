/** What the text of an instant says: the calendar date and the time of day, in figures. */
module TimestampLaws {
  import opened Timestamps

  // ----- Figures.

  // The number a row of figures denotes.
  function Number(s: string): int {
    if s == "" then 0 else 10 * Number(s[..|s| - 1]) + (s[|s| - 1] as int - '0' as int)
  }

  lemma {:induction false} DigitsDenote(n: nat, w: nat)
    requires n < Pow10(w)
    ensures Number(Digits(n, w)) == n
  {
    if w > 0 {
      DigitsDenote(n / 10, w - 1);
      var s := Digits(n, w);
      assert s[..|s| - 1] == Digits(n / 10, w - 1);
    }
  }

  // ----- The calendar, counted in closed form.

  function LeapDays(years: nat): int {
    years / 4 - years / 100 + years / 400
  }

  // The days of the common year before each month.
  const BEFORE_MONTH: seq<nat> := [0, 31, 59, 90, 120, 151, 181, 212, 243, 273, 304, 334]

  // The days before a date, counted from 1 January of year 1.
  function DaysBefore(year: nat, month: nat, day: nat): int
    requires year >= 1 && 1 <= month <= 12
  {
    365 * (year - 1) + LeapDays(if month > 2 then year else year - 1) + BEFORE_MONTH[month - 1] + day - 1
  }

  lemma LeapDaysNext(year: nat)
    requires year >= 1
    ensures LeapDays(year) - LeapDays(year - 1) == if Leap(year) then 1 else 0
  {
    DivNext(year, 4);
    DivNext(year, 100);
    DivNext(year, 400);
    Multiples(year);
  }

  lemma DivNext(n: nat, k: nat)
    requires n >= 1 && k in {4, 100, 400}
    ensures n / k - (n - 1) / k == if n % k == 0 then 1 else 0
  {}

  lemma Multiples(n: nat)
    ensures n % 400 == 0 ==> n % 100 == 0
    ensures n % 100 == 0 ==> n % 4 == 0
  {
    if n % 400 == 0 { NoRemainder(n, 100, 4 * (n / 400)); }
    if n % 100 == 0 { NoRemainder(n, 4, 25 * (n / 100)); }
  }

  lemma NoRemainder(n: nat, k: nat, q: nat)
    requires k in {4, 100} && n == k * q
    ensures n % k == 0
  {}

  lemma {:induction false} YearsAddUp(year: nat, d: nat)
    requires year >= 1
    ensures var (y, rest) := SplitYear(year, d);
      365 * (year - 1) + LeapDays(year - 1) + d == 365 * (y - 1) + LeapDays(y - 1) + rest
    decreases d
  {
    LeapDaysNext(year);
    if d >= YearLength(year) { YearsAddUp(year + 1, d - YearLength(year)); }
  }

  function BeforeMonth(year: nat, month: nat): int
    requires 1 <= month <= 12
  {
    BEFORE_MONTH[month - 1] + if month > 2 && Leap(year) then 1 else 0
  }

  lemma MonthNext(year: nat, month: nat)
    requires 1 <= month < 12
    ensures BeforeMonth(year, month) + MonthLength(year, month) == BeforeMonth(year, month + 1)
  {
    hide Leap;
  }

  lemma {:induction false} MonthsAddUp(year: nat, month: nat, d: nat)
    requires 1 <= month <= 12 && d < DaysLeft(year, month)
    ensures var (m, rest) := SplitMonth(year, month, d); BeforeMonth(year, month) + d == BeforeMonth(year, m) + rest
    decreases 12 - month
  {
    if d >= MonthLength(year, month) {
      assert month < 12 by { assert DaysLeft(year, 13) == 0; }
      MonthNext(year, month);
      hide BeforeMonth, MonthLength;
      MonthsAddUp(year, month + 1, d - MonthLength(year, month));
    }
  }

  lemma DaysBeforeIs(year: nat, month: nat, day: nat)
    requires year >= 1 && 1 <= month <= 12
    ensures DaysBefore(year, month, day) ==
            365 * (year - 1) + LeapDays(year - 1) + BeforeMonth(year, month) + day - 1
  {
    LeapDaysNext(year);
    hide LeapDays, Leap;
  }

  lemma DateIs(d: nat)
    ensures var (y, rest) := SplitYear(1, d);
      && y >= 1 && rest < DaysLeft(y, 1)
      && var (m, day) := SplitMonth(y, 1, rest);
         DateOf(d) == (y, m, day + 1) && 1 <= m <= 12 && day < 31
  {
    TwelveMonths(SplitYear(1, d).0);
  }

  lemma DateCounts(d: nat)
    ensures var (y, m, day) := DateOf(d);
      y >= 1 && 1 <= m <= 12 && 1 <= day <= 31 && d == DaysBefore(y, m, day)
  {
    DateIs(d);
    var (y, rest) := SplitYear(1, d);
    var (m, day) := SplitMonth(y, 1, rest);
    YearsAddUp(1, d);
    MonthsAddUp(y, 1, rest);
    DaysBeforeIs(y, m, day + 1);
    assert LeapDays(0) == 0 && BeforeMonth(y, 1) == 0;
    hide *;
  }

  lemma TimeCounts(t: nat)
    ensures var f := FieldsOf(t);
      && f.hour < 24 && f.minute < 60 && f.second < 60 && f.micro < 1_000_000
      && t % MICROS_PER_DAY == ((f.hour * 60 + f.minute) * 60 + f.second) * 1_000_000 + f.micro
  {}

  /** The date and time of an instant are those of the calendar. */
  lemma FieldsAreTheDate(t: nat)
    ensures var f := FieldsOf(t);
      && f.year >= 1 && 1 <= f.month <= 12 && 1 <= f.day <= 31
      && f.hour < 24 && f.minute < 60 && f.second < 60 && f.micro < 1_000_000
      && t == (((DaysBefore(f.year, f.month, f.day) * 24 + f.hour) * 60 + f.minute) * 60 + f.second) * 1_000_000 +
              f.micro
  {
    DateCounts(t / MICROS_PER_DAY);
    TimeCounts(t);
    FieldsSplit(t);
    hide *;
    var f := FieldsOf(t);
    Recombine(t, DaysBefore(f.year, f.month, f.day), f.hour, f.minute, f.second, f.micro);
  }

  lemma FieldsSplit(t: nat)
    ensures var f := FieldsOf(t); (f.year, f.month, f.day) == DateOf(t / MICROS_PER_DAY)
  {}

  lemma Recombine(t: nat, days: int, hour: nat, minute: nat, second: nat, micro: nat)
    requires t / MICROS_PER_DAY == days
    requires t % MICROS_PER_DAY == ((hour * 60 + minute) * 60 + second) * 1_000_000 + micro
    ensures t == (((days * 24 + hour) * 60 + minute) * 60 + second) * 1_000_000 + micro
  {}

  /** The text of an instant shows them in figures, and the microseconds only if there are any. */
  lemma IsoFormatShowsFields(t: nat)
    requires InRange(t)
    ensures var s, f := IsoFormat(t), FieldsOf(t);
      && |s| >= 25 && s[4] == '-' && s[7] == '-' && s[10] == 'T' && s[13] == ':' && s[16] == ':'
      && Number(s[..4]) == f.year && Number(s[5..7]) == f.month && Number(s[8..10]) == f.day
      && Number(s[11..13]) == f.hour && Number(s[14..16]) == f.minute && Number(s[17..19]) == f.second
      && (f.micro == 0 ==> s[19..] == "+00:00")
      && (f.micro > 0 ==> |s| == 32 && s[19] == '.' && Number(s[20..26]) == f.micro && s[26..] == "+00:00")
  {
    var s, f := IsoFormat(t), FieldsOf(t);
    InBounds(t);
    DigitsDenote(f.year, 4);
    DigitsDenote(f.month, 2);
    DigitsDenote(f.day, 2);
    DigitsDenote(f.hour, 2);
    DigitsDenote(f.minute, 2);
    DigitsDenote(f.second, 2);
    ClockText(f);
    hide FieldText, Clock, FieldsOf;
    FractionText(f);
    hide *;
    Pieces(Digits(f.year, 4), Digits(f.month, 2), Digits(f.day, 2), Digits(f.hour, 2), Digits(f.minute, 2),
           Digits(f.second, 2), Fraction(f), s);
    if f.micro > 0 { TailPieces(s, Fraction(f)); }
  }

  lemma InBounds(t: nat)
    requires InRange(t)
    ensures var f := FieldsOf(t);
      && f.year < Pow10(4) && f.month < Pow10(2) && f.day < Pow10(2)
      && f.hour < Pow10(2) && f.minute < Pow10(2) && f.second < Pow10(2) && f.micro < Pow10(6)
  {
    TimeCounts(t);
    assert Pow10(2) == 100 && Pow10(4) == 10_000 && Pow10(6) == 1_000_000;
  }

  lemma FractionText(f: Fields)
    requires f.micro < Pow10(6)
    ensures f.micro == 0 ==> Fraction(f) == "+00:00"
    ensures var x := Fraction(f);
      f.micro > 0 ==> |x| == 13 && x[0] == '.' && Number(x[1..7]) == f.micro && x[7..] == "+00:00"
  {
    DigitsDenote(f.micro, 6);
    hide Digits, Number, Pow10;
    if f.micro > 0 {
      var x := Fraction(f);
      assert x[1..7] == Digits(f.micro, 6) && x[7..] == "+00:00";
    }
  }

  // Where the parts of the text are.
  lemma TwoParts(a: string, mark: char, b: string)
    ensures (a + [mark] + b)[..|a|] == a && (a + [mark] + b)[|a|] == mark && (a + [mark] + b)[|a| + 1..] == b
  {}

  lemma ThreeParts(a: string, m: char, b: string, n: char, c: string)
    requires |a| >= |b| == |c| == 2
    ensures var t := a + [m] + b + [n] + c;
      && |t| == |a| + 6 && t[..|a|] == a && t[|a|] == m && t[|a| + 1..|a| + 3] == b && t[|a| + 3] == n
      && t[|a| + 4..] == c
  {
    TwoParts(a, m, b);
    TwoParts(a + [m] + b, n, c);
    var u, t := a + [m] + b, a + [m] + b + [n] + c;
    assert t[..|u|] == u && t[..|a|] == u[..|a|];
    assert t[|a| + 1..|a| + 3] == u[|a| + 1..];
  }

  lemma Pieces(y: string, mo: string, d: string, h: string, mi: string, se: string, x: string, s: string)
    requires |y| == 4 && |mo| == |d| == |h| == |mi| == |se| == 2
    requires s == y + "-" + mo + "-" + d + "T" + h + ":" + mi + ":" + se + x
    ensures |s| == 19 + |x| && s[4] == '-' && s[7] == '-' && s[10] == 'T' && s[13] == ':' && s[16] == ':'
    ensures s[..4] == y && s[5..7] == mo && s[8..10] == d && s[11..13] == h && s[14..16] == mi && s[17..19] == se
    ensures s[19..] == x
  {
    var date, time := y + ['-'] + mo + ['-'] + d, h + [':'] + mi + [':'] + se;
    var clock := date + ['T'] + time;
    ThreeParts(y, '-', mo, '-', d);
    ThreeParts(h, ':', mi, ':', se);
    TwoParts(date, 'T', time);
    assert clock == y + "-" + mo + "-" + d + "T" + h + ":" + mi + ":" + se;
    assert s == clock + x;
    Within(date, time, clock, s);
  }

  lemma Within(date: string, time: string, clock: string, s: string)
    requires |date| == 10 && |time| == 8 && clock == date + ['T'] + time && clock <= s
    ensures s[..4] == date[..4] && s[4] == date[4] && s[5..7] == date[5..7] && s[7] == date[7] && s[8..10] == date[8..]
    ensures s[10] == 'T' && s[11..13] == time[..2] && s[13] == time[2] && s[14..16] == time[3..5] && s[16] == time[5]
    ensures s[17..19] == time[6..]
  {
    assert forall i :: 0 <= i < 10 ==> s[i] == date[i];
    assert forall i :: 0 <= i < 8 ==> s[11 + i] == time[i];
  }

  lemma TailPieces(s: string, x: string)
    requires |s| == 32 && s[19..] == x && |x| == 13
    ensures s[19] == x[0] && s[20..26] == x[1..7] && s[26..] == x[7..]
  {}

  lemma ClockText(f: Fields)
    ensures FieldText(Clock(f)) ==
            Digits(f.year, 4) + "-" + Digits(f.month, 2) + "-" + Digits(f.day, 2) + "T" +
            Digits(f.hour, 2) + ":" + Digits(f.minute, 2) + ":" + Digits(f.second, 2)
  {
    hide Digits;
    var c := Clock(f);
    assert c[1..][1..] == c[2..] && c[2..][1..] == c[3..] && c[3..][1..] == c[4..] && c[4..][1..] == c[5..];
    assert FieldText(c[5..]) == Digits(f.second, 2);
    assert FieldText(c[4..]) == Digits(f.minute, 2) + ":" + FieldText(c[5..]);
    assert FieldText(c[3..]) == Digits(f.hour, 2) + ":" + FieldText(c[4..]);
    assert FieldText(c[2..]) == Digits(f.day, 2) + "T" + FieldText(c[3..]);
    assert FieldText(c[1..]) == Digits(f.month, 2) + "-" + FieldText(c[2..]);
    assert FieldText(c) == Digits(f.year, 4) + "-" + FieldText(c[1..]);
  }
}
