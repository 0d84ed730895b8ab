// Clock readings and the seed of a lease key.
//
// A reading of timezone.now() is an instant in UTC with microsecond
// resolution, between the years 1 and 9999.  It is counted here in
// microseconds from the start of year 1, and printed as str() prints an aware
// UTC datetime: "YYYY-MM-DD HH:MM:SS[.ffffff]+00:00", where the fraction is
// left out when it is zero.
module Timestamps {
  const MICROS_PER_DAY := 86_400_000_000
  const DAYS_IN_RANGE := 3_652_059  // years 1 to 9999, proleptic Gregorian
  const END_OF_TIME := DAYS_IN_RANGE * MICROS_PER_DAY

  type Time = t: int | 0 <= t < END_OF_TIME witness 0

  // ---------------------------------------------------------- decimal digits

  function Digit(d: nat): char
    requires d < 10
  {
    '0' + d as char
  }

  function Pow10(w: nat): nat {
    if w == 0 then 1 else 10 * Pow10(w - 1)
  }

  /** The number, zero-padded on the left to `w` digits. */
  function Pad(w: nat, n: nat): (s: string)
    ensures |s| == w
  {
    if w == 0 then "" else Pad(w - 1, n / 10) + [Digit(n % 10)]
  }

  /** str(n) */
  function Decimal(n: nat): (s: string)
    ensures |s| > 0
  {
    if n < 10 then [Digit(n)] else Decimal(n / 10) + [Digit(n % 10)]
  }

  ghost function Value(s: string): int {
    if s == "" then 0 else 10 * Value(s[..|s| - 1]) + (s[|s| - 1] as int - '0' as int)
  }

  lemma {:induction false} PadValue(w: nat, n: nat)
    requires n < Pow10(w)
    ensures Value(Pad(w, n)) == n
  {
    if w > 0 {
      PadValue(w - 1, n / 10);
      assert Pad(w, n)[..w - 1] == Pad(w - 1, n / 10);
    }
  }

  lemma {:induction false} DecimalValue(n: nat)
    ensures Value(Decimal(n)) == n
  {
    if n < 10 {
      assert Decimal(n)[..0] == "";
    } else {
      DecimalValue(n / 10);
      assert Decimal(n)[..|Decimal(n)| - 1] == Decimal(n / 10);
    }
  }

  // ------------------------------------------------------------ civil calendar

  predicate IsLeap(y: nat) {
    y % 4 == 0 && (y % 100 != 0 || y % 400 == 0)
  }

  function DaysInYear(y: nat): nat {
    if IsLeap(y) then 366 else 365
  }

  function DaysInMonth(y: nat, m: nat): nat
    requires 1 <= m <= 12
  {
    if m == 2 then (if IsLeap(y) then 29 else 28)
    else if m in {4, 6, 9, 11} then 30 else 31
  }

  /** The year that day `d` falls in, counted from 1 January of year `y`, and the day within it. */
  function YearOf(d: nat, y: nat): (nat, nat)
    decreases d
  {
    if d < DaysInYear(y) then (y, d) else YearOf(d - DaysInYear(y), y + 1)
  }

  /** The month that day `d` falls in, counted from the first of month `m`, and the day within it. */
  function MonthOf(y: nat, d: nat, m: nat): (nat, nat)
    requires 1 <= m <= 12
    decreases 12 - m
  {
    if m == 12 || d < DaysInMonth(y, m) then (m, d) else MonthOf(y, d - DaysInMonth(y, m), m + 1)
  }

  datatype Fields = Fields(year: nat, month: nat, day: nat, hour: nat, minute: nat, second: nat, micro: nat)

  function ToFields(t: Time): Fields {
    var days, rest := t / MICROS_PER_DAY, t % MICROS_PER_DAY;
    var (year, inYear) := YearOf(days, 1);
    var (month, inMonth) := MonthOf(year, inYear, 1);
    var seconds := rest / 1_000_000;
    Fields(year, month, inMonth + 1, seconds / 3600, seconds / 60 % 60, seconds % 60, rest % 1_000_000)
  }

  // Back from the fields: closed forms that share nothing with the searches above.
  ghost function DaysBeforeYear(y: nat): int {
    365 * (y - 1) + (y - 1) / 4 - (y - 1) / 100 + (y - 1) / 400
  }

  ghost function DaysBeforeMonth(y: nat, m: nat): int
    requires 1 <= m <= 12
  {
    [0, 31, 59, 90, 120, 151, 181, 212, 243, 273, 304, 334][m - 1]
    + (if m > 2 && y % 4 == 0 && (y % 100 != 0 || y % 400 == 0) then 1 else 0)
  }

  ghost function MonthLength(y: nat, m: nat): int
    requires 1 <= m <= 12
  {
    (if m == 12 then 365 + (if y % 4 == 0 && (y % 100 != 0 || y % 400 == 0) then 1 else 0)
     else DaysBeforeMonth(y, m + 1)) - DaysBeforeMonth(y, m)
  }

  ghost function FromFields(f: Fields): int
    requires 1 <= f.month <= 12
  {
    (DaysBeforeYear(f.year) + DaysBeforeMonth(f.year, f.month) + f.day - 1) * MICROS_PER_DAY
    + (f.hour * 3600 + f.minute * 60 + f.second) * 1_000_000 + f.micro
  }

  lemma QuotientStep(n: nat, k: nat)
    requires k > 0 && n > 0
    ensures n / k == (n - 1) / k + (if n % k == 0 then 1 else 0)
  {
    var q, r := (n - 1) / k, (n - 1) % k;
    assert n - 1 == k * q + r;
    if r + 1 == k {
      assert n == k * (q + 1);
    } else {
      assert n == k * q + (r + 1);
    }
    Quotient(n, k, if r + 1 == k then q + 1 else q, if r + 1 == k then 0 else r + 1);
  }

  lemma Quotient(n: nat, k: nat, q: nat, r: nat)
    requires n == k * q + r && r < k
    ensures n / k == q && n % k == r
  {
    var d := n / k - q;
    assert k * d == r - n % k;
    assert d >= 1 ==> k * d >= k;
    assert d <= -1 ==> k * d + k <= 0;
  }

  lemma LeapDays(y: nat)
    requires y % 400 == 0 ==> y % 100 == 0
    requires y % 100 == 0 ==> y % 4 == 0
    ensures DaysInYear(y) == 365 + (if y % 4 == 0 then 1 else 0) - (if y % 100 == 0 then 1 else 0)
                             + (if y % 400 == 0 then 1 else 0)
  {
  }

  lemma NextYear(y: nat)
    requires 1 <= y
    ensures DaysBeforeYear(y + 1) == DaysBeforeYear(y) + DaysInYear(y)
  {
    QuotientStep(y, 4);
    QuotientStep(y, 100);
    QuotientStep(y, 400);
    if y % 400 == 0 { Quotient(y, 100, 4 * (y / 400), 0); }
    if y % 100 == 0 { Quotient(y, 4, 25 * (y / 100), 0); }
    LeapDays(y);
  }

  lemma {:induction false} YearOfSplits(d: nat, y: nat)
    requires 1 <= y
    ensures var (year, rest) := YearOf(d, y);
            y <= year && rest < DaysInYear(year)
            && DaysBeforeYear(y) + d == DaysBeforeYear(year) + rest
    decreases d
  {
    if d >= DaysInYear(y) {
      YearOfSplits(d - DaysInYear(y), y + 1);
      NextYear(y);
    }
  }

  lemma {:induction false} MonthOfSplits(y: nat, d: nat, m: nat)
    requires 1 <= m <= 12
    requires DaysBeforeMonth(y, m) + d < DaysInYear(y)
    ensures var (month, rest) := MonthOf(y, d, m);
            1 <= month <= 12 && rest < MonthLength(y, month)
            && DaysBeforeMonth(y, m) + d == DaysBeforeMonth(y, month) + rest
    decreases 12 - m
  {
    if m < 12 && d >= DaysInMonth(y, m) {
      MonthOfSplits(y, d - DaysInMonth(y, m), m + 1);
    }
  }

  lemma DayRoundTrip(days: nat)
    requires days < DAYS_IN_RANGE
    ensures var (year, inYear) := YearOf(days, 1);
            var (month, inMonth) := MonthOf(year, inYear, 1);
            1 <= year < 10_000 && 1 <= month <= 12 && inMonth < MonthLength(year, month) <= 31
            && DaysBeforeYear(year) + DaysBeforeMonth(year, month) + inMonth == days
  {
    var (year, inYear) := YearOf(days, 1);
    YearOfSplits(days, 1);
    MonthOfSplits(year, inYear, 1);
    assert year >= 10_000 ==> DaysBeforeYear(year) >= DAYS_IN_RANGE;
  }

  lemma ClockRoundTrip(rest: nat)
    requires rest < MICROS_PER_DAY
    ensures var seconds := rest / 1_000_000;
            seconds / 3600 < 24
            && (seconds / 3600 * 3600 + seconds / 60 % 60 * 60 + seconds % 60) * 1_000_000 + rest % 1_000_000 == rest
  {
    var seconds := rest / 1_000_000;
    assert rest == seconds * 1_000_000 + rest % 1_000_000;
    assert seconds / 60 == seconds / 3600 * 60 + seconds / 60 % 60;
  }

  /** Breaking an instant into civil fields loses nothing, and every field has its civil range. */
  lemma FieldsRoundTrip(t: Time)
    ensures var f := ToFields(t);
            1 <= f.year < 10_000 && 1 <= f.month <= 12 && 1 <= f.day <= MonthLength(f.year, f.month) <= 31
            && f.hour < 24 && f.minute < 60 && f.second < 60 && f.micro < 1_000_000
            && FromFields(f) == t
  {
    var days, rest := t / MICROS_PER_DAY, t % MICROS_PER_DAY;
    assert t == days * MICROS_PER_DAY + rest && days < DAYS_IN_RANGE;
    DayRoundTrip(days);
    ClockRoundTrip(rest);
  }

  // ------------------------------------------------------------------- printing

  /** str(t) for an aware UTC datetime */
  function ShowTime(t: Time): string {
    var f := ToFields(t);
    Pad(4, f.year) + "-" + Pad(2, f.month) + "-" + Pad(2, f.day) + " "
    + Pad(2, f.hour) + ":" + Pad(2, f.minute) + ":" + Pad(2, f.second)
    + (if f.micro == 0 then "" else "." + Pad(6, f.micro)) + "+00:00"
  }

  lemma ShowTimeShape(t: Time)
    ensures var s, f := ShowTime(t), ToFields(t);
            |s| == (if f.micro == 0 then 25 else 32)
            && s[..4] == Pad(4, f.year) && s[5..7] == Pad(2, f.month) && s[8..10] == Pad(2, f.day)
            && s[11..13] == Pad(2, f.hour) && s[14..16] == Pad(2, f.minute) && s[17..19] == Pad(2, f.second)
            && s[19] == (if f.micro == 0 then '+' else '.')
            && (f.micro != 0 ==> s[20..26] == Pad(6, f.micro))
            && s[4] == '-' && s[7] == '-' && s[10] == ' ' && s[13] == ':' && s[16] == ':'
            && s[|s| - 6..] == "+00:00"
  {
  }

  lemma FieldFromText(w: nat, a: nat, b: nat)
    requires a < Pow10(w) && b < Pow10(w) && Pad(w, a) == Pad(w, b)
    ensures a == b
  {
    PadValue(w, a);
    PadValue(w, b);
  }

  /** Two instants that print alike are the same instant. */
  lemma ShowTimeInjective(t: Time, u: Time)
    requires ShowTime(t) == ShowTime(u)
    ensures t == u
  {
    FieldsRoundTrip(t); FieldsRoundTrip(u);
    ShowTimeShape(t); ShowTimeShape(u);
    var f, g := ToFields(t), ToFields(u);
    assert Pow10(2) == 100 && Pow10(4) == 10_000 && Pow10(6) == 1_000_000;
    FieldFromText(4, f.year, g.year);
    FieldFromText(2, f.month, g.month);
    FieldFromText(2, f.day, g.day);
    FieldFromText(2, f.hour, g.hour);
    FieldFromText(2, f.minute, g.minute);
    FieldFromText(2, f.second, g.second);
    FieldFromText(6, f.micro, g.micro);
  }

  // ----------------------------------------------------------------- lease seed

  /** str(pull_time) + str(submission.id): the text that is hashed into a pull key. */
  function Seed(t: Time, id: nat): string {
    ShowTime(t) + Decimal(id)
  }

  /** No two (time, id) pairs share a seed: the time's length shows in its 20th character. */
  lemma SeedInjective(t: Time, i: nat, u: Time, j: nat)
    requires Seed(t, i) == Seed(u, j)
    ensures t == u && i == j
  {
    ShowTimeShape(t); ShowTimeShape(u);
    var a, b := ShowTime(t), ShowTime(u);
    assert a[19] == Seed(t, i)[19] == Seed(u, j)[19] == b[19];
    assert |a| == |b|;
    assert a == Seed(t, i)[..|a|] && b == Seed(u, j)[..|a|];
    assert Decimal(i) == Seed(t, i)[|a|..] && Decimal(j) == Seed(u, j)[|a|..];
    ShowTimeInjective(t, u);
    DecimalValue(i);
    DecimalValue(j);
  }
}
