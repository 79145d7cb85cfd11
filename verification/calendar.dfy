/**
 * ECMAScript time values reduced to what the date extraction needs: day
 * numbers (days since 1970-01-01), the proleptic Gregorian calendar of
 * `MakeDay`, the `new Date(year, monthIndex, date)` constructor,
 * `setFullYear`, and the range check of `TimeClip` that makes
 * `toISOString` throw. Local time is taken to be UTC (see README).
 */
module Calendar {

  const MsPerDay: int := 86400000
  /** The largest time value `TimeClip` accepts, in milliseconds and in days. */
  const MaxTime: int := 8640000000000000
  const MaxDay: int := 100000000

  predicate IsLeap(y: int) {
    y % 4 == 0 && (y % 100 != 0 || y % 400 == 0)
  }

  function DaysInYear(y: int): int {
    if IsLeap(y) then 366 else 365
  }

  /** Day number of January 1st of year `y`: the lengths of the years from 1970 up to it, or back to it. */
  function DayFromYear(y: int): int
    decreases if y < 1970 then 1970 - y else y - 1970
  {
    if y == 1970 then 0
    else if y > 1970 then DayFromYear(y - 1) + DaysInYear(y - 1)
    else DayFromYear(y + 1) - DaysInYear(y)
  }

  /** Consecutive years start a year's length apart. */
  lemma DayFromYearStep(y: int)
    ensures DayFromYear(y + 1) == DayFromYear(y) + DaysInYear(y)
  {
  }

  /** The closed form ECMAScript gives for `DayFromYear`. */
  function DayFromYearClosed(y: int): int {
    365 * (y - 1970) + (y - 1969) / 4 - (y - 1901) / 100 + (y - 1601) / 400
  }

  /** The recursive definition and the closed form agree on every year. */
  lemma {:induction false} DayFromYearFormula(y: int)
    ensures DayFromYear(y) == DayFromYearClosed(y)
    decreases if y < 1970 then 1970 - y else y - 1970
  {
    if y > 1970 {
      DayFromYearFormula(y - 1);
      ClosedStep(y - 1);
    } else if y < 1970 {
      DayFromYearFormula(y + 1);
      ClosedStep(y);
    }
  }

  /** The closed form also advances by the length of the year. */
  lemma ClosedStep(y: int)
    ensures DayFromYearClosed(y + 1) == DayFromYearClosed(y) + DaysInYear(y)
  {
    Count4(y);
    Count100(y);
    Count400(y);
    LeapByDivisors(y);
  }

  /** A year divisible by 400 is divisible by 100, and one divisible by 100 is divisible by 4. */
  lemma LeapByDivisors(y: int)
    ensures y % 400 == 0 ==> y % 100 == 0
    ensures y % 100 == 0 ==> y % 4 == 0
  {
    if y % 400 == 0 {
      var q := y / 400;
      assert y == 400 * q;
      var q4 := 4 * q;
      assert y == 100 * q4;
    }
    if y % 100 == 0 {
      var q := y / 100;
      assert y == 100 * q;
      var q25 := 25 * q;
      assert y == 4 * q25;
    }
  }

  lemma Count4(y: int)
    ensures (y - 1968) / 4 == (y - 1969) / 4 + (if y % 4 == 0 then 1 else 0)
  {
    var q, r := (y - 1969) / 4, (y - 1969) % 4;
    assert y - 1969 == 4 * q + r && 0 <= r < 4;
    assert y - 1968 == 4 * q + r + 1;
  }

  lemma Count100(y: int)
    ensures (y - 1900) / 100 == (y - 1901) / 100 + (if y % 100 == 0 then 1 else 0)
  {
    var q, r := (y - 1901) / 100, (y - 1901) % 100;
    assert y - 1901 == 100 * q + r && 0 <= r < 100;
    assert y - 1900 == 100 * q + r + 1;
  }

  lemma Count400(y: int)
    ensures (y - 1600) / 400 == (y - 1601) / 400 + (if y % 400 == 0 then 1 else 0)
  {
    var q, r := (y - 1601) / 400, (y - 1601) % 400;
    assert y - 1601 == 400 * q + r && 0 <= r < 400;
    assert y - 1600 == 400 * q + r + 1;
  }

  lemma {:induction false} DayFromYearIncreasing(y1: int, y2: int)
    requires y1 < y2
    ensures DayFromYear(y1) + 365 * (y2 - y1) <= DayFromYear(y2)
    decreases y2 - y1
  {
    DayFromYearStep(y2 - 1);
    if y1 < y2 - 1 {
      DayFromYearIncreasing(y1, y2 - 1);
    }
  }

  /** Days in month `m` (0 = January) of year `y`. */
  function DaysInMonth(y: int, m: int): (n: int)
    requires 0 <= m < 12
    ensures 28 <= n <= 31
  {
    if m == 1 then (if IsLeap(y) then 29 else 28)
    else if m == 3 || m == 5 || m == 8 || m == 10 then 30
    else 31
  }

  /** Days of year `y` before month `m` begins; `m == 12` gives the whole year. */
  function MonthStart(y: int, m: int): (n: int)
    requires 0 <= m <= 12
    ensures m == 12 ==> n == DaysInYear(y)
    ensures m < 12 ==> MonthStart(y, m) + DaysInMonth(y, m) == MonthStartRaw(y, m + 1)
  {
    MonthStartRaw(y, m)
  }

  function MonthStartRaw(y: int, m: int): int
    requires 0 <= m <= 12
  {
    [0, 31, 59, 90, 120, 151, 181, 212, 243, 273, 304, 334, 365][m] + (if IsLeap(y) && m >= 2 then 1 else 0)
  }

  /** `MakeDay(year, month, date)`: the month may lie outside 0..11 and carries into the year; the date may be any integer. */
  function MakeDay(year: int, month: int, date: int): int {
    var ym := year + month / 12;
    var mn := month % 12;
    DayFromYear(ym) + MonthStart(ym, mn) + date - 1
  }

  lemma MakeDayInYear(y: int, m: int, d: int)
    requires 0 <= m < 12
    ensures MakeDay(y, m, d) == DayFromYear(y) + MonthStart(y, m) + d - 1
  {
    assert m / 12 == 0 && m % 12 == m;
  }

  /** The month index carries into the year as `MakeDay` reads it. */
  lemma MonthCarryYear(y: int, m: int, d: int)
    ensures MakeDay(y, m, d) == MakeDay(y + m / 12, m % 12, d)
  {
    var ym := y + m / 12;
    var mn := m % 12;
    assert mn / 12 == 0 && mn % 12 == mn;
    MakeDayInYear(ym, mn, d);
  }

  /** A calendar date with a zero-based month, as `getFullYear`, `getMonth` and `getDate` report it. */
  datatype Civil = Civil(year: int, month: int, date: int)

  predicate Valid(c: Civil) {
    0 <= c.month < 12 && 1 <= c.date <= DaysInMonth(c.year, c.month)
  }

  function DayOf(c: Civil): int {
    MakeDay(c.year, c.month, c.date)
  }

  /** A valid date lies within its own year. */
  lemma WithinYear(c: Civil)
    requires Valid(c)
    ensures DayFromYear(c.year) <= DayOf(c) < DayFromYear(c.year + 1)
  {
    MakeDayInYear(c.year, c.month, c.date);
    DayFromYearStep(c.year);
    MonthEndWithinYear(c.year, c.month);
  }

  /** A month ends no later than its year. */
  lemma MonthEndWithinYear(y: int, m: int)
    requires 0 <= m < 12
    ensures MonthStart(y, m) + DaysInMonth(y, m) <= DaysInYear(y)
  {
    assert MonthStartRaw(y, m + 1) <= MonthStartRaw(y, 12);
  }

  /** Moving a date across a month boundary keeps its day number. */
  lemma MonthCarry(y: int, m: int, d: int)
    requires 0 <= m < 12
    ensures MakeDay(y, m, d) == (if m == 11 then MakeDay(y + 1, 0, d - DaysInMonth(y, m)) else MakeDay(y, m + 1, d - DaysInMonth(y, m)))
  {
    MakeDayInYear(y, m, d);
    if m == 11 {
      DayFromYearStep(y);
      MakeDayInYear(y + 1, 0, d - DaysInMonth(y, m));
    } else {
      MakeDayInYear(y, m + 1, d - DaysInMonth(y, m));
    }
  }

  /** The valid date with the same day number as `MakeDay(y, m, d)`, found month by month. */
  function Normalize(y: int, m: int, d: int): (c: Civil)
    ensures Valid(c) && DayOf(c) == MakeDay(y, m, d)
  {
    MonthCarryYear(y, m, d);
    NormalizeDays(y + m / 12, m % 12, d)
  }

  function NormalizeDays(y: int, m: int, d: int): (c: Civil)
    requires 0 <= m < 12
    ensures Valid(c) && DayOf(c) == MakeDay(y, m, d)
    decreases if d < 1 then 100 - d else d
  {
    if d < 1 then
      var py := if m == 0 then y - 1 else y;
      var pm := if m == 0 then 11 else m - 1;
      MonthCarry(py, pm, d + DaysInMonth(py, pm));
      NormalizeDays(py, pm, d + DaysInMonth(py, pm))
    else if d > DaysInMonth(y, m) then
      MonthCarry(y, m, d);
      if m == 11 then NormalizeDays(y + 1, 0, d - DaysInMonth(y, m))
      else NormalizeDays(y, m + 1, d - DaysInMonth(y, m))
    else Civil(y, m, d)
  }

  /** The date of a day number (`YearFromTime`, `MonthFromTime`, `DateFromTime`). */
  function CivilOf(n: int): (c: Civil)
    ensures Valid(c) && DayOf(c) == n
  {
    Normalize(1970, 0, n + 1)
  }

  /** Two valid dates with the same day number are the same date. */
  lemma DayOfInjective(a: Civil, b: Civil)
    requires Valid(a) && Valid(b) && DayOf(a) == DayOf(b)
    ensures a == b
  {
    if a.year < b.year {
      EarlierYearEarlierDay(a, b);
    } else if b.year < a.year {
      EarlierYearEarlierDay(b, a);
    }
    MakeDayInYear(a.year, a.month, a.date);
    MakeDayInYear(b.year, b.month, b.date);
    if a.month != b.month {
      var (x, y) := if a.month < b.month then (a, b) else (b, a);
      MonthStartIncreasing(x.year, x.month, y.month);
      assert false;
    }
  }

  lemma EarlierYearEarlierDay(x: Civil, y: Civil)
    requires Valid(x) && Valid(y) && x.year < y.year
    ensures DayOf(x) < DayOf(y)
  {
    WithinYear(x);
    WithinYear(y);
    if x.year + 1 < y.year { DayFromYearIncreasing(x.year + 1, y.year); }
  }

  /** A month starts after every day of the months before it. */
  lemma MonthStartIncreasing(y: int, m1: int, m2: int)
    requires 0 <= m1 < m2 < 12
    ensures MonthStart(y, m1) + DaysInMonth(y, m1) <= MonthStart(y, m2)
  {
  }

  /** Day numbers and valid dates correspond one to one. */
  lemma CivilOfDayOf(c: Civil)
    requires Valid(c)
    ensures CivilOf(DayOf(c)) == c
  {
    DayOfInjective(CivilOf(DayOf(c)), c);
  }

  /** `new Date(y, m, d)` reads a year from 0 to 99 as 1900 to 1999. */
  function ConstructorYear(y: int): (r: int)
    ensures 0 <= y <= 99 ==> r == 1900 + y
    ensures !(0 <= y <= 99) ==> r == y
  {
    if 0 <= y <= 99 then 1900 + y else y
  }

  /** Day number of `new Date(y, m, d)` at local midnight, before `TimeClip`. */
  function ConstructedDay(y: int, m: int, d: int): int {
    MakeDay(ConstructorYear(y), m, d)
  }

  /** `TimeClip` keeps a whole-day time value exactly when the day lies within 10^8 days of the epoch. */
  predicate DayInRange(n: int) {
    -MaxDay <= n <= MaxDay
  }

  predicate TimeInRange(t: int) {
    -MaxTime <= t <= MaxTime
  }

  lemma DayInRangeIsTimeInRange(n: int)
    ensures DayInRange(n) <==> TimeInRange(n * MsPerDay)
  {
  }

  /** `setFullYear(getFullYear() + 1)` on the date with day number `n`: same month and date, one year on. */
  function NextYearSameDate(n: int): int {
    var c := CivilOf(n);
    MakeDay(c.year + 1, c.month, c.date)
  }

  /** The year step adds 365 or 366 days: 29 February of a leap year moves to 1 March. */
  lemma {:induction false} NextYearSameDateStep(n: int)
    ensures 365 <= NextYearSameDate(n) - n <= 366
    ensures var c := CivilOf(n); NextYearSameDate(n) - n == 366 <==> (IsLeap(c.year) && c.month < 2) || (IsLeap(c.year + 1) && c.month >= 2)
  {
    var c := CivilOf(n);
    MakeDayInYear(c.year + 1, c.month, c.date);
    MakeDayInYear(c.year, c.month, c.date);
    DayFromYearStep(c.year);
    LeapYearsApart(c.year);
    assert NextYearSameDate(n) - n == DaysInYear(c.year) + MonthStart(c.year + 1, c.month) - MonthStart(c.year, c.month);
  }

  /** Two consecutive years are never both leap years. */
  lemma LeapYearsApart(y: int)
    ensures !(IsLeap(y) && IsLeap(y + 1))
  {
  }

  /** A valid date of the current year, moved on a year, lies after every day of the current year. */
  lemma {:induction false} NextYearIsAfterThisYear(c: Civil, today: int)
    requires Valid(c) && CivilOf(today).year == c.year
    ensures MakeDay(c.year + 1, c.month, c.date) > today
  {
    WithinYear(CivilOf(today));
    MakeDayInYear(c.year + 1, c.month, c.date);
  }
}
