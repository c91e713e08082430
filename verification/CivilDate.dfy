/** Calendar arithmetic: the closed-form day count of the receiver against a naive
    Gregorian count made month by month and day by day. */
module CivilDate {
  import opened Common

  predicate IsLeap(year: int) {
    (year % 4 == 0 && year % 100 != 0) || year % 400 == 0
  }

  function YearLength(year: int): int {
    if IsLeap(year) then 366 else 365
  }

  function MonthLength(year: int, month: int): (n: int)
    requires 1 <= month <= 12
    ensures 28 <= n <= 31
  {
    if month == 2 then (if IsLeap(year) then 29 else 28)
    else if month in {4, 6, 9, 11} then 30
    else 31
  }

  /** Days from 1 January 1970 to 1 January of `year`, counted a year at a time. */
  function YearStart(year: int): int
    decreases if year >= 1970 then year - 1970 else 1970 - year
  {
    if year == 1970 then 0
    else if year > 1970 then YearStart(year - 1) + YearLength(year - 1)
    else YearStart(year + 1) - YearLength(year)
  }

  /** Days from 1 January 1970 to the first of the month, counted a month at a time. */
  function MonthStart(year: int, month: int): int
    requires 1 <= month <= 12
    decreases month
  {
    if month == 1 then YearStart(year) else MonthStart(year, month - 1) + MonthLength(year, month - 1)
  }

  /** The receiver's closed form: March-based years inside a 400-year era. */
  function DaysFromCivilMonth(year: int, month: int): int
    requires 1 <= month <= 12
  {
    var y := year - (if month <= 2 then 1 else 0);
    var era := TruncDiv(if y >= 0 then y else y - 399, 400);
    var yoe := y - era * 400;
    var doy := (153 * (month + (if month > 2 then -3 else 9)) + 2) / 5;
    var doe := yoe * 365 + yoe / 4 - yoe / 100 + doy;
    era * 146097 + doe - 719468
  }

  /** The era and the year within it, with C's truncating division. */
  lemma EraSplit(y: int)
    ensures TruncDiv(if y >= 0 then y else y - 399, 400) == y / 400
  {
  }

  /** Days of the first r years of an era. */
  function EraDays(r: nat): int {
    r * 365 + r / 4 - r / 100
  }

  /** Days of the March-based years before `y`, from the era arithmetic. */
  function MarchYears(y: int): int {
    y / 400 * 146097 + EraDays(y % 400)
  }

  lemma RemainderBy4(a: int, r: int)
    ensures (4 * a + r) % 4 == r % 4
  {
  }

  lemma RemainderBy100(a: int, r: int)
    ensures (100 * a + r) % 100 == r % 100
  {
  }

  lemma LeapByRemainder(y: int)
    ensures IsLeap(y) == IsLeap(y % 400)
  {
    var e, r := y / 400, y % 400;
    RemainderBy4(100 * e, r);
    RemainderBy100(4 * e, r);
  }

  lemma EraStep(y: int)
    ensures if y % 400 == 399 then (y + 1) / 400 == y / 400 + 1 && (y + 1) % 400 == 0
            else (y + 1) / 400 == y / 400 && (y + 1) % 400 == y % 400 + 1
  {
  }

  lemma NextQuotient(r: nat, n: nat)
    requires n == 4 || n == 100
    ensures (r + 1) / n == r / n + (if (r + 1) % n == 0 then 1 else 0)
  {
  }

  lemma EraYear(r: nat)
    requires r < 399
    ensures EraDays(r + 1) == EraDays(r) + YearLength(r + 1)
  {
    NextQuotient(r, 4);
    NextQuotient(r, 100);
    assert (r + 1) % 100 == 0 ==> (r + 1) % 4 == 0;
  }

  lemma EraEnds()
    ensures EraDays(0) == 0 && EraDays(399) == 146097 - YearLength(0) && YearLength(0) == 366
  {
  }

  lemma MarchYearStep(y: int)
    ensures MarchYears(y + 1) == MarchYears(y) + YearLength(y + 1)
  {
    hide IsLeap, EraDays;
    EraStep(y);
    EraEnds();
    if y % 400 < 399 {
      EraYear(y % 400);
    }
    LeapByRemainder(y + 1);
  }

  function DayOfMarchYear(month: int): int
    requires 1 <= month <= 12
  {
    (153 * (month + (if month > 2 then -3 else 9)) + 2) / 5
  }

  function Closed(year: int, month: int): int
    requires 1 <= month <= 12
  {
    MarchYears(if month <= 2 then year - 1 else year) + DayOfMarchYear(month) - 719468
  }

  lemma ClosedForm(year: int, month: int)
    requires 1 <= month <= 12
    ensures DaysFromCivilMonth(year, month) == Closed(year, month)
  {
    EraSplit(year - (if month <= 2 then 1 else 0));
  }

  lemma {:induction false} MarchYearsCountYears(year: int)
    ensures MarchYears(year - 1) == YearStart(year) + 719162
    decreases if year >= 1970 then year - 1970 else 1970 - year
  {
    if year > 1970 {
      MarchYearsCountYears(year - 1);
      MarchYearStep(year - 2);
    } else if year < 1970 {
      MarchYearsCountYears(year + 1);
      MarchYearStep(year - 1);
    }
  }

  lemma MarchDayStep(month: int)
    requires 2 <= month <= 12 && month != 3
    ensures DayOfMarchYear(month) == DayOfMarchYear(month - 1) + (if month - 1 in {4, 6, 9, 11} then 30 else 31)
  {
  }

  lemma ClosedStep(year: int, month: int)
    requires 2 <= month <= 12
    ensures Closed(year, month) == Closed(year, month - 1) + MonthLength(year, month - 1)
  {
    hide MarchYears, IsLeap;
    if month == 3 {
      MarchYearStep(year - 1);
    } else {
      MarchDayStep(month);
    }
  }

  lemma {:induction false} ClosedIsNaive(year: int, month: int)
    requires 1 <= month <= 12
    ensures Closed(year, month) == MonthStart(year, month)
    decreases month
  {
    hide MarchYears, YearStart, MonthLength;
    if month == 1 {
      MarchYearsCountYears(year);
    } else {
      ClosedIsNaive(year, month - 1);
      ClosedStep(year, month);
    }
  }

  /** For every year, before or after 1970, and every month, the closed form equals the
      naive count. */
  lemma ClosedFormIsNaiveCount(year: int, month: int)
    requires 1 <= month <= 12
    ensures DaysFromCivilMonth(year, month) == MonthStart(year, month)
  {
    ClosedForm(year, month);
    ClosedIsNaive(year, month);
  }

  // ---- Folding an out-of-range month ----

  function FoldYear(year: int, month: int): int {
    year + (month - 1) / 12
  }

  function FoldMonth(month: int): (m: int)
    ensures 1 <= m <= 12
  {
    (month - 1) % 12 + 1
  }

  /** Seconds since the epoch, by the naive count; day and month may lie outside their
      ranges and mean the day or month that many steps away. */
  function Utc(year: int, month: int, day: int, hour: int, minute: int, second: int): int {
    (MonthStart(FoldYear(year, month), FoldMonth(month)) + day - 1) * 86400 + hour * 3600 + minute * 60 + second
  }

  method UtcFromFields(year: int, month: int, day: int, hour: int, minute: int, second: int) returns (t: int)
    ensures t == Utc(year, month, day, hour, minute, second)
  {
    var y, m := year, month;
    while m < 1
      invariant 12 * y + m == 12 * year + month
      invariant m <= month || m <= 12
    {
      m, y := m + 12, y - 1;
    }
    while m > 12
      invariant 12 * y + m == 12 * year + month
      invariant m >= 1
    {
      m, y := m - 12, y + 1;
    }
    assert y == FoldYear(year, month) && m == FoldMonth(month);
    ClosedFormIsNaiveCount(y, m);
    var days := DaysFromCivilMonth(y, m) + day - 1;
    t := days * 86400 + hour * 3600 + minute * 60 + second;
  }

  // ---- Dates, one day at a time ----

  datatype Date = Date(year: int, month: int, day: int)

  predicate IsDate(d: Date) {
    1 <= d.month <= 12 && 1 <= d.day <= MonthLength(d.year, d.month)
  }

  function DayNumber(d: Date): int
    requires IsDate(d)
  {
    MonthStart(d.year, d.month) + d.day - 1
  }

  function NextDay(d: Date): (n: Date)
    requires IsDate(d)
    ensures IsDate(n)
  {
    if d.day < MonthLength(d.year, d.month) then d.(day := d.day + 1)
    else if d.month < 12 then Date(d.year, d.month + 1, 1)
    else Date(d.year + 1, 1, 1)
  }

  lemma {:induction false} YearIsTwelveMonths(year: int)
    ensures MonthStart(year, 12) + 31 == YearStart(year + 1)
  {
    assert MonthStart(year, 4) == YearStart(year) + 90 + (if IsLeap(year) then 1 else 0);
    assert MonthStart(year, 8) == MonthStart(year, 4) + 122;
    assert MonthStart(year, 12) == MonthStart(year, 8) + 122;
  }

  /** The count goes up by exactly one a day, across months, leap days and years. */
  lemma NextDayAddsOne(d: Date)
    requires IsDate(d)
    ensures DayNumber(NextDay(d)) == DayNumber(d) + 1
  {
    if d.month == 12 {
      YearIsTwelveMonths(d.year);
    }
  }

  function After(n: nat): (d: Date)
    ensures IsDate(d)
  {
    if n == 0 then Date(1970, 1, 1) else NextDay(After(n - 1))
  }

  /** Counting n days on from 1 January 1970 reaches day number n. */
  lemma {:induction false} CountedDay(n: nat)
    ensures DayNumber(After(n)) == n
  {
    if n > 0 {
      CountedDay(n - 1);
      NextDayAddsOne(After(n - 1));
    }
  }

  lemma {:induction false} MonthsAscend(y: int, m: int, y': int, m': int)
    requires 1 <= m <= 12 && 1 <= m' <= 12 && 12 * y + m < 12 * y' + m'
    ensures MonthStart(y, m) + MonthLength(y, m) <= MonthStart(y', m')
    decreases 12 * y' + m' - 12 * y - m
  {
    hide YearStart;
    var y1, m1 := if m' == 1 then y' - 1 else y', if m' == 1 then 12 else m' - 1;
    if m' == 1 {
      YearIsTwelveMonths(y' - 1);
    }
    assert MonthStart(y', m') == MonthStart(y1, m1) + MonthLength(y1, m1);
    if 12 * y + m < 12 * y1 + m1 {
      MonthsAscend(y, m, y1, m1);
    }
  }

  /** A day number belongs to one date only. */
  lemma DayNumberInjective(a: Date, b: Date)
    requires IsDate(a) && IsDate(b) && DayNumber(a) == DayNumber(b)
    ensures a == b
  {
    hide MonthStart;
    if 12 * a.year + a.month < 12 * b.year + b.month {
      MonthsAscend(a.year, a.month, b.year, b.month);
    } else if 12 * b.year + b.month < 12 * a.year + a.month {
      MonthsAscend(b.year, b.month, a.year, a.month);
    }
  }
}
