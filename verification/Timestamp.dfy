/** Timestamps that carry no year, resolved against the receiver's clock. */
module Timestamp {
  import opened Common
  import opened CivilDate

  const SLACK := 12 * 3600
  const CLOCK_VALID := 1_600_000_000
  const DAY := 86400

  /** `ref` is the calendar date of the clock reading `now`, as gmtime_r gives it. */
  ghost predicate DateOf(ref: Date, now: int) {
    IsDate(ref) && DayNumber(ref) == now / DAY
  }

  predicate TimeOfDay(hour: int, minute: int, second: int) {
    0 <= hour <= 23 && 0 <= minute <= 59 && 0 <= second <= 59
  }

  /** The reading of a stamp: the missing fields come from the clock, and a value too
      far ahead is taken one period earlier. */
  function Resolve(now: int, ref: Date, month: int, day: int, hour: int, minute: int, second: int,
                   hasMonth: bool, hasDay: bool): int
  {
    if now < CLOCK_VALID then 0
    else
      var mon := if hasMonth then month else ref.month;
      var mday := if hasDay then day else ref.day;
      var v := Utc(ref.year, mon, mday, hour, minute, second);
      if v <= now + SLACK then v
      else if hasMonth then Utc(ref.year - 1, mon, mday, hour, minute, second)
      else if hasDay then Utc(ref.year, mon - 1, mday, hour, minute, second)
      else Utc(ref.year, mon, mday - 1, hour, minute, second)
  }

  method ResolveUtc(now: int, ref: Date, month: int, day: int, hour: int, minute: int, second: int,
                    hasMonth: bool, hasDay: bool) returns (t: int)
    ensures t == Resolve(now, ref, month, day, hour, minute, second, hasMonth, hasDay)
  {
    if now < CLOCK_VALID {
      return 0;
    }
    var year := ref.year;
    var mon := if hasMonth then month else ref.month;
    var mday := if hasDay then day else ref.day;
    t := UtcFromFields(year, mon, mday, hour, minute, second);
    if t > now + SLACK {
      if hasMonth {
        year := year - 1;
      } else if hasDay {
        mon := mon - 1;
      } else {
        mday := mday - 1;
      }
      t := UtcFromFields(year, mon, mday, hour, minute, second);
    }
  }

  lemma FoldIn(year: int, month: int)
    requires 1 <= month <= 12
    ensures FoldYear(year, month) == year && FoldMonth(month) == month
  {
  }

  lemma UtcIn(year: int, month: int, day: int, hour: int, minute: int, second: int)
    requires 1 <= month <= 12
    ensures Utc(year, month, day, hour, minute, second)
         == (MonthStart(year, month) + day - 1) * DAY + (hour * 3600 + minute * 60 + second)
  {
    FoldIn(year, month);
  }

  lemma ModDay(u: int, d: int, tod: int)
    requires 0 <= tod < DAY && u == d * DAY + tod
    ensures d * DAY <= u < d * DAY + DAY
    ensures u % DAY == tod
  {
  }

  lemma InMonth(year: int, month: int, day: int, hour: int, minute: int, second: int)
    requires 1 <= month <= 12 && TimeOfDay(hour, minute, second)
    ensures var d := (MonthStart(year, month) + day - 1) * DAY;
            d <= Utc(year, month, day, hour, minute, second) < d + DAY
    ensures Utc(year, month, day, hour, minute, second) % DAY == hour * 3600 + minute * 60 + second
  {
    UtcIn(year, month, day, hour, minute, second);
    var tod := hour * 3600 + minute * 60 + second;
    assert tod < DAY;
    ModDay(Utc(year, month, day, hour, minute, second), MonthStart(year, month) + day - 1, tod);
  }

  /** The time of day on a calendar day, by the naive count of days from 1970. */
  function Instant(year: int, month: int, day: int, tod: int): int
    requires 1 <= month <= 12
  {
    (MonthStart(year, month) + day - 1) * DAY + tod
  }

  /** The hour/minute/second form: the stated time of the clock's own day if that is at most
      12 hours ahead, else of the day before; so between 24 hours ago and 12 hours ahead. */
  lemma HmsWindow(now: int, ref: Date, hour: int, minute: int, second: int)
    requires now >= CLOCK_VALID && DateOf(ref, now) && TimeOfDay(hour, minute, second)
    ensures var t := Resolve(now, ref, 0, 0, hour, minute, second, false, false);
            var tod := hour * 3600 + minute * 60 + second;
            var today := now / DAY * DAY + tod;
            && t == (if today <= now + SLACK then today else today - DAY)
            && now - DAY < t <= now + SLACK && t % DAY == tod
  {
    UtcIn(ref.year, ref.month, ref.day, hour, minute, second);
    UtcIn(ref.year, ref.month, ref.day - 1, hour, minute, second);
    InMonth(ref.year, ref.month, ref.day, hour, minute, second);
    InMonth(ref.year, ref.month, ref.day - 1, hour, minute, second);
  }

  lemma MonthEndsInYear(year: int, month: int)
    requires 1 <= month <= 12
    ensures YearStart(year) <= MonthStart(year, month)
    ensures MonthStart(year, month) + 31 <= YearStart(year + 1)
  {
    YearIsTwelveMonths(year);
    if month > 1 {
      MonthsAscend(year, 1, year, month);
    }
    if month < 12 {
      MonthsAscend(year, month, year, 12);
    }
  }

  lemma YearBack(year: int, month: int)
    requires 1 <= month <= 12
    ensures 365 <= MonthStart(year, month) - MonthStart(year - 1, month) <= 366
  {
    hide MonthStart, MarchYears, IsLeap;
    ClosedIsNaive(year, month);
    ClosedIsNaive(year - 1, month);
    MarchYearStep(if month <= 2 then year - 2 else year - 1);
  }

  lemma YearsAdd(year: int)
    ensures YearStart(year + 1) == YearStart(year) + YearLength(year)
  {
    MarchYearsCountYears(year + 1);
    MarchYearsCountYears(year);
    MarchYearStep(year - 1);
  }

  /** The month/day form: the stated instant of the clock's own year if that is at most 12
      hours ahead, else of the year before; so never more than 12 hours ahead nor more than
      366 days back, even when the day does not exist in the month. */
  lemma MonthDayWindow(now: int, ref: Date, month: int, day: int, hour: int, minute: int)
    requires now >= CLOCK_VALID && DateOf(ref, now) && TimeOfDay(hour, minute, 0)
    requires 1 <= month <= 12 && 1 <= day <= 31
    ensures var t := Resolve(now, ref, month, day, hour, minute, 0, true, true);
            var tod := hour * 3600 + minute * 60;
            var own := Instant(ref.year, month, day, tod);
            && t == (if own <= now + SLACK then own else Instant(ref.year - 1, month, day, tod))
            && now - 366 * DAY < t <= now + SLACK && t % DAY == tod
  {
    InMonth(ref.year, month, day, hour, minute, 0);
    InMonth(ref.year - 1, month, day, hour, minute, 0);
    MonthDayBounds(now, ref, month, day);
    YearBack(ref.year, month);
    UtcIn(ref.year, month, day, hour, minute, 0);
    UtcIn(ref.year - 1, month, day, hour, minute, 0);
  }

  lemma MonthDayBounds(now: int, ref: Date, month: int, day: int)
    requires DateOf(ref, now) && 1 <= month <= 12 && 1 <= day <= 31
    ensures now - 366 * DAY < (MonthStart(ref.year, month) + day - 1) * DAY
    ensures (MonthStart(ref.year - 1, month) + day) * DAY <= now
  {
    MonthEndsInYear(ref.year, month);
    MonthEndsInYear(ref.year - 1, month);
    MonthEndsInYear(ref.year, ref.month);
    YearsAdd(ref.year);
  }

  /** Length of the month before. */
  function PrevLength(d: Date): int
    requires IsDate(d)
  {
    if d.month == 1 then 31 else MonthLength(d.year, d.month - 1)
  }

  lemma PrevMonth(d: Date)
    requires IsDate(d)
    ensures var y, m := FoldYear(d.year, d.month - 1), FoldMonth(d.month - 1);
            MonthStart(y, m) == MonthStart(d.year, d.month) - PrevLength(d) && MonthLength(y, m) == PrevLength(d)
  {
    hide IsLeap, YearStart;
    if d.month == 1 {
      YearIsTwelveMonths(d.year - 1);
      assert FoldYear(d.year, 0) == d.year - 1 && FoldMonth(0) == 12;
    } else {
      FoldIn(d.year, d.month - 1);
    }
  }

  lemma DayOnlyValues(now: int, ref: Date, day: int, hour: int, minute: int)
    requires DateOf(ref, now) && TimeOfDay(hour, minute, 0)
    ensures var month := MonthStart(ref.year, ref.month) * DAY;
            var tod := hour * 3600 + minute * 60;
            && Utc(ref.year, ref.month, day, hour, minute, 0) == month + (day - 1) * DAY + tod
            && Utc(ref.year, ref.month - 1, day, hour, minute, 0) == month + (day - 1 - PrevLength(ref)) * DAY + tod
  {
    PrevMonth(ref);
    UtcIn(ref.year, ref.month, day, hour, minute, 0);
    var y, m := FoldYear(ref.year, ref.month - 1), FoldMonth(ref.month - 1);
    assert Utc(ref.year, ref.month - 1, day, hour, minute, 0)
        == (MonthStart(y, m) + day - 1) * DAY + hour * 3600 + minute * 60;
  }

  lemma DayOnlyBounds(now: int, ref: Date, day: int, hour: int, minute: int)
    requires now >= CLOCK_VALID && DateOf(ref, now) && TimeOfDay(hour, minute, 0) && 1 <= day <= 31
    ensures var t := Resolve(now, ref, 0, day, hour, minute, 0, false, true);
            now - 31 * DAY < t < now + 3 * DAY && t % DAY == hour * 3600 + minute * 60
  {
    hide MonthStart, MonthLength;
    DayOnlyValues(now, ref, day, hour, minute);
    PrevMonth(ref);
    InMonth(ref.year, ref.month, day, hour, minute, 0);
    var m := MonthStart(ref.year, ref.month) + day - 1;
    ModDay(Utc(ref.year, ref.month - 1, day, hour, minute, 0), m - PrevLength(ref), hour * 3600 + minute * 60);
  }

  /** The stated day and time, counted in the month before. */
  function MonthBefore(ref: Date, day: int, tod: int): int
    requires IsDate(ref)
  {
    if ref.month == 1 then Instant(ref.year - 1, 12, day, tod) else Instant(ref.year, ref.month - 1, day, tod)
  }

  /** The day-only form: the stated day of the clock's own month if that is at most 12 hours
      ahead, else of the month before. */
  lemma DayOnlyPeriod(now: int, ref: Date, day: int, hour: int, minute: int)
    requires now >= CLOCK_VALID && DateOf(ref, now) && TimeOfDay(hour, minute, 0)
    ensures var t := Resolve(now, ref, 0, day, hour, minute, 0, false, true);
            var tod := hour * 3600 + minute * 60;
            var own := Instant(ref.year, ref.month, day, tod);
            t == if own <= now + SLACK then own else MonthBefore(ref, day, tod)
  {
    hide MonthStart;
    UtcIn(ref.year, ref.month, day, hour, minute, 0);
    if ref.month == 1 {
      assert FoldYear(ref.year, 0) == ref.year - 1 && FoldMonth(0) == 12;
    } else {
      UtcIn(ref.year, ref.month - 1, day, hour, minute, 0);
    }
  }

  /** The day-only form is always less than three days ahead and less than 31 days back.
      It exceeds 12 hours ahead exactly when the previous month lacks the day and the days
      it lacks, carried into this month, reach that far. */
  lemma DayOnlyWindow(now: int, ref: Date, day: int, hour: int, minute: int)
    requires now >= CLOCK_VALID && DateOf(ref, now) && TimeOfDay(hour, minute, 0)
    requires 1 <= day <= 31
    ensures var t := Resolve(now, ref, 0, day, hour, minute, 0, false, true);
            var month := MonthStart(ref.year, ref.month) * DAY;
            var tod := hour * 3600 + minute * 60;
            && now - 31 * DAY < t < now + 3 * DAY
            && t % DAY == tod
            && (t > now + SLACK <==>
                  day > PrevLength(ref) && (day - 1 - PrevLength(ref)) * DAY + tod > now - month + SLACK)
  {
    hide MonthStart, MonthLength;
    DayOnlyBounds(now, ref, day, hour, minute);
    DayOnlyValues(now, ref, day, hour, minute);
    PrevMonth(ref);
  }

  /** A day that the previous month lacks can land up to almost three days ahead: on
      1 March 2021 at 00:00 the stamp "312359z" reads as 3 March 23:59. */
  lemma DayOnlyOvershoots()
    ensures var now, ref := 1_614_556_800, Date(2021, 3, 1);
            DateOf(ref, now) && Resolve(now, ref, 0, 31, 23, 59, 0, false, true) == now + 3 * DAY - 60
  {
    var ref := Date(2021, 3, 1);
    ClosedIsNaive(2021, 3);
    assert MonthStart(2021, 3) == 18687;
    DayOnlyValues(1_614_556_800, ref, 31, 23, 59);
  }

  // ---- The seven-byte field ----

  function TwoDigits(p: string, i: nat): (n: int)
    requires i + 1 < |p| && IsDigit(p[i]) && IsDigit(p[i + 1])
    ensures 0 <= n <= 99
  {
    DigitValue(p[i]) * 10 + DigitValue(p[i + 1])
  }

  /** What a seven-byte timestamp says; `utc` is 0 for local time, which the packet gives
      no zone for. */
  datatype Stamp = Stamp(zulu: bool, utc: int)

  function DecodeTimestamp7(p: string, now: int, ref: Date): Option<Stamp> {
    if |p| < 7 || !(forall i :: 0 <= i < 6 ==> IsDigit(p[i])) then None
    else
      var a, b, c := TwoDigits(p, 0), TwoDigits(p, 2), TwoDigits(p, 4);
      if p[6] == 'z' || p[6] == '/' then
        if a < 1 || a > 31 || b > 23 || c > 59 then None
        else Some(Stamp(p[6] == 'z', if p[6] == 'z' then Resolve(now, ref, 0, a, b, c, 0, false, true) else 0))
      else if p[6] == 'h' then
        if a > 23 || b > 59 || c > 59 then None
        else Some(Stamp(true, Resolve(now, ref, 0, 0, a, b, c, false, false)))
      else None
  }

  /** The eight-digit form of a positionless weather report, always UTC. */
  function DecodeMdhm(p: string, now: int, ref: Date): Option<Stamp> {
    if |p| < 8 || !(forall i :: 0 <= i < 8 ==> IsDigit(p[i])) then None
    else
      var month, day, hour, minute := TwoDigits(p, 0), TwoDigits(p, 2), TwoDigits(p, 4), TwoDigits(p, 6);
      if month < 1 || month > 12 || day < 1 || day > 31 || hour > 23 || minute > 59 then None
      else Some(Stamp(true, Resolve(now, ref, month, day, hour, minute, 0, true, true)))
  }

  /** Every accepted month/day stamp resolves to the last 366 days or the next 12 hours. */
  lemma MdhmWindow(p: string, now: int, ref: Date)
    requires DateOf(ref, now)
    ensures var r := DecodeMdhm(p, now, ref);
            r.Some? ==> if now < CLOCK_VALID then r.value.utc == 0
                        else now - 366 * DAY < r.value.utc <= now + SLACK
  {
    var r := DecodeMdhm(p, now, ref);
    if r.Some? && now >= CLOCK_VALID {
      MonthDayWindow(now, ref, TwoDigits(p, 0), TwoDigits(p, 2), TwoDigits(p, 4), TwoDigits(p, 6));
    }
  }

  /** Every accepted field in UTC resolves to a time less than 31 days back and less than
      three days ahead, and to 0 while the clock has not been set. */
  lemma StampWindow(p: string, now: int, ref: Date)
    requires DateOf(ref, now)
    ensures var r := DecodeTimestamp7(p, now, ref);
            r.Some? && r.value.zulu ==>
              if now < CLOCK_VALID then r.value.utc == 0
              else now - 31 * DAY < r.value.utc < now + 3 * DAY
  {
    var r := DecodeTimestamp7(p, now, ref);
    if r.Some? && r.value.zulu && now >= CLOCK_VALID {
      var a, b, c := TwoDigits(p, 0), TwoDigits(p, 2), TwoDigits(p, 4);
      if p[6] == 'h' {
        HmsWindow(now, ref, a, b, c);
      } else {
        DayOnlyWindow(now, ref, a, b, c);
      }
    }
  }

  // ---- From the text to the instant ----

  /** Two decimal digits. */
  function Two(n: nat): (r: string)
    requires n < 100
    ensures |r| == 2 && IsDigit(r[0]) && IsDigit(r[1])
  {
    [DigitChar(n / 10), DigitChar(n % 10)]
  }

  lemma TwoRead(p: string, i: nat, n: nat)
    requires n < 100 && i + 2 <= |p| && p[i..i + 2] == Two(n)
    ensures IsDigit(p[i]) && IsDigit(p[i + 1]) && TwoDigits(p, i) == n
  {
    assert p[i] == p[i..i + 2][0] && p[i + 1] == p[i..i + 2][1];
  }

  lemma ThreeTwos(a: nat, b: nat, c: nat, rest: string)
    requires a < 100 && b < 100 && c < 100
    ensures var p := Two(a) + Two(b) + Two(c) + rest;
            && |p| == 6 + |rest| && (forall i :: 0 <= i < 6 ==> IsDigit(p[i]))
            && TwoDigits(p, 0) == a && TwoDigits(p, 2) == b && TwoDigits(p, 4) == c
            && p[6..] == rest
  {
    var p := Two(a) + Two(b) + Two(c) + rest;
    TwoRead(p, 0, a);
    TwoRead(p, 2, b);
    TwoRead(p, 4, c);
    assert forall i :: 0 <= i < 6 ==> p[i] == p[i / 2 * 2..i / 2 * 2 + 2][i % 2];
  }

  /** The seven-byte field in front of any text: which fields are accepted, and the instant
      each names. Local time is reported but never converted. */
  lemma StampReads(a: nat, b: nat, c: nat, mark: char, rest: string, now: int, ref: Date)
    requires a < 100 && b < 100 && c < 100 && now >= CLOCK_VALID && DateOf(ref, now)
    ensures var r := DecodeTimestamp7(Two(a) + Two(b) + Two(c) + ([mark] + rest), now, ref);
            var dayTime, dayHms := b * 3600 + c * 60, a * 3600 + b * 60 + c;
            var thisMonth, today := Instant(ref.year, ref.month, a, dayTime), now / DAY * DAY + dayHms;
            if mark == 'z' && 1 <= a <= 31 && b < 24 && c < 60 then
              r == Some(Stamp(true, if thisMonth <= now + SLACK then thisMonth else MonthBefore(ref, a, dayTime)))
            else if mark == '/' && 1 <= a <= 31 && b < 24 && c < 60 then r == Some(Stamp(false, 0))
            else if mark == 'h' && a < 24 && b < 60 && c < 60 then
              r == Some(Stamp(true, if today <= now + SLACK then today else today - DAY))
            else r == None
  {
    hide Resolve, Two, TwoDigits, MonthStart;
    var p := Two(a) + Two(b) + Two(c) + ([mark] + rest);
    ThreeTwos(a, b, c, [mark] + rest);
    assert p[6] == p[6..][0];
    if mark == 'z' && 1 <= a <= 31 && b < 24 && c < 60 {
      DayOnlyPeriod(now, ref, a, b, c);
    } else if mark == 'h' && a < 24 && b < 60 && c < 60 {
      HmsWindow(now, ref, a, b, c);
    }
  }

  /** The eight-digit field. */
  lemma MdhmReads(month: nat, day: nat, hour: nat, minute: nat, rest: string, now: int, ref: Date)
    requires month < 100 && day < 100 && hour < 100 && minute < 100 && now >= CLOCK_VALID && DateOf(ref, now)
    ensures var r := DecodeMdhm(Two(month) + Two(day) + Two(hour) + (Two(minute) + rest), now, ref);
            if 1 <= month <= 12 && 1 <= day <= 31 && hour < 24 && minute < 60 then
              var tod := hour * 3600 + minute * 60;
              var own := Instant(ref.year, month, day, tod);
              r == Some(Stamp(true, if own <= now + SLACK then own else Instant(ref.year - 1, month, day, tod)))
            else r == None
  {
    hide Resolve, Two, TwoDigits, MonthStart;
    var p := Two(month) + Two(day) + Two(hour) + (Two(minute) + rest);
    ThreeTwos(month, day, hour, Two(minute) + rest);
    assert p[6..8] == p[6..][..2] == Two(minute);
    TwoRead(p, 6, minute);
    if 1 <= month <= 12 && 1 <= day <= 31 && hour < 24 && minute < 60 {
      MonthDayWindow(now, ref, month, day, hour, minute);
    }
  }
}
