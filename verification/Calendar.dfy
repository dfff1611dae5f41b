/**
 The date arithmetic of the Rust SDK's timestamps (sdk/rust/src/peerstore.rs), compared with the
 Gregorian calendar as it is usually defined: leap years, month lengths, the day after a day.
 Integers are unbounded; the source's 64-bit additions do not overflow on any day count it passes.
 */
module Calendar {

  datatype Date = Date(year: int, month: int, day: int)

  // ----- The Gregorian calendar -----

  predicate Leap(y: int)
  {
    y % 4 == 0 && (y % 100 != 0 || y % 400 == 0)
  }

  function DaysInMonth(y: int, m: int): int
  {
    if m == 2 then (if Leap(y) then 29 else 28)
    else if m == 4 || m == 6 || m == 9 || m == 11 then 30
    else 31
  }

  predicate Valid(d: Date)
  {
    1 <= d.month <= 12 && 1 <= d.day <= DaysInMonth(d.year, d.month)
  }

  function NextDay(d: Date): (r: Date)
  {
    if d.day < DaysInMonth(d.year, d.month) then d.(day := d.day + 1)
    else if d.month < 12 then Date(d.year, d.month + 1, 1)
    else Date(d.year + 1, 1, 1)
  }

  predicate Before(a: Date, b: Date)
  {
    a.year < b.year || (a.year == b.year && (a.month < b.month || (a.month == b.month && a.day < b.day)))
  }

  // ----- The algorithm -----

  /** Division as the source's language defines it, toward zero. */
  function Quot(a: int, b: int): int
    requires b > 0
  {
    if a >= 0 then a / b else -(-a / b)
  }

  function Era(z: int): int
  {
    Quot(if z >= 0 then z else z - 146096, 146097)
  }

  /** The year of the era, counted from March, of a day of the era. */
  function YearOfEra(doe: int): int
  {
    (doe - doe / 1460 + doe / 36524 - doe / 146096) / 365
  }

  /** The first day of a year of the era. */
  function YearStart(yoe: int): int
  {
    365 * yoe + yoe / 4 - yoe / 100
  }

  function MonthStart(mp: int): int
  {
    (153 * mp + 2) / 5
  }

  /** A year counted from March and a day of that year. */
  datatype YearDay = YearDay(year: int, doy: int)

  /** The first half of civil_from_days. */
  function YearDayOf(days: int): (r: YearDay)
  {
    var z := days + 719468;
    var era := Era(z);
    var doe := z - era * 146097;
    var yoe := YearOfEra(doe);
    YearDay(yoe + era * 400, doe - YearStart(yoe))
  }

  /** The second half. */
  function DateOf(p: YearDay): (r: Date)
  {
    var mp := (5 * p.doy + 2) / 153;
    var d := p.doy - MonthStart(mp) + 1;
    var m := if mp < 10 then mp + 3 else mp - 9;
    Date(if m <= 2 then p.year + 1 else p.year, m, d)
  }

  /** civil_from_days. */
  function CivilFromDays(days: int): (r: Date)
  {
    DateOf(YearDayOf(days))
  }

  // ----- Eras -----

  lemma EraIsFloor(z: int)
    ensures Era(z) == z / 146097 && 0 <= z - Era(z) * 146097 < 146097
  {
  }

  // ----- Years -----

  /** A year counted from March has a leap day at its end if the calendar year it ends in is a leap year. */
  function YearLength(y: int): int
  {
    if Leap(y + 1) then 366 else 365
  }

  lemma YearStartStep(yoe: int)
    requires 0 <= yoe < 400
    ensures YearStart(yoe) + YearLength(yoe) == if yoe == 399 then 146097 else YearStart(yoe + 1)
  {
  }

  /** A day of the era by century, four-year cycle, year and day. */
  predicate Parts(c: int, k: int, j: int, d: int)
  {
    && 0 <= c <= 3 && 0 <= k <= 24 && 0 <= j <= 3 && 0 <= d <= 365
    && (d == 365 ==> j == 3 && (k == 24 ==> c == 3))
  }

  function DayOfEra(c: int, k: int, j: int, d: int): int
  {
    36524 * c + 1461 * k + 365 * j + d
  }

  lemma CenturyOf(c: int, k: int, j: int, d: int)
    requires Parts(c, k, j, d)
    ensures var doe := DayOfEra(c, k, j, d); doe / 36524 - doe / 146096 == c
  {
    var doe, r := DayOfEra(c, k, j, d), 1461 * k + 365 * j + d;
    assert doe == 36524 * c + r;
    if r == 36524 {
      assert doe == 146096;
    } else {
      assert 0 <= r < 36524 && doe < 146096;
      assert doe / 36524 == c;
    }
  }

  lemma CyclesOf(c: int, k: int, j: int, d: int)
    requires Parts(c, k, j, d)
    ensures DayOfEra(c, k, j, d) / 1460 == 25 * c + k + if 24 * c + k + 365 * j + d >= 1460 then 1 else 0
  {
    var r := 24 * c + k + 365 * j + d;
    assert DayOfEra(c, k, j, d) == 1460 * (25 * c + k) + r;
    assert 0 <= r < 2920;
  }

  lemma YearOfEraParts(c: int, k: int, j: int, d: int)
    requires Parts(c, k, j, d)
    ensures YearOfEra(DayOfEra(c, k, j, d)) == 100 * c + 4 * k + j
  {
    CenturyOf(c, k, j, d);
    CyclesOf(c, k, j, d);
    var e := if 24 * c + k + 365 * j + d >= 1460 then 1 else 0;
    assert 0 <= d - e < 365;
    assert (365 * (100 * c + 4 * k + j) + (d - e)) / 365 == 100 * c + 4 * k + j;
  }

  lemma YearStartParts(c: int, k: int, j: int)
    requires 0 <= c <= 3 && 0 <= k <= 24 && 0 <= j <= 3
    ensures YearStart(100 * c + 4 * k + j) == DayOfEra(c, k, j, 0)
  {
    var y := 100 * c + 4 * k + j;
    assert y / 100 == c && y / 4 == 25 * c + k;
  }

  /** Every day of the era has parts. */
  lemma HasParts(doe: int) returns (c: int, k: int, j: int, d: int)
    requires 0 <= doe < 146097
    ensures Parts(c, k, j, d) && DayOfEra(c, k, j, d) == doe
  {
    c := if doe == 146096 then 3 else doe / 36524;
    var r := doe - 36524 * c;
    k := if r == 36524 then 24 else r / 1461;
    var s := r - 1461 * k;
    j := if s == 1460 then 3 else s / 365;
    d := s - 365 * j;
  }

  lemma PartsWithinYear(c: int, k: int, j: int, d: int)
    requires Parts(c, k, j, d)
    ensures d < YearLength(100 * c + 4 * k + j)
  {
    var y := 100 * c + 4 * k + j + 1;
    if d == 365 {
      assert y == 4 * (25 * c + k + 1);
      if k < 24 { assert y == 100 * c + 4 * (k + 1); }
    }
  }

  /** The year found contains the day. */
  lemma YearContains(doe: int)
    requires 0 <= doe < 146097
    ensures var yoe := YearOfEra(doe);
            0 <= yoe < 400 && 0 <= doe - YearStart(yoe) < YearLength(yoe)
  {
    var c, k, j, d := HasParts(doe);
    YearOfEraParts(c, k, j, d);
    YearStartParts(c, k, j);
    PartsWithinYear(c, k, j, d);
  }

  lemma YearStartGrows(a: int, b: int)
    requires 0 <= a < b < 400
    ensures YearStart(a) + YearLength(a) <= YearStart(b)
    decreases b - a
  {
    YearStartStep(a);
    if a + 1 < b {
      YearStartGrows(a + 1, b);
    }
  }

  /** It is the only one. */
  lemma YearIsUnique(doe: int, yoe: int)
    requires 0 <= doe < 146097 && 0 <= yoe < 400 && 0 <= doe - YearStart(yoe) < YearLength(yoe)
    ensures YearOfEra(doe) == yoe
  {
    YearContains(doe);
    if YearOfEra(doe) < yoe { YearStartGrows(YearOfEra(doe), yoe); }
    if yoe < YearOfEra(doe) { YearStartGrows(yoe, YearOfEra(doe)); }
  }

  // ----- Months -----

  lemma Shift4(y: int, e: int)
    ensures (y + 4 * e) % 4 == y % 4
  {
  }

  lemma Shift100(y: int, e: int)
    ensures (y + 100 * e) % 100 == y % 100
  {
  }

  lemma Shift400(y: int, e: int)
    ensures (y + 400 * e) % 400 == y % 400
  {
  }

  /** Leap years repeat in every era. */
  lemma LeapByEra(y: int, era: int)
    ensures Leap(y + era * 400) == Leap(y)
  {
    Shift4(y, 100 * era);
    Shift100(y, 4 * era);
    Shift400(y, era);
  }

  predicate InYear(p: YearDay)
  {
    0 <= p.doy < YearLength(p.year)
  }

  function NextYearDay(p: YearDay): (r: YearDay)
  {
    if p.doy + 1 < YearLength(p.year) then p.(doy := p.doy + 1) else YearDay(p.year + 1, 0)
  }

  /** Months counted from March: the one that contains a day is found by one division. */
  lemma MonthContains(doy: int)
    requires 0 <= doy <= 365
    ensures var mp := (5 * doy + 2) / 153; 0 <= mp <= 11 && MonthStart(mp) <= doy < MonthStart(mp + 1)
  {
  }

  lemma MonthIsUnique(doy: int, mp: int)
    requires 0 <= mp <= 11 && MonthStart(mp) <= doy < MonthStart(mp + 1)
    ensures (5 * doy + 2) / 153 == mp
  {
  }

  /** A date by month counted from March. */
  function DateIn(y: int, mp: int, day: int): Date
  {
    var m := if mp < 10 then mp + 3 else mp - 9;
    Date(if m <= 2 then y + 1 else y, m, day)
  }

  /** All months but the last have the length of the calendar month; the last ends with the year. */
  lemma MonthLengths(y: int, mp: int)
    requires 0 <= mp <= 11
    ensures var d := DateIn(y, mp, 1);
            DaysInMonth(d.year, d.month) == (if mp < 11 then MonthStart(mp + 1) else YearLength(y)) - MonthStart(mp)
  {
  }

  lemma DateOfIn(p: YearDay, mp: int)
    requires 0 <= mp <= 11 && MonthStart(mp) <= p.doy < MonthStart(mp + 1)
    ensures DateOf(p) == DateIn(p.year, mp, p.doy - MonthStart(mp) + 1)
  {
    MonthIsUnique(p.doy, mp);
  }

  lemma DateOfIsValid(p: YearDay)
    requires InYear(p)
    ensures Valid(DateOf(p))
  {
    MonthContains(p.doy);
    var mp := (5 * p.doy + 2) / 153;
    DateOfIn(p, mp);
    MonthLengths(p.year, mp);
  }

  lemma NextInMonth(y: int, mp: int, day: int)
    requires 0 <= mp <= 11
    ensures var d := DateIn(y, mp, day);
            NextDay(d) == if day < DaysInMonth(d.year, d.month) then DateIn(y, mp, day + 1)
                          else if mp < 11 then DateIn(y, mp + 1, 1) else DateIn(y + 1, 0, 1)
  {
  }

  lemma DateOfSteps(p: YearDay)
    requires InYear(p)
    ensures DateOf(NextYearDay(p)) == NextDay(DateOf(p))
  {
    MonthContains(p.doy);
    var mp := (5 * p.doy + 2) / 153;
    var q, day := NextYearDay(p), p.doy - MonthStart(mp) + 1;
    DateOfIn(p, mp);
    MonthLengths(p.year, mp);
    NextInMonth(p.year, mp, day);
    if q.doy == 0 {
      DateOfIn(q, 0);
    } else if q.doy < MonthStart(mp + 1) {
      DateOfIn(q, mp);
    } else {
      DateOfIn(q, mp + 1);
    }
  }

  // ----- The calendar -----

  /** A day given by era, year of the era and day of that year. */
  predicate InEra(days: int, era: int, yoe: int, doy: int)
  {
    0 <= yoe < 400 && 0 <= doy < YearLength(yoe) && days + 719468 == era * 146097 + YearStart(yoe) + doy
  }

  lemma YearDayOfParts(days: int, era: int, yoe: int, doy: int)
    requires InEra(days, era, yoe, doy)
    ensures YearDayOf(days) == YearDay(yoe + era * 400, doy)
  {
    YearStartStep(yoe);
    if yoe < 399 { YearStartGrows(yoe, 399); YearStartStep(399); }
    var doe := YearStart(yoe) + doy;
    assert 0 <= doe < 146097;
    EraIsFloor(days + 719468);
    assert Era(days + 719468) == era;
    YearIsUnique(doe, yoe);
  }

  lemma HasEra(days: int) returns (era: int, yoe: int, doy: int)
    ensures InEra(days, era, yoe, doy)
  {
    var z := days + 719468;
    era := Era(z);
    EraIsFloor(z);
    YearContains(z - era * 146097);
    yoe := YearOfEra(z - era * 146097);
    doy := z - era * 146097 - YearStart(yoe);
  }

  lemma NextInEra(days: int, era: int, yoe: int, doy: int)
    requires InEra(days, era, yoe, doy)
    ensures if doy + 1 < YearLength(yoe) then InEra(days + 1, era, yoe, doy + 1)
            else if yoe < 399 then InEra(days + 1, era, yoe + 1, 0)
            else InEra(days + 1, era + 1, 0, 0)
  {
    YearStartStep(yoe);
  }

  lemma YearLengthByEra(era: int, yoe: int)
    ensures YearLength(yoe + era * 400) == YearLength(yoe)
  {
    LeapByEra(yoe + 1, era);
  }

  lemma NextYearDayOf(days: int, era: int, yoe: int, doy: int)
    requires InEra(days, era, yoe, doy)
    ensures YearDayOf(days + 1) == NextYearDay(YearDay(yoe + era * 400, doy))
  {
    YearLengthByEra(era, yoe);
    NextInEra(days, era, yoe, doy);
    if doy + 1 < YearLength(yoe) {
      YearDayOfParts(days + 1, era, yoe, doy + 1);
    } else if yoe < 399 {
      YearDayOfParts(days + 1, era, yoe + 1, 0);
    } else {
      YearDayOfParts(days + 1, era + 1, 0, 0);
    }
  }

  lemma YearDaySteps(days: int)
    ensures InYear(YearDayOf(days)) && YearDayOf(days + 1) == NextYearDay(YearDayOf(days))
  {
    var era, yoe, doy := HasEra(days);
    YearDayOfParts(days, era, yoe, doy);
    YearLengthByEra(era, yoe);
    NextYearDayOf(days, era, yoe, doy);
  }

  /** civil_from_days is the Gregorian calendar, for every day count: every date is valid, and the next day count gives
      the next date. */
  lemma CivilIsGregorian(days: int)
    ensures Valid(CivilFromDays(days))
    ensures CivilFromDays(days + 1) == NextDay(CivilFromDays(days))
  {
    YearDaySteps(days);
    DateOfIsValid(YearDayOf(days));
    DateOfSteps(YearDayOf(days));
  }

  lemma EpochIsDayZero()
    ensures CivilFromDays(0) == Date(1970, 1, 1)
  {
    YearDayOfParts(0, 4, 369, 306);
  }

  predicate StepsAt(f: int -> Date, n: int)
  {
    Valid(f(n)) && f(n + 1) == NextDay(f(n))
  }

  /** A numbering of days by consecutive dates. */
  ghost predicate Consecutive(f: int -> Date)
  {
    forall n :: StepsAt(f, n)
  }

  /** The date n days after d. */
  function Later(d: Date, n: nat): (r: Date)
  {
    if n == 0 then d else NextDay(Later(d, n - 1))
  }

  lemma {:induction false} ConsecutiveCounts(f: int -> Date, n: nat)
    requires Consecutive(f)
    ensures f(n) == Later(f(0), n)
  {
    if n > 0 {
      assert StepsAt(f, n - 1);
      ConsecutiveCounts(f, n - 1);
    }
  }

  lemma {:induction false} ConsecutiveIncreases(f: int -> Date, a: int, b: int)
    requires Consecutive(f) && a < b
    ensures Before(f(a), f(b))
    decreases b - a
  {
    assert StepsAt(f, b - 1);
    if a < b - 1 {
      ConsecutiveIncreases(f, a, b - 1);
    }
  }

  lemma CivilIsConsecutive()
    ensures Consecutive(CivilFromDays)
  {
    forall n ensures StepsAt(CivilFromDays, n) {
      CivilIsGregorian(n);
    }
  }

  /** The result for n is 1970-01-01 counted forward n days. */
  lemma CivilCountsDays(n: nat)
    ensures CivilFromDays(n) == Later(Date(1970, 1, 1), n)
  {
    CivilIsConsecutive();
    ConsecutiveCounts(CivilFromDays, n);
    EpochIsDayZero();
  }

  /** Later days have later dates; in particular no date is given twice. */
  lemma CivilIsMonotone(a: int, b: int)
    requires a < b
    ensures Before(CivilFromDays(a), CivilFromDays(b))
  {
    CivilIsConsecutive();
    ConsecutiveIncreases(CivilFromDays, a, b);
  }

  // ----- The time of day -----

  datatype Stamp = Stamp(date: Date, hour: int, minute: int, second: int)

  /** The fields of now_rfc3339. */
  function StampOf(secs: nat): (r: Stamp)
  {
    var timeOfDay := secs % 86400;
    Stamp(CivilFromDays(secs / 86400), timeOfDay / 3600, timeOfDay % 3600 / 60, timeOfDay % 60)
  }

  predicate ValidStamp(s: Stamp)
  {
    Valid(s.date) && 0 <= s.hour < 24 && 0 <= s.minute < 60 && 0 <= s.second < 60
  }

  predicate Earlier(a: Stamp, b: Stamp)
  {
    || Before(a.date, b.date)
    || (a.date == b.date && (a.hour < b.hour ||
        (a.hour == b.hour && (a.minute < b.minute || (a.minute == b.minute && a.second < b.second)))))
  }

  lemma Shift60(t: int, e: int)
    ensures (t + 60 * e) % 60 == t % 60
  {
  }

  lemma ClockFields(t: int)
    requires 0 <= t < 86400
    ensures 0 <= t / 3600 < 24 && 0 <= t % 3600 / 60 < 60 && 0 <= t % 60 < 60
    ensures t == t / 3600 * 3600 + t % 3600 / 60 * 60 + t % 60
  {
    var r := t % 3600;
    assert t == r + 60 * (60 * (t / 3600));
    Shift60(r, 60 * (t / 3600));
  }

  lemma TimeOfDay(secs: nat)
    ensures var s := StampOf(secs);
            && ValidStamp(s)
            && secs == secs / 86400 * 86400 + s.hour * 3600 + s.minute * 60 + s.second
  {
    ClockFields(secs % 86400);
    CivilIsGregorian(secs / 86400);
  }

  /** Timestamps are valid and strictly increasing. */
  lemma StampsIncrease(a: nat, b: nat)
    requires a < b
    ensures ValidStamp(StampOf(a)) && ValidStamp(StampOf(b)) && Earlier(StampOf(a), StampOf(b))
  {
    TimeOfDay(a);
    TimeOfDay(b);
    if a / 86400 < b / 86400 {
      CivilIsMonotone(a / 86400, b / 86400);
    } else {
      assert a / 86400 == b / 86400;
    }
  }
}
