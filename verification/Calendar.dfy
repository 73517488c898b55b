/** Serial days and Gregorian dates: DateToTime and TmToDate of internal/gomdb/data.go. */
module Calendar {
  // --- the calendar, by its rules ---

  predicate Leap(y: int) { y % 4 == 0 && (y % 100 != 0 || y % 400 == 0) }

  function DaysInMonth(y: int, m: int): int {
    if m == 2 then (if Leap(y) then 29 else 28) else if m == 4 || m == 6 || m == 9 || m == 11 then 30 else 31
  }

  function YearLength(y: int): int { if Leap(y) then 366 else 365 }

  datatype Date = Date(y: int, m: int, d: int) {
    predicate Ok() { y >= 1 && 1 <= m <= 12 && 1 <= d <= DaysInMonth(y, m) }
  }

  function NextDay(t: Date): Date {
    if t.d < DaysInMonth(t.y, t.m) then Date(t.y, t.m, t.d + 1)
    else if t.m < 12 then Date(t.y, t.m + 1, 1)
    else Date(t.y + 1, 1, 1)
  }

  function DaysBeforeYear(y: nat): nat
    requires y >= 1
  {
    if y == 1 then 0 else DaysBeforeYear(y - 1) + YearLength(y - 1)
  }

  function DaysBeforeMonth(y: int, m: nat): int
    requires m >= 1
  {
    if m == 1 then 0 else DaysBeforeMonth(y, m - 1) + DaysInMonth(y, m - 1)
  }

  /** Days since 1 January of year 1. */
  function DayNumber(t: Date): int
    requires t.Ok()
  {
    DaysBeforeYear(t.y) + DaysBeforeMonth(t.y, t.m) + t.d - 1
  }

  lemma MonthTotal(y: int)
    ensures DaysBeforeMonth(y, 12) + DaysInMonth(y, 12) == YearLength(y)
    ensures DaysBeforeMonth(y, 13) == YearLength(y)
  {
    Months(y);
    assert Cal(y)[11] == DaysBeforeMonth(y, 12) && Cal(y)[12] == DaysBeforeMonth(y, 13);
  }

  /** The running sums are the source's calendar tables. */
  const NOLEAP_CAL: seq<int> := [0, 31, 59, 90, 120, 151, 181, 212, 243, 273, 304, 334, 365]
  const LEAP_CAL: seq<int> := [0, 31, 60, 91, 121, 152, 182, 213, 244, 274, 305, 335, 366]

  function Cal(y: int): (c: seq<int>)
    ensures |c| == 13
  {
    if Leap(y) then LEAP_CAL else NOLEAP_CAL
  }

  lemma Months(y: int)
    ensures forall k :: 0 <= k <= 12 ==> Cal(y)[k] == DaysBeforeMonth(y, k + 1)
  {
    assert DaysBeforeMonth(y, 1) == 0;
    assert DaysBeforeMonth(y, 2) == Cal(y)[1];
    assert DaysBeforeMonth(y, 3) == Cal(y)[2];
    assert DaysBeforeMonth(y, 4) == Cal(y)[3];
    assert DaysBeforeMonth(y, 5) == Cal(y)[4];
    assert DaysBeforeMonth(y, 6) == Cal(y)[5];
    assert DaysBeforeMonth(y, 7) == Cal(y)[6];
    assert DaysBeforeMonth(y, 8) == Cal(y)[7];
    assert DaysBeforeMonth(y, 9) == Cal(y)[8];
    assert DaysBeforeMonth(y, 10) == Cal(y)[9];
    assert DaysBeforeMonth(y, 11) == Cal(y)[10];
    assert DaysBeforeMonth(y, 12) == Cal(y)[11];
    assert DaysBeforeMonth(y, 13) == Cal(y)[12];
    forall k | 0 <= k <= 12 ensures Cal(y)[k] == DaysBeforeMonth(y, k + 1) {
      assert k == 0 || k == 1 || k == 2 || k == 3 || k == 4 || k == 5 || k == 6 || k == 7 || k == 8 || k == 9 || k == 10
        || k == 11 || k == 12;
    }
  }

  lemma {:induction false} MonthsGrow(y: int, m: nat, n: nat)
    requires 1 <= m <= n <= 13
    ensures DaysBeforeMonth(y, m) <= DaysBeforeMonth(y, n)
    ensures m < n ==> DaysBeforeMonth(y, m) + DaysInMonth(y, m) <= DaysBeforeMonth(y, n)
    decreases n - m
  {
    if m < n { MonthsGrow(y, m, n - 1); }
  }

  lemma {:induction false} YearsGrow(y: nat, z: nat)
    requires 1 <= y <= z
    ensures DaysBeforeYear(y) <= DaysBeforeYear(z)
    ensures y < z ==> DaysBeforeYear(y) + YearLength(y) <= DaysBeforeYear(z)
    decreases z - y
  {
    if y < z { YearsGrow(y, z - 1); }
  }

  lemma InYear(t: Date)
    requires t.Ok()
    ensures 0 <= DaysBeforeMonth(t.y, t.m) + t.d - 1 < YearLength(t.y)
  {
    MonthsGrow(t.y, 1, t.m);
    MonthsGrow(t.y, t.m, 13);
    MonthTotal(t.y);
  }

  /** No two dates have the same day number. */
  lemma DayNumberUnique(a: Date, b: Date)
    requires a.Ok() && b.Ok() && DayNumber(a) == DayNumber(b)
    ensures a == b
  {
    InYear(a);
    InYear(b);
    if a.y < b.y { YearsGrow(a.y, b.y); } else if b.y < a.y { YearsGrow(b.y, a.y); }
    if a.m < b.m { MonthsGrow(a.y, a.m, b.m); } else if b.m < a.m { MonthsGrow(a.y, b.m, a.m); }
  }

  lemma NextDayNumber(t: Date)
    requires t.Ok()
    ensures NextDay(t).Ok() && DayNumber(NextDay(t)) == DayNumber(t) + 1
  {
    MonthTotal(t.y);
  }

  lemma {:induction false} YearFormula(y: nat)
    requires y >= 1
    ensures DaysBeforeYear(y) == 365 * (y - 1) + (y - 1) / 4 - (y - 1) / 100 + (y - 1) / 400
  {
    if y > 1 {
      YearFormula(y - 1);
      Centuries(y - 1);
    }
  }

  lemma Centuries(z: nat)
    requires z >= 1
    ensures z / 4 - z / 100 + z / 400 == (z - 1) / 4 - (z - 1) / 100 + (z - 1) / 400 + if Leap(z) then 1 else 0
  {
    Rollover(z, 4);
    Rollover(z, 100);
    Rollover(z, 400);
    Nested(z);
  }

  lemma Nested(z: nat)
    ensures z % 100 == 0 ==> z % 4 == 0
    ensures z % 400 == 0 ==> z % 100 == 0
  {
    FourTimes(25 * (z / 100));
    HundredTimes(4 * (z / 400));
  }

  lemma FourTimes(q: nat)
    ensures 4 * q % 4 == 0
  {
  }

  lemma HundredTimes(q: nat)
    ensures 100 * q % 100 == 0
  {
  }

  lemma Rollover(z: nat, k: nat)
    requires z >= 1 && (k == 4 || k == 100 || k == 400)
    ensures z / k == (z - 1) / k + if z % k == 0 then 1 else 0
  {
  }

  // --- DateToTime ---

  const EPOCH: int := 693593

  const DAY: int := 86400

  /** A date and a time of day. */
  datatype Moment = Moment(date: Date, hour: int, min: int, sec: int) {
    predicate Ok() { date.Ok() && 0 <= hour < 24 && 0 <= min < 60 && 0 <= sec < 60 }
    function Clock(): int { 3600 * hour + 60 * min + sec }
  }

  /** Seconds since the start of 1 January of year 1. */
  function Seconds(t: Moment): int
    requires t.date.Ok()
  {
    DAY * DayNumber(t.date) + t.Clock()
  }

  /** No two moments have the same number of seconds. */
  lemma SecondsUnique(a: Moment, b: Moment)
    requires a.Ok() && b.Ok() && Seconds(a) == Seconds(b)
    ensures a == b
  {
    hide DayNumber;
    DayNumberUnique(a.date, if DayNumber(a.date) == DayNumber(b.date) then b.date else a.date);
  }

  /** One second later on the clock and the calendar. */
  function Tick(t: Moment): Moment {
    if t.sec < 59 then t.(sec := t.sec + 1)
    else if t.min < 59 then t.(min := t.min + 1, sec := 0)
    else if t.hour < 23 then t.(hour := t.hour + 1, min := 0, sec := 0)
    else Moment(NextDay(t.date), 0, 0, 0)
  }

  lemma TickSeconds(t: Moment)
    requires t.Ok()
    ensures Tick(t).Ok() && Seconds(Tick(t)) == Seconds(t) + 1
  {
    hide DayNumber, NextDay;
    NextDayNumber(t.date);
  }

  /** NoMoment stands for Go's zero time, the answer to a serial out of range. */
  datatype MaybeMoment = NoMoment | SomeMoment(moment: Moment)

  /** A serial in range stands for the moment that many days after the start of 30 December 1899, to the nearest second. */
  predicate Reads(td: real, t: MaybeMoment) {
    if td < 0.0 || td > 1000000.0 then t.NoMoment?
    else t.SomeMoment? && t.moment.Ok() && Seconds(t.moment) == DAY * EPOCH + (td * 86400.0 + 0.5).Floor
  }

  lemma ReadsOne(td: real, t: MaybeMoment, u: MaybeMoment)
    requires Reads(td, t) && Reads(td, u)
    ensures t == u
  {
    if t.SomeMoment? { SecondsUnique(t.moment, u.moment); }
  }

  /** `time.Date` for an hour of at most 24: an hour that is no hour of this day is one of the next. */
  function Normalised(t: Moment): Moment {
    if t.hour >= 24 then Moment(NextDay(t.date), t.hour - 24, t.min, t.sec) else t
  }

  lemma NormalisedSame(t: Moment)
    requires t.date.Ok() && 0 <= t.Clock() <= DAY && 0 <= t.min < 60 && 0 <= t.sec < 60
    ensures Normalised(t).Ok() && Seconds(Normalised(t)) == Seconds(t)
  {
    hide DayNumber, NextDay;
    NextDayNumber(t.date);
  }

  method DateToTime(td: real) returns (t: MaybeMoment)
    ensures Reads(td, t)
    ensures t.SomeMoment? ==>
      var carried := (td - td.Floor as real) * 86400.0 + 0.5 >= 86400.0;
      DayNumber(t.moment.date) == td.Floor + EPOCH + if carried then 1 else 0
  {
    hide DayNumber, NextDay;
    if td < 0.0 || td > 1000000.0 {
      return NoMoment;
    }
    var day := td.Floor;
    var dayFrac := td - day as real;
    var secs := (dayFrac * 86400.0 + 0.5).Floor;
    var hour, min, sec := secs / 3600, secs / 60 % 60, secs % 60;
    var date := CivilDate(day);
    var raw := Moment(date, hour, min, sec);
    WholeDays(td);
    ClockOf(secs);
    NormalisedSame(raw);
    NextDayNumber(date);
    t := SomeMoment(Normalised(raw));
  }

  /** Rounding to seconds before or after taking off the whole days is the same. */
  lemma WholeDays(td: real)
    requires td >= 0.0
    ensures var secs := ((td - td.Floor as real) * 86400.0 + 0.5).Floor;
            0 <= secs <= DAY && (td * 86400.0 + 0.5).Floor == DAY * td.Floor + secs
  {
    var frac := (td - td.Floor as real) * 86400.0 + 0.5;
    assert td * 86400.0 + 0.5 == frac + (DAY * td.Floor) as real;
  }

  lemma ClockOf(secs: int)
    requires 0 <= secs <= DAY
    ensures 3600 * (secs / 3600) + 60 * (secs / 60 % 60) + secs % 60 == secs
    ensures secs / 3600 >= 24 <==> secs == DAY
  {
    assert secs / 60 / 60 == secs / 3600;
  }

  method CivilDate(n: nat) returns (t: Date)
    ensures t.Ok() && DayNumber(t) == n + EPOCH
  {
    hide DaysBeforeYear, DaysBeforeMonth;
    var day := n + EPOCH;
    var yr := 1;
    var q := day / 146097;
    yr := yr + 400 * q;
    day := day - q * 146097;
    ghost var a := q;
    q := day / 36524;
    if q > 3 {
      q := 3;
    }
    yr := yr + 100 * q;
    day := day - q * 36524;
    ghost var b := q;
    q := day / 1461;
    yr := yr + 4 * q;
    day := day - q * 1461;
    ghost var c := q;
    q := day / 365;
    if q > 3 {
      q := 3;
    }
    yr := yr + q;
    day := day - q * 365;
    YearFound(a, b, c, q, day);
    t := MonthOf(yr, day);
  }

  /** The month table searched for a day of the year. */
  method MonthOf(yr: nat, day: nat) returns (t: Date)
    requires yr >= 1 && day < YearLength(yr)
    ensures t.Ok() && t.y == yr && DaysBeforeMonth(yr, t.m) + t.d - 1 == day
  {
    hide DaysBeforeMonth;
    Months(yr);
    var cal := if yr % 4 == 0 && (yr % 100 != 0 || yr % 400 == 0) then LEAP_CAL else NOLEAP_CAL;
    var mon := 0;
    while mon < 12
      invariant 0 <= mon <= 11 && cal[mon] <= day
      decreases 12 - mon
    {
      if day < cal[mon + 1] {
        break;
      }
      mon := mon + 1;
    }
    assert cal == Cal(yr) && Cal(yr)[mon] == DaysBeforeMonth(yr, mon + 1) && Cal(yr)[mon + 1] == DaysBeforeMonth(yr, mon + 2);
    MonthStep(yr, mon + 1);
    t := Date(yr, mon + 1, day - cal[mon] + 1);
  }

  lemma MonthStep(y: int, m: nat)
    requires m >= 1
    ensures DaysBeforeMonth(y, m + 1) == DaysBeforeMonth(y, m) + DaysInMonth(y, m)
  {
  }

  /** The quotients are those of the year, and the rest lies inside it. */
  lemma YearFound(a: int, b: int, c: int, e: int, rest: int)
    requires a >= 0 && 0 <= b <= 3 && 0 <= c <= 24 && 0 <= e <= 3 && rest >= 0
    requires 1461 * c + 365 * e + rest <= 36524 && (b < 3 ==> 1461 * c + 365 * e + rest < 36524)
    requires 365 * e + rest < 1461 && (e < 3 ==> rest < 365)
    ensures var y := 1 + 400 * a + 100 * b + 4 * c + e;
            DaysBeforeYear(y) == 146097 * a + 36524 * b + 1461 * c + 365 * e && rest < YearLength(y)
  {
    hide DaysBeforeYear;
    var z := 400 * a + 100 * b + 4 * c + e;
    YearFormula(z + 1);
    assert z / 4 == 100 * a + 25 * b + c && z / 100 == 4 * a + b && z / 400 == a;
    if rest == 365 {
      assert (z + 1) % 4 == 0;
      if c == 24 { assert b == 3 && z + 1 == 400 * (a + 1); }
    }
  }

  /** Serial 0 is 30 December 1899, and each serial is the day after the one before. */
  lemma SerialsAreDays(n: nat, t: Date, u: Date)
    requires t.Ok() && u.Ok() && DayNumber(t) == n + EPOCH && DayNumber(u) == n + 1 + EPOCH
    ensures u == NextDay(t) && (n == 0 ==> t == Date(1899, 12, 30))
  {
    hide DaysBeforeYear;
    NextDayNumber(t);
    DayNumberUnique(u, NextDay(t));
    if n == 0 {
      YearFormula(1899);
      Months(1899);
      DayNumberUnique(t, Date(1899, 12, 30));
    }
  }

  // --- TmToDate ---

  /** The day formula, which counts leap days up to and including the date's own year. */
  function TmDays(t: Date): int
    requires t.Ok()
  {
    t.y * 365 + t.y / 4 - t.y / 100 + t.y / 400 + Cal(t.y)[t.m - 1] + t.d - 693959
  }

  lemma TmDaysExact(t: Date)
    requires t.Ok()
    ensures TmDays(t) == DayNumber(t) - EPOCH + if Leap(t.y) then 1 else 0
  {
    YearFormula(t.y);
    Centuries(t.y);
    Months(t.y);
  }

  function TmToDate(t: Moment): real
    requires t.Ok()
  {
    var days, td := TmDays(t.date), t.Clock() as real / 86400.0;
    if days >= 0 then td + days as real else days as real - td
  }

  lemma Written(t: Moment)
    requires t.Ok()
    ensures TmDays(t.date) >= 0 <==> TmToDate(t) >= 0.0
    ensures TmDays(t.date) >= 0 ==> (TmToDate(t) * 86400.0 + 0.5).Floor == DAY * TmDays(t.date) + t.Clock()
    ensures TmDays(t.date) < 0 ==> TmToDate(t) * 86400.0 == (DAY * TmDays(t.date) - t.Clock()) as real
  {
    hide TmDays;
    var days, clock := TmDays(t.date), t.Clock();
    assert 0 <= clock < DAY;
    if days >= 0 {
      assert TmToDate(t) * 86400.0 == (DAY * days + clock) as real;
    }
  }

  /**
   A moment written and read back: out of range it is lost, in a leap year it comes back a day late,
   and only what is left comes back as it was.
   */
  lemma RoundTripExact(t: Moment, back: MaybeMoment)
    requires t.Ok() && Reads(TmToDate(t), back)
    ensures back == SomeMoment(t) <==> 0.0 <= TmToDate(t) <= 1000000.0 && !Leap(t.date.y)
    ensures 0.0 <= TmToDate(t) <= 1000000.0 && Leap(t.date.y) ==> back == SomeMoment(t.(date := NextDay(t.date)))
    ensures TmToDate(t) < 0.0 || TmToDate(t) > 1000000.0 ==> back == NoMoment
  {
    hide TmDays, TmToDate, DayNumber, NextDay;
    Written(t);
    TmDaysExact(t.date);
    NextDayNumber(t.date);
    if back.SomeMoment? {
      var expected := if Leap(t.date.y) then t.(date := NextDay(t.date)) else t;
      SecondsUnique(back.moment, expected);
    }
  }

  method WriteAndRead(t: Moment) returns (back: MaybeMoment)
    requires t.Ok()
    ensures back == SomeMoment(t) <==> 0.0 <= TmToDate(t) <= 1000000.0 && !Leap(t.date.y)
    ensures 0.0 <= TmToDate(t) <= 1000000.0 && Leap(t.date.y) ==> back == SomeMoment(t.(date := NextDay(t.date)))
    ensures back == NoMoment <==> TmToDate(t) < 0.0 || TmToDate(t) > 1000000.0
  {
    hide TmToDate, Reads;
    back := DateToTime(TmToDate(t));
    RoundTripExact(t, back);
  }

  /** Years the serials do not reach: whatever is written there is lost. */
  lemma OutOfRange(t: Moment, back: MaybeMoment)
    requires t.Ok() && (t.date.y < 1899 || t.date.y > 4637) && Reads(TmToDate(t), back)
    ensures back == NoMoment
  {
    hide Reads, TmToDate, DayNumber;
    InYear(t.date);
    Months(t.date.y);
    YearDays(t);
    RoundTripExact(t, back);
  }

  lemma YearDays(t: Moment)
    requires t.Ok() && 0 <= Cal(t.date.y)[t.date.m - 1] + t.date.d - 1 <= 365
    ensures t.date.y < 1899 ==> TmToDate(t) < 0.0
    ensures t.date.y > 4637 ==> TmToDate(t) > 1000000.0
  {
    hide Cal;
    Written(t);
  }

  /** The leap day comes back as the first of March. */
  lemma LeapDayLate(y: int, back: MaybeMoment)
    requires Leap(y) && 1900 <= y <= 4637 && Reads(TmToDate(Moment(Date(y, 2, 29), 0, 0, 0)), back)
    ensures back == SomeMoment(Moment(Date(y, 3, 1), 0, 0, 0))
  {
    hide Reads, DayNumber;
    RoundTripExact(Moment(Date(y, 2, 29), 0, 0, 0), back);
  }
}
