/** The date that f-ntp makes of an NTP time stamp, against the Gregorian calendar. */
module Calendar {
  const QUAD: nat := 0x1_0000_0000
  const DAY: nat := 86400
  const EPOCH: nat := 3786825600          // from 1 January 1900 to 1 January 2020

  type Quad = n: nat | n < QUAD

  /** Unsigned 32-bit subtraction. */
  function Minus(a: Quad, b: nat): Quad { (a - b) % QUAD }

  // ----- Calendars -----

  /** Leap years as the program has them, and as they are. */
  datatype Rule = EveryFourth | Gregorian

  predicate Leap(rule: Rule, y: nat) {
    y % 4 == 0 && (rule.EveryFourth? || y % 100 != 0 || y % 400 == 0)
  }

  function Days(leap: bool, m: nat): nat
    requires 1 <= m <= 12
  {
    if m == 2 then if leap then 29 else 28 else if m == 4 || m == 6 || m == 9 || m == 11 then 30 else 31
  }

  function YearDays(rule: Rule, y: nat): nat { if Leap(rule, y) then 366 else 365 }

  /** Days from 1 January 2020 to the first of a year, and from then to the first of a month. */
  function BeforeYear(rule: Rule, y: nat): nat { if y <= 2020 then 0 else BeforeYear(rule, y - 1) + YearDays(rule, y - 1) }

  function BeforeMonth(leap: bool, m: nat): nat
    requires 1 <= m <= 13
  {
    if m == 1 then 0 else BeforeMonth(leap, m - 1) + Days(leap, m - 1)
  }

  datatype Date = Date(year: nat, month: nat, day: nat, hour: nat, min: nat, sec: nat)

  predicate Valid(rule: Rule, d: Date) {
    2020 <= d.year && 1 <= d.month <= 12 && 1 <= d.day <= Days(Leap(rule, d.year), d.month) && d.hour < 24 && d.min < 60 && d.sec < 60
  }

  function DayNumber(rule: Rule, d: Date): nat
    requires Valid(rule, d)
  {
    BeforeYear(rule, d.year) + BeforeMonth(Leap(rule, d.year), d.month) + d.day - 1
  }

  function Elapsed(rule: Rule, d: Date): nat
    requires Valid(rule, d)
  {
    DAY * DayNumber(rule, d) + 3600 * d.hour + 60 * d.min + d.sec
  }

  // ----- The program -----

  /** Subtraction has wrapped around without the program's noticing; what follows is not modelled. */
  datatype Outcome = Fields(date: Date) | WrapUnnoticed | AssertFails

  const dpm: seq<nat> := [255, 31, 28, 31, 30, 31, 30, 31, 31, 30, 31, 30, 31]

  lemma MinusIs(a: Quad, b: nat)
    requires b < QUAD
    ensures Minus(a, b) == if b <= a then a - b else a - b + QUAD
  {
  }

  /** The loop over years; t is what is left of t0. */
  method YearOf(t0: Quad) returns (noticed: bool, year: nat, t: Quad)
    ensures !noticed ==> t0 >= QUAD - 366 * DAY
    ensures noticed ==> year >= 2020 && t < DAY * YearDays(EveryFourth, year) && t + DAY * BeforeYear(EveryFourth, year) == t0
  {
    t, year := t0, 2020;
    while true
      invariant year >= 2020 && t <= t0 && t + DAY * BeforeYear(EveryFourth, year) == t0
      decreases t
    {
      var length := 365 * DAY + if year % 4 == 0 then DAY else 0;
      var next := Minus(t, length);
      MinusIs(t, length);
      if next > t0 {
        return true, year, t;
      }
      if t < length {
        return false, year, t;
      }
      t, year := next, year + 1;
    }
  }

  lemma DpmIs(month: nat)
    requires 1 <= month <= 12
    ensures dpm[month] == Days(false, month)
  {
  }

  /** The loop over months, in the year that t is left of. */
  method MonthOf(t0: Quad, year: nat, t: Quad) returns (noticed: bool, month: nat, u: Quad)
    requires t <= t0 && t < DAY * YearDays(EveryFourth, year)
    ensures !noticed ==> t0 >= QUAD - 366 * DAY
    ensures noticed ==> 1 <= month <= 12 && u < DAY * Days(Leap(EveryFourth, year), month) &&
                        u + DAY * BeforeMonth(Leap(EveryFourth, year), month) == t
  {
    ghost var leap := Leap(EveryFourth, year);
    YearOfMonths(leap);
    month, u := 1, t;
    while month <= 12
      invariant 1 <= month <= 13 && u + DAY * BeforeMonth(leap, month) == t
    {
      DpmIs(month);
      var days := dpm[month] + if month == 2 && year % 4 == 0 then 1 else 0;
      var next := Minus(u, DAY * days);
      MinusIs(u, DAY * days);
      if next > t0 {
        return true, month, u;
      }
      if u < DAY * days {
        return false, month, u;
      }
      u, month := next, month + 1;
    }
    noticed := true;
  }

  /** What f-ntp makes of a time stamp is the one Gregorian date and time with that offset from
      1 January 2020 if and only if the offset is below 29 February 2100 in its own reckoning. */
  method DateOf(xmit: Quad) returns (r: Outcome)
    ensures r != AssertFails && (r.WrapUnnoticed? ==> Minus(xmit, EPOCH) >= QUAD - 366 * DAY)
    ensures var t0 := Minus(xmit, EPOCH);
            t0 < FAILS_FROM <==> r.Fields? && Valid(Gregorian, r.date) && Elapsed(Gregorian, r.date) == t0
    ensures r.Fields? && Minus(xmit, EPOCH) < FAILS_FROM ==>
      forall d :: Valid(Gregorian, d) && Elapsed(Gregorian, d) == Minus(xmit, EPOCH) ==> d == r.date
  {
    var noticed, year, t := YearOf(Minus(xmit, EPOCH));
    if !noticed {
      return WrapUnnoticed;
    }
    var seen, month, u := MonthOf(Minus(xmit, EPOCH), year, t);
    if !seen {
      return WrapUnnoticed;
    }
    if month >= 13 {
      return AssertFails;
    }
    var day, left := 1 + u / DAY, u % DAY;
    TimeIs(u);
    r := Fields(Date(year, month, day, left / 3600, left % 3600 / 60, left % 3600 % 60));
    Joined(r.date, u);
    IsGregorian(r.date, Minus(xmit, EPOCH));
  }

  lemma TimeIs(u: nat)
    ensures var left := u % DAY;
            left / 3600 < 24 && left % 3600 / 60 < 60 && left % 3600 % 60 < 60 &&
            DAY * (u / DAY) + 3600 * (left / 3600) + 60 * (left % 3600 / 60) + left % 3600 % 60 == u
  {
  }

  lemma Joined(d: Date, u: nat)
    requires Valid(EveryFourth, d) && DAY * (d.day - 1) + 3600 * d.hour + 60 * d.min + d.sec == u
    ensures Elapsed(EveryFourth, d) == u + DAY * BeforeMonth(Leap(EveryFourth, d.year), d.month) + DAY * BeforeYear(EveryFourth, d.year)
  {
  }

  lemma YearOfMonths(leap: bool)
    ensures BeforeMonth(leap, 13) == if leap then 366 else 365
  {
    assert BeforeMonth(leap, 2) == 31;
    assert BeforeMonth(leap, 3) == if leap then 60 else 59;
    assert BeforeMonth(leap, 5) == BeforeMonth(leap, 3) + 61;
    assert BeforeMonth(leap, 7) == BeforeMonth(leap, 5) + 61;
    assert BeforeMonth(leap, 9) == BeforeMonth(leap, 7) + 62;
    assert BeforeMonth(leap, 11) == BeforeMonth(leap, 9) + 61;
  }

  // ----- Each second has one date -----

  /** Earlier dates have fewer seconds, so that no two dates have the same. */
  lemma {:induction false} YearsGrow(rule: Rule, y: nat, z: nat)
    requires 2020 <= y < z
    ensures BeforeYear(rule, y) + YearDays(rule, y) <= BeforeYear(rule, z)
    decreases z
  {
    if y < z - 1 {
      YearsGrow(rule, y, z - 1);
    }
  }

  lemma {:induction false} MonthsGrow(leap: bool, m: nat, n: nat)
    requires 1 <= m < n <= 13
    ensures BeforeMonth(leap, m) + Days(leap, m) <= BeforeMonth(leap, n)
    decreases n
  {
    if m < n - 1 {
      MonthsGrow(leap, m, n - 1);
    }
  }

  lemma InItsYear(rule: Rule, d: Date)
    requires Valid(rule, d)
    ensures BeforeYear(rule, d.year) <= DayNumber(rule, d) < BeforeYear(rule, d.year) + YearDays(rule, d.year)
  {
    MonthsGrow(Leap(rule, d.year), d.month, 13);
    YearOfMonths(Leap(rule, d.year));
  }

  lemma SameDay(rule: Rule, d: Date, e: Date)
    requires Valid(rule, d) && Valid(rule, e) && DayNumber(rule, d) == DayNumber(rule, e)
    ensures d.year == e.year && d.month == e.month && d.day == e.day
  {
    InItsYear(rule, d);
    InItsYear(rule, e);
    if d.year < e.year { YearsGrow(rule, d.year, e.year); }
    if e.year < d.year { YearsGrow(rule, e.year, d.year); }
    if d.month < e.month { MonthsGrow(Leap(rule, d.year), d.month, e.month); }
    if e.month < d.month { MonthsGrow(Leap(rule, d.year), e.month, d.month); }
  }

  lemma OneDate(rule: Rule, d: Date, e: Date)
    requires Valid(rule, d) && Valid(rule, e) && Elapsed(rule, d) == Elapsed(rule, e)
    ensures d == e
  {
    SameDay(rule, d, e);
  }

  // ----- The program's calendar and the Gregorian -----

  const FAILS_FROM: nat := DAY * 29279    // 29 February 2100, as the program has it

  lemma {:induction false} FourthYears(k: nat)
    requires k <= 20
    ensures BeforeYear(EveryFourth, 2020 + 4 * k) == 1461 * k
  {
    if k > 0 {
      FourthYears(k - 1);
      var y := 2020 + 4 * (k - 1);
      assert y % 4 == 0 && (y + 1) % 4 == 1 && (y + 2) % 4 == 2 && (y + 3) % 4 == 3;
      assert BeforeYear(EveryFourth, y + 2) == BeforeYear(EveryFourth, y) + 731;
      assert BeforeYear(EveryFourth, y + 4) == BeforeYear(EveryFourth, y + 2) + 730;
    }
  }

  /** Until 2100 the calendars agree; from 2101 on the program's is a day behind. */
  lemma {:induction false} YearsAgree(y: nat)
    requires 2020 <= y <= 2200
    ensures BeforeYear(EveryFourth, y) == BeforeYear(Gregorian, y) + if y <= 2100 then 0 else 1
  {
    if y > 2020 {
      YearsAgree(y - 1);
      OnlyOneException(y - 1);
    }
  }

  lemma OnlyOneException(y: nat)
    requires 2020 <= y < 2200
    ensures Leap(EveryFourth, y) == Leap(Gregorian, y) <==> y != 2100
  {
    assert y % 100 == 0 ==> y == 2100;
  }

  lemma In2100()
    ensures BeforeYear(EveryFourth, 2100) == 29220 && BeforeMonth(true, 3) == 60 && BeforeMonth(false, 3) == 59
  {
    FourthYears(20);
  }

  /** A date on either side of 29 February 2100. */
  lemma Sides(d: Date)
    requires Valid(EveryFourth, d)
    ensures Elapsed(EveryFourth, d) < FAILS_FROM <==>
      d.year < 2100 || (d.year == 2100 && (d.month == 1 || (d.month == 2 && d.day <= 28)))
  {
    In2100();
    InItsYear(EveryFourth, d);
    if d.year < 2100 { YearsGrow(EveryFourth, d.year, 2100); }
    if d.year > 2100 { YearsGrow(EveryFourth, 2100, d.year); }
    if d.year == 2100 && d.month > 2 { MonthsGrow(true, 2, d.month); }
  }

  lemma RightInOtherYears(d: Date)
    requires Valid(EveryFourth, d) && d.year < 2200 && d.year != 2100
    ensures Valid(Gregorian, d)
    ensures Elapsed(EveryFourth, d) == Elapsed(Gregorian, d) + if d.year < 2100 then 0 else DAY
  {
    YearsAgree(d.year);
    OnlyOneException(d.year);
  }

  lemma MonthShift(m: nat)
    requires 1 <= m <= 12
    ensures BeforeMonth(true, m) == BeforeMonth(false, m) + if m > 2 then 1 else 0
  {
    if m > 2 { MonthsOfLeap(m); }
  }

  lemma DayIn2100(d: Date)
    requires Valid(EveryFourth, d) && Valid(Gregorian, d) && d.year == 2100
    ensures DayNumber(EveryFourth, d) == DayNumber(Gregorian, d) + if d.month > 2 then 1 else 0
  {
    YearsAgree(2100);
    LeapIn2100();
    MonthShift(d.month);
  }

  lemma LeapIn2100()
    ensures Leap(EveryFourth, 2100) && !Leap(Gregorian, 2100)
  {}

  lemma RightIn2100(d: Date)
    requires Valid(EveryFourth, d) && d.year == 2100
    ensures (Valid(Gregorian, d) && Elapsed(Gregorian, d) == Elapsed(EveryFourth, d)) <==>
            d.month == 1 || (d.month == 2 && d.day <= 28)
  {
    OnlyOneException(2100);
    assert Valid(Gregorian, d) <==> d.month != 2 || d.day <= 28;
    if Valid(Gregorian, d) { DayIn2100(d); }
  }

  /** Exactly when the program's fields are a Gregorian date with that many seconds since
      1 January 2020: before 29 February 2100 in its own reckoning. */
  lemma RightExactly(d: Date)
    requires Valid(EveryFourth, d) && d.year < 2200
    ensures (Valid(Gregorian, d) && Elapsed(Gregorian, d) == Elapsed(EveryFourth, d)) <==> Elapsed(EveryFourth, d) < FAILS_FROM
  {
    Sides(d);
    if d.year == 2100 { RightIn2100(d); } else { RightInOtherYears(d); }
  }

  lemma {:induction false} MonthsOfLeap(m: nat)
    requires 3 <= m <= 13
    ensures BeforeMonth(true, m) == BeforeMonth(false, m) + 1
  {
    if m > 3 {
      MonthsOfLeap(m - 1);
    } else {
      In2100();
    }
  }

  lemma {:induction false} YearsAreLong(y: nat)
    requires y >= 2020
    ensures BeforeYear(EveryFourth, y) >= 365 * (y - 2020)
    decreases y
  {
    if y > 2020 {
      YearsAreLong(y - 1);
    }
  }

  lemma FitsAQuad(d: Date)
    requires Valid(EveryFourth, d) && Elapsed(EveryFourth, d) < QUAD
    ensures d.year < 2200
  {
    YearsAreLong(d.year);
  }

  lemma IsGregorian(d: Date, t0: Quad)
    requires Valid(EveryFourth, d) && Elapsed(EveryFourth, d) == t0
    ensures t0 < FAILS_FROM <==> Valid(Gregorian, d) && Elapsed(Gregorian, d) == t0
    ensures t0 < FAILS_FROM ==> forall e :: Valid(Gregorian, e) && Elapsed(Gregorian, e) == t0 ==> e == d
  {
    FitsAQuad(d);
    RightExactly(d);
    if t0 < FAILS_FROM {
      forall e | Valid(Gregorian, e) && Elapsed(Gregorian, e) == t0 ensures e == d {
        OneDate(Gregorian, e, d);
      }
    }
  }
}
