/** ETSI Network Time: two-second units of the year, with the year in a field of its own. */
module NetworkTime {
  import opened Arithmetic
  import opened Wrappers

  const LIMIT: nat := 0x1_0000_0000_0000
  const DAY: nat := 43200

  function Year(value: nat): nat {
    2000 + value / 2048 % 64
  }

  // Two-second units since the start of the year.
  function OfYear(value: nat): nat {
    value / 0x100_0000
  }

  predicate IsLeap(year: nat) {
    year % 4 == 0 && (year % 100 != 0 || year % 400 == 0)
  }

  function DaysIn(year: nat): nat {
    if IsLeap(year) then 366 else 365
  }

  function DaysBefore(year: nat): nat
    decreases year
  {
    if year <= 2000 then 0 else DaysBefore(year - 1) + DaysIn(year - 1)
  }

  function Units(value: nat): Option<int> {
    if value < LIMIT then Some(DaysBefore(Year(value)) * DAY + OfYear(value)) else None
  }

  method ComputeUnits(value: nat) returns (units: Option<int>)
    ensures units == Units(value)
  {
    if value >= LIMIT {
      return None;
    }
    var days := 0;
    for year := 2000 to Year(value)
      invariant days == DaysBefore(year)
    {
      days := days + if year % 4 == 0 && (year % 100 != 0 || year % 400 == 0) then 366 else 365;
    }
    units := Some(days * DAY + value / 0x100_0000);
  }

  // The units field does not run past the end of its year.
  predicate IsCalendar(value: nat) {
    value < LIMIT && OfYear(value) < DaysIn(Year(value)) * DAY
  }

  predicate Earlier(a: nat, b: nat) {
    Year(a) < Year(b) || (Year(a) == Year(b) && OfYear(a) < OfYear(b))
  }

  lemma {:induction false} YearsAccumulate(first: nat, later: nat)
    requires 2000 <= first < later
    ensures DaysBefore(first) + DaysIn(first) <= DaysBefore(later)
    decreases later
  {
    hide IsLeap;
    if first + 1 < later {
      YearsAccumulate(first, later - 1);
    }
  }

  lemma EarlierIsLess(a: nat, b: nat)
    requires IsCalendar(a) && IsCalendar(b) && Earlier(a, b)
    ensures Units(a).value < Units(b).value
  {
    hide IsLeap, DaysIn;
    if Year(a) < Year(b) {
      YearsAccumulate(Year(a), Year(b));
      assert (DaysBefore(Year(a)) + DaysIn(Year(a))) * DAY <= DaysBefore(Year(b)) * DAY;
    }
  }

  /**
   Comparing units is comparing instants: for packed values whose field stays within its
   year, the units are ordered exactly as the years and the times of year.
   */
  lemma UnitsAreChronological(a: nat, b: nat)
    requires IsCalendar(a) && IsCalendar(b)
    ensures Units(a).value < Units(b).value <==> Earlier(a, b)
  {
    hide IsLeap, DaysIn, DaysBefore, Year, OfYear;
    if Earlier(a, b) {
      EarlierIsLess(a, b);
    } else if Earlier(b, a) {
      EarlierIsLess(b, a);
    } else {
      SameInstant(a, b);
    }
  }

  lemma SameInstant(a: nat, b: nat)
    requires IsCalendar(a) && IsCalendar(b) && !Earlier(a, b) && !Earlier(b, a)
    ensures Units(a) == Units(b)
  {
    hide IsLeap, DaysIn, DaysBefore;
  }

  // ----- The calendar

  // Leap years of the Gregorian calendar before `year`, counted from the year 1.
  function LeapsBefore(year: nat): nat
    requires year >= 1
  {
    (year - 1) / 4 - (year - 1) / 100 + (year - 1) / 400
  }

  lemma OneMoreLeap(year: nat)
    requires year >= 2001
    ensures LeapsBefore(year) - LeapsBefore(year - 1) == if IsLeap(year - 1) then 1 else 0
  {
    var y := year - 1;
    QuotientsOneMore(y, 4);
    QuotientsOneMore(y, 100);
    QuotientsOneMore(y, 400);
    if y % 400 == 0 {
      Euclid(y, 100, 4 * (y / 400), 0);
    }
    if y % 100 == 0 {
      Euclid(y, 4, 25 * (y / 100), 0);
    }
  }

  lemma QuotientsOneMore(y: nat, d: nat)
    requires y >= 1 && d >= 2
    ensures y / d - (y - 1) / d == if y % d == 0 then 1 else 0
  {
    if y % d == 0 {
      Euclid(y - 1, d, y / d - 1, d - 1);
    } else {
      Euclid(y - 1, d, y / d, y % d - 1);
    }
  }

  /** The days the loop adds up are those of the Gregorian calendar since 1 January 2000. */
  lemma {:induction false} DaysAreGregorian(year: nat)
    requires year >= 2000
    ensures DaysBefore(year) == 365 * (year - 2000) + LeapsBefore(year) - LeapsBefore(2000)
  {
    hide LeapsBefore, IsLeap;
    if year > 2000 {
      DaysAreGregorian(year - 1);
      OneMoreLeap(year);
    }
  }

  /**
   The instant a packed value stands for, in two-second units since 2000: 43200 for each whole day
   before its year, and the units of the year.
   */
  lemma InstantOf(value: nat)
    requires value < 0x1_0000_0000_0000
    ensures var year: nat := 2000 + value / 0x800 % 0x40;
            Units(value) == Some((365 * (year - 2000) + LeapsBefore(year) - LeapsBefore(2000)) * 43200
                                 + value / 0x100_0000)
  {
    DaysAreGregorian(Year(value));
    hide DaysBefore, LeapsBefore;
  }
}
