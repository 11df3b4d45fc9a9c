/**
Calendar arithmetic of the analytics service: the conversions between dates and
day numbers of sow-data/src/events.rs. Dates holds what is built on them.

The independent reference is the month-length table of section 5.7 and the
leap-year rule of Appendix C of RFC 3339.
*/
module Calendar {
  datatype Date = Date(year: int, month: int, day: int)

  // ---- The reference calendar ----

  predicate IsLeap(year: int) {
    year % 4 == 0 && (year % 100 != 0 || year % 400 == 0)
  }

  function DaysInMonth(year: int, month: int): int {
    if month == 2 then (if IsLeap(year) then 29 else 28)
    else if month in {4, 6, 9, 11} then 30
    else 31
  }

  predicate Valid(d: Date) {
    1 <= d.month <= 12 && 1 <= d.day <= DaysInMonth(d.year, d.month)
  }

  function Next(d: Date): Date {
    if d.day < DaysInMonth(d.year, d.month) then d.(day := d.day + 1)
    else if d.month < 12 then Date(d.year, d.month + 1, 1)
    else Date(d.year + 1, 1, 1)
  }

  // ---- The code ----

  // Dafny's division is Euclidean, which is what `div_euclid` computes; every other division below
  // has a non-negative dividend.
  function DaysFromCivil(year: int, month: int, day: int): int {
    var y := year - (if month <= 2 then 1 else 0);
    var era := y / 400;
    var yoe := y - era * 400;
    var mp := (month + 9) % 12;
    var doy := (153 * mp + 2) / 5 + day - 1;
    var doe := yoe * 365 + yoe / 4 - yoe / 100 + doy;
    era * 146_097 + doe - 719_468
  }

  function YearOfEra(doe: int): int {
    (doe - doe / 1460 + doe / 36524 - doe / 146_096) / 365
  }

  function CivilFromDays(n: int): Date {
    var days := n + 719_468;
    var era := days / 146_097;
    var doe := days - era * 146_097;
    var yoe := YearOfEra(doe);
    MarchDate(yoe + era * 400, doe - (365 * yoe + yoe / 4 - yoe / 100))
  }

  // Day `doy` of the year that starts on 1 March of year `y`.
  function MarchDate(y: int, doy: int): Date {
    var mp := (5 * doy + 2) / 153;
    var d := doy - (153 * mp + 2) / 5 + 1;
    var m := if mp < 10 then mp + 3 else mp - 9;
    Date(y + (if m <= 2 then 1 else 0), m, d)
  }

  function DayNumber(d: Date): int {
    DaysFromCivil(d.year, d.month, d.day)
  }

  // ---- Inside one 400-year era ----

  // The closed formula for the year of the era undoes the split of a day of the era into centuries,
  // four-year groups, years and days.
  lemma YearOfEraFormula(c: int, q: int, a: int, t: int)
    requires 0 <= c <= 3 && 0 <= q <= 24 && 0 <= a <= 3 && 0 <= t <= 365
    requires t == 365 ==> a == 3 && (q < 24 || c == 3)
    ensures YearOfEra(36524 * c + 1461 * q + 365 * a + t) == 100 * c + 4 * q + a
  {
    var doe := 36524 * c + 1461 * q + 365 * a + t;
    var carry := if 24 * c + q + 365 * a + t >= 1460 then 1 else 0;
    assert doe / 1460 == 25 * c + q + carry;
    assert doe / 36524 - doe / 146_096 == c;
    assert doe - doe / 1460 + doe / 36524 - doe / 146_096 == 365 * (100 * c + 4 * q + a) + t - carry;
  }

  lemma SplitDayOfEra(doe: int) returns (c: int, q: int, a: int, t: int)
    requires 0 <= doe < 146_097
    ensures 0 <= c <= 3 && 0 <= q <= 24 && 0 <= a <= 3 && 0 <= t <= 365
    ensures t == 365 ==> a == 3 && (q < 24 || c == 3)
    ensures doe == 36524 * c + 1461 * q + 365 * a + t
  {
    c := if doe == 146_096 then 3 else doe / 36524;
    var r := doe - 36524 * c;
    q := r / 1461;
    var s := r - 1461 * q;
    a := if s == 1460 then 3 else s / 365;
    t := s - 365 * a;
  }

  // Year and day-of-year (years starting on 1 March) of a day of the era.
  lemma EraYear(doe: int) returns (yoe: int, doy: int)
    requires 0 <= doe < 146_097
    ensures yoe == YearOfEra(doe) && doy == doe - (365 * yoe + yoe / 4 - yoe / 100)
    ensures 0 <= yoe < 400 && 0 <= doy <= 365
    ensures doy == 365 ==> IsLeap(yoe + 1)
  {
    var c, q, a, t := SplitDayOfEra(doe);
    YearOfEraFormula(c, q, a, t);
    yoe := 100 * c + 4 * q + a;
    assert yoe / 4 == 25 * c + q && yoe / 100 == c;
    doy := t;
    if doy == 365 {
      assert yoe + 1 == 100 * c + 4 * (q + 1);
    }
  }

  // Months counted from March: lengths repeat with period 153 days in five months.
  lemma MonthOfDay(doy: int)
    requires 0 <= doy <= 365
    ensures var mp := (5 * doy + 2) / 153;
            0 <= mp <= 11 && 1 <= doy - (153 * mp + 2) / 5 + 1 <= DaysInMonth(4, if mp < 10 then mp + 3 else mp - 9)
    ensures doy < 365 ==> var mp := (5 * doy + 2) / 153;
            doy - (153 * mp + 2) / 5 + 1 <= DaysInMonth(1, if mp < 10 then mp + 3 else mp - 9)
  {
  }

  lemma DayOfMonth(mp: int, d: int)
    requires 0 <= mp <= 11 && 1 <= d <= DaysInMonth(4, if mp < 10 then mp + 3 else mp - 9)
    ensures var doy := (153 * mp + 2) / 5 + d - 1; 0 <= doy <= 365 && (5 * doy + 2) / 153 == mp
    ensures (153 * mp + 2) / 5 + d - 1 == 365 <==> mp == 11 && d == 29
  {
  }

  // ---- The inverse pair ----

  lemma SplitYear(era: int, yoe: int)
    requires 0 <= yoe < 400
    ensures (yoe + era * 400) / 400 == era
  {
  }

  lemma SplitDay(era: int, doe: int)
    requires 0 <= doe < 146_097
    ensures (era * 146_097 + doe) / 146_097 == era
  {
  }

  lemma Cycle4(year: int, k: int)
    ensures (year + 4 * k) % 4 == year % 4
  {
    assert year + 4 * k == 4 * (year / 4 + k) + year % 4;
  }

  lemma Cycle100(year: int, k: int)
    ensures (year + 100 * k) % 100 == year % 100
  {
    assert year + 100 * k == 100 * (year / 100 + k) + year % 100;
  }

  lemma Cycle400(year: int, k: int)
    ensures (year + 400 * k) % 400 == year % 400
  {
    assert year + 400 * k == 400 * (year / 400 + k) + year % 400;
  }

  lemma LeapCycle(era: int, year: int)
    ensures IsLeap(year + era * 400) == IsLeap(year)
  {
    Cycle4(year, 100 * era);
    Cycle100(year, 4 * era);
    Cycle400(year, era);
  }

  // The day number of month `mp` (counted from March) and day `d` of year `yoe` of an era.
  lemma DayNumberOf(era: int, yoe: int, mp: int, d: int)
    requires 0 <= yoe < 400 && 0 <= mp <= 11
    ensures var m := if mp < 10 then mp + 3 else mp - 9;
            var year := yoe + era * 400 + (if m <= 2 then 1 else 0);
            DaysFromCivil(year, m, d) ==
              era * 146_097 + (365 * yoe + yoe / 4 - yoe / 100 + ((153 * mp + 2) / 5 + d - 1)) - 719_468
  {
    SplitYear(era, yoe);
  }

  lemma MarchDateNumber(era: int, yoe: int, doy: int)
    requires 0 <= yoe < 400 && 0 <= doy <= 365 && (doy == 365 ==> IsLeap(yoe + 1))
    ensures Valid(MarchDate(yoe + era * 400, doy))
    ensures DayNumber(MarchDate(yoe + era * 400, doy)) ==
              era * 146_097 + (365 * yoe + yoe / 4 - yoe / 100 + doy) - 719_468
  {
    MonthOfDay(doy);
    var mp := (5 * doy + 2) / 153;
    LeapCycle(era, yoe + 1);
    DayNumberOf(era, yoe, mp, doy - (153 * mp + 2) / 5 + 1);
  }

  lemma CivilAsMarchDate(n: int) returns (era: int, yoe: int, doy: int)
    ensures 0 <= yoe < 400 && 0 <= doy <= 365 && (doy == 365 ==> IsLeap(yoe + 1))
    ensures n == era * 146_097 + (365 * yoe + yoe / 4 - yoe / 100 + doy) - 719_468
    ensures CivilFromDays(n) == MarchDate(yoe + era * 400, doy)
  {
    era := (n + 719_468) / 146_097;
    yoe, doy := EraYear(n + 719_468 - era * 146_097);
  }

  /** Every day number is recovered from the date computed for it, and that date is a real one. */
  lemma DaysOfCivil(n: int)
    ensures Valid(CivilFromDays(n))
    ensures DayNumber(CivilFromDays(n)) == n
  {
    hide *;
    var era, yoe, doy := CivilAsMarchDate(n);
    MarchDateNumber(era, yoe, doy);
  }

  // The year of the era of a day number built from that year and a day of it.
  lemma YearOfEraOf(yoe: int, doy: int)
    requires 0 <= yoe < 400 && 0 <= doy <= 365 && (doy == 365 ==> IsLeap(yoe + 1))
    ensures var doe := 365 * yoe + yoe / 4 - yoe / 100 + doy;
            0 <= doe < 146_097 && YearOfEra(doe) == yoe
  {
    var c, q, a := yoe / 100, yoe % 100 / 4, yoe % 4;
    assert yoe == 100 * c + 4 * q + a;
    assert yoe / 4 == 25 * c + q;
    if doy == 365 {
      assert (yoe + 1) % 4 == (a + 1) % 4;
      assert q == 24 ==> yoe + 1 == 100 * (c + 1);
    }
    YearOfEraFormula(c, q, a, doy);
  }

  lemma CivilOfMarchDay(era: int, yoe: int, doy: int)
    requires 0 <= yoe < 400 && 0 <= doy <= 365 && (doy == 365 ==> IsLeap(yoe + 1))
    ensures CivilFromDays(era * 146_097 + (365 * yoe + yoe / 4 - yoe / 100 + doy) - 719_468)
              == MarchDate(yoe + era * 400, doy)
  {
    hide YearOfEra, MarchDate;
    YearOfEraOf(yoe, doy);
    SplitDay(era, 365 * yoe + yoe / 4 - yoe / 100 + doy);
  }

  // A valid date as a day of a year that starts in March.
  lemma AsMarchDay(d: Date) returns (era: int, yoe: int, doy: int)
    requires Valid(d)
    ensures 0 <= yoe < 400 && 0 <= doy <= 365 && (doy == 365 ==> IsLeap(yoe + 1))
    ensures MarchDate(yoe + era * 400, doy) == d
  {
    var y := d.year - (if d.month <= 2 then 1 else 0);
    era := y / 400;
    yoe := y - era * 400;
    var mp := (d.month + 9) % 12;
    doy := (153 * mp + 2) / 5 + d.day - 1;
    DayOfMonth(mp, d.day);
    LeapCycle(era, yoe + 1);
  }

  /** Every valid date is recovered from its day number. */
  lemma CivilOfDays(d: Date)
    requires Valid(d)
    ensures CivilFromDays(DayNumber(d)) == d
  {
    var era, yoe, doy := AsMarchDay(d);
    MarchDateNumber(era, yoe, doy);
    CivilOfMarchDay(era, yoe, doy);
  }

  lemma NextMarchYear(yoe: int)
    requires 0 <= yoe < 399
    ensures 365 * (yoe + 1) + (yoe + 1) / 4 - (yoe + 1) / 100 ==
              365 * yoe + yoe / 4 - yoe / 100 + (if IsLeap(yoe + 1) then 366 else 365)
  {
  }

  // From the last day of February to the first of March.
  lemma MarchStarts(year: int)
    ensures DaysFromCivil(year, 3, 1) == DaysFromCivil(year, 2, DaysInMonth(year, 2)) + 1
  {
    hide DaysFromCivil;
    var era := (year - 1) / 400;
    var yoe := year - 1 - era * 400;
    LeapCycle(era, yoe + 1);
    DayNumberOf(era, yoe, 11, DaysInMonth(year, 2));
    if yoe == 399 {
      DayNumberOf(era + 1, 0, 0, 1);
      assert IsLeap(400);
    } else {
      NextMarchYear(yoe);
      DayNumberOf(era, yoe + 1, 0, 1);
    }
  }

  lemma NextDay(y: int, m: int, d: int)
    requires 1 <= m <= 12
    ensures DaysFromCivil(y, m, d + 1) == DaysFromCivil(y, m, d) + 1
  {
  }

  lemma NextMonth(y: int, m: int)
    requires 1 <= m <= 12 && m != 2
    ensures DaysFromCivil(if m == 12 then y + 1 else y, if m == 12 then 1 else m + 1, 1) ==
              DaysFromCivil(y, m, DaysInMonth(y, m)) + 1
  {
  }

  /** The successor day of the reference calendar adds exactly one to the day number. */
  lemma NextAddsOne(d: Date)
    requires Valid(d)
    ensures Valid(Next(d)) && DayNumber(Next(d)) == DayNumber(d) + 1
  {
    hide DaysFromCivil;
    if d.day < DaysInMonth(d.year, d.month) {
      NextDay(d.year, d.month, d.day);
    } else if d.month == 2 {
      MarchStarts(d.year);
    } else {
      NextMonth(d.year, d.month);
    }
  }

  /** Counting one day further moves the computed date to its calendar successor. */
  lemma CivilSuccessor(n: int)
    ensures CivilFromDays(n + 1) == Next(CivilFromDays(n))
  {
    DaysOfCivil(n);
    NextAddsOne(CivilFromDays(n));
    CivilOfDays(Next(CivilFromDays(n)));
  }
}
