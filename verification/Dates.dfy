/**
Dates as text and as clock readings: `shift_date` of sow-data/src/events.rs and
`now_utc` of sow-data/src/time_util.rs, over the conversions of module Calendar.
*/
module Dates {
  import opened Wrappers
  import opened Calendar

  const I64_MIN: int := -0x8000_0000_0000_0000
  const I64_MAX: int := 0x7FFF_FFFF_FFFF_FFFF
  const U32_MAX: int := 0xFFFF_FFFF

  // ---- The clock ----

  datatype UtcDateTime = UtcDateTime(year: int, month: int, day: int, hour: int, minute: int, second: int)

  /** Integer division that rounds towards zero. */
  function Truncated(a: int, b: int): int
    requires b > 0
  {
    if a >= 0 then a / b else -((-a) / b)
  }

  // The second copy of the month computation.
  function MonthAndDay(y: int, doy: int): Date {
    var mp := (5 * doy + 2) / 153;
    var d := doy - (153 * mp + 2) / 5 + 1;
    var m := if mp < 10 then mp + 3 else mp - 9;
    Date(if mp < 10 then y else y + 1, m, d)
  }

  // The second copy of the conversion from day numbers.
  function DateOfDay(days: int): Date {
    var z := days + 719_468;
    var era := Truncated(if z >= 0 then z else z - 146_096, 146_097);
    var doe := z - era * 146_097;
    var yoe := (doe - doe / 1460 + doe / 36524 - doe / 146_096) / 365;
    MonthAndDay(yoe + era * 400, doe - (365 * yoe + yoe / 4 - yoe / 100))
  }

  function NowUtc(secs: int): UtcDateTime {
    var rem := secs % 86400;
    var date := DateOfDay(secs / 86400);
    UtcDateTime(date.year, date.month, date.day, rem / 3600, rem % 3600 / 60, rem % 60)
  }

  /** Rounding towards zero after moving negative values down is rounding down. */
  lemma FloorByTruncation(z: int)
    ensures Truncated(if z >= 0 then z else z - 146_096, 146_097) == z / 146_097
  {
    if z < 0 {
      var q, r := z / 146_097, z % 146_097;
      assert z == q * 146_097 + r;
      assert -(z - 146_096) == -q * 146_097 + (146_096 - r);
      SplitDay(-q, 146_096 - r);
    }
  }

  lemma EraDay(z: int)
    ensures 0 <= z - z / 146_097 * 146_097 < 146_097
  {
  }

  lemma SameMonth(y: int, doy: int)
    requires 0 <= doy <= 365
    ensures MonthAndDay(y, doy) == MarchDate(y, doy)
  {
    MonthOfDay(doy);
  }

  // Both copies, from the day of the era on.
  lemma SameFromEra(era: int, doe: int)
    requires 0 <= doe < 146_097
    ensures var yoe := YearOfEra(doe);
            var doy := doe - (365 * yoe + yoe / 4 - yoe / 100);
            MonthAndDay(yoe + era * 400, doy) == MarchDate(yoe + era * 400, doy)
  {
    hide MonthAndDay, MarchDate, YearOfEra, IsLeap;
    var yoe, doy := EraYear(doe);
    SameMonth(yoe + era * 400, doy);
  }

  /** The second copy of the algorithm computes the same date as the first, for every day number. */
  lemma SameDate(days: int)
    ensures DateOfDay(days) == CivilFromDays(days)
  {
    hide MonthAndDay, MarchDate, Truncated;
    var z := days + 719_468;
    FloorByTruncation(z);
    EraDay(z);
    SameFromEra(z / 146_097, z - z / 146_097 * 146_097);
  }

  /** The date and the time of day together give back the clock reading. */
  lemma NowIsNow(secs: int)
    ensures var t := NowUtc(secs);
            && Valid(Date(t.year, t.month, t.day))
            && 0 <= t.hour < 24 && 0 <= t.minute < 60 && 0 <= t.second < 60
            && DaysFromCivil(t.year, t.month, t.day) * 86400 + t.hour * 3600 + t.minute * 60 + t.second == secs
  {
    hide DaysFromCivil, CivilFromDays, DateOfDay, Valid;
    SameDate(secs / 86400);
    DaysOfCivil(secs / 86400);
    TimeOfDay(secs % 86400);
  }

  lemma TimeOfDay(rem: int)
    requires 0 <= rem < 86400
    ensures 0 <= rem / 3600 < 24 && 0 <= rem % 3600 / 60 < 60
    ensures rem / 3600 * 3600 + rem % 3600 / 60 * 60 + rem % 60 == rem
  {
    assert rem % 3600 % 60 == rem % 60;
  }

  // ---- Decimal text ----

  predicate IsDigit(c: char) {
    '0' <= c <= '9'
  }

  predicate Digits(s: string) {
    forall k :: 0 <= k < |s| ==> IsDigit(s[k])
  }

  function Value(s: string): nat
    requires Digits(s)
  {
    if s == "" then 0 else 10 * Value(s[..|s| - 1]) + (s[|s| - 1] as int - '0' as int)
  }

  function DigitOf(d: nat): (c: char)
    requires d < 10
    ensures IsDigit(c) && c as int - '0' as int == d
  {
    ('0' as int + d) as char
  }

  /** A number without leading zeros. */
  function Decimal(n: nat): (s: string)
    ensures Digits(s) && s != "" && Value(s) == n
  {
    if n < 10 then [DigitOf(n)] else
      var init := Decimal(n / 10);
      assert (init + [DigitOf(n % 10)])[..|init|] == init;
      init + [DigitOf(n % 10)]
  }

  function Padded(s: string, width: nat): (r: string)
    requires Digits(s)
    ensures Digits(r) && Value(r) == Value(s) && |r| == if |s| >= width then |s| else width
    decreases width - |s|
  {
    if |s| >= width then s else
      ValueFront('0', s);
      Padded("0" + s, width)
  }

  ghost function Ten(k: nat): nat {
    if k == 0 then 1 else 10 * Ten(k - 1)
  }

  /** The most significant digit comes first. */
  lemma {:induction false} ValueFront(c: char, s: string)
    requires IsDigit(c) && Digits(s)
    ensures Digits([c] + s) && Value([c] + s) == (c as int - '0' as int) * Ten(|s|) + Value(s)
  {
    if s == "" {
      assert [c] + s == [c] && [c][..0] == "";
    } else {
      var init, d := s[..|s| - 1], c as int - '0' as int;
      ValueFront(c, init);
      assert ([c] + s)[..|s|] == [c] + init && ([c] + s)[|s|] == s[|s| - 1];
      assert Value([c] + s) - Value(s) == 10 * (Value([c] + init) - Value(init));
      TenTimes(d, Ten(|init|));
    }
  }

  lemma TenTimes(d: int, n: int)
    ensures 10 * (d * n) == d * (10 * n)
  {
  }

  /** `parse` of an integer type: an optional plus sign and digits, in range. */
  function Parsed(s: string, max: int): Option<nat> {
    var body := if s != "" && s[0] == '+' then s[1..] else s;
    if body != "" && Digits(body) && Value(body) <= max then Some(Value(body)) else None
  }

  lemma ParsedDigits(s: string, max: int)
    requires Digits(s) && s != "" && Value(s) <= max
    ensures Parsed(s, max) == Some(Value(s))
  {
    assert IsDigit(s[0]);
  }

  // ---- Splitting at the dashes ----

  function Parts(s: string): (r: seq<string>)
    ensures r != []
  {
    if s == "" then [""] else
      var rest := Parts(s[1..]);
      if s[0] == '-' then [""] + rest else [[s[0]] + rest[0]] + rest[1..]
  }

  ghost predicate NoDash(a: string) {
    forall k :: 0 <= k < |a| ==> a[k] != '-'
  }

  lemma DigitsNoDash(a: string)
    requires Digits(a)
    ensures NoDash(a) && NoDash("+" + a)
  {
    assert forall k :: 0 <= k < |a| ==> IsDigit(a[k]);
  }

  lemma {:induction false} PartsOne(a: string)
    requires NoDash(a)
    ensures Parts(a) == [a]
  {
    if a != "" {
      PartsOne(a[1..]);
      assert a == [a[0]] + a[1..];
    }
  }

  lemma {:induction false} PartsJoin(a: string, t: string)
    requires NoDash(a)
    ensures Parts(a + "-" + t) == [a] + Parts(t)
  {
    var s := a + "-" + t;
    if a == "" {
      assert s[0] == '-' && s[1..] == t;
    } else {
      assert s[1..] == a[1..] + "-" + t;
      PartsJoin(a[1..], t);
      assert a == [a[0]] + a[1..];
    }
  }

  // The first part, and the parts of what is behind its dash.
  lemma {:induction false} PartsFirst(s: string) returns (t: string)
    ensures NoDash(Parts(s)[0])
    ensures if |Parts(s)| == 1 then s == Parts(s)[0]
            else s == Parts(s)[0] + "-" + t && Parts(t) == Parts(s)[1..]
  {
    t := "";
    if s != "" {
      var u := PartsFirst(s[1..]);
      t := if s[0] == '-' then s[1..] else u;
      FirstPart(s);
      if |Parts(s[1..])| > 1 {
        assert s == [s[0]] + (Parts(s[1..])[0] + "-" + u);
      }
    }
  }

  lemma FirstPart(s: string)
    requires s != ""
    ensures s == [s[0]] + s[1..] && (s[0] == '-' ==> s == "" + "-" + s[1..])
    ensures s[0] != '-' ==> NoDash([s[0]]) && Parts(s)[1..] == Parts(s[1..])[1..]
  {
  }

  // ---- shift_date ----

  function Signed(year: int): string {
    if year >= 0 then Padded(Decimal(year), 4) else "-" + Padded(Decimal(-year), 3)
  }

  /** `{:04}-{:02}-{:02}`; the sign counts towards the width. */
  function Formatted(d: Date): string
    requires d.month >= 0 && d.day >= 0
  {
    Signed(d.year) + "-" + (Padded(Decimal(d.month), 2) + "-" + Padded(Decimal(d.day), 2))
  }

  /** The date a text stands for; days up to 31 are taken in every month. */
  function ParseDate(s: string): Option<Date> {
    var parts := Parts(s);
    if |parts| != 3 then None else
      match (Parsed(parts[0], I64_MAX), Parsed(parts[1], U32_MAX), Parsed(parts[2], U32_MAX))
      case (Some(year), Some(month), Some(day)) =>
        if 1 <= month <= 12 && 1 <= day <= 31 then Some(Date(year, month, day)) else None
      case _ => None
  }

  function ShiftDate(s: string, offset: int): Option<string> {
    match ParseDate(s)
    case None => None
    case Some(d) =>
      var days := DayNumber(d) + offset;
      if I64_MIN <= days <= I64_MAX then
        DaysOfCivil(days);
        Some(Formatted(CivilFromDays(days)))
      else None
  }

  // ---- Which texts are dates ----

  /** Digits with or without a plus sign in front, standing for `v`. */
  ghost predicate Numeral(s: string, v: int, max: int) {
    exists digits :: (s == digits || s == "+" + digits) && digits != "" && Digits(digits) && Value(digits) == v <= max
  }

  lemma ParsedIs(s: string, v: int, max: int)
    ensures Numeral(s, v, max) <==> Parsed(s, max).Some? && Parsed(s, max).value == v
    ensures Numeral(s, v, max) ==> NoDash(s)
  {
    if digits :| (s == digits || s == "+" + digits) && digits != "" && Digits(digits) && Value(digits) == v <= max {
      DigitsNoDash(digits);
      assert IsDigit(digits[0]);
      assert s == "+" + digits ==> s[1..] == digits;
    }
    if Parsed(s, max).Some? {
      assert s != "" && s[0] == '+' ==> s == "+" + s[1..];
    }
  }

  /** A text is a date exactly if it is three numerals joined by dashes, month and day in range. */
  lemma ParseDateIs(s: string, d: Date)
    ensures ParseDate(s) == Some(d) <==>
              && 1 <= d.month <= 12 && 1 <= d.day <= 31
              && exists year, month, day ::
                   && s == year + "-" + (month + "-" + day)
                   && Numeral(year, d.year, I64_MAX) && Numeral(month, d.month, U32_MAX)
                   && Numeral(day, d.day, U32_MAX)
  {
    hide Parts, Parsed, Numeral, NoDash;
    if ParseDate(s) == Some(d) {
      var parts := Parts(s);
      var t := PartsFirst(s);
      var u := PartsFirst(t);
      var _ := PartsFirst(u);
      ParsedIs(parts[0], d.year, I64_MAX);
      ParsedIs(parts[1], d.month, U32_MAX);
      ParsedIs(parts[2], d.day, U32_MAX);
      assert s == parts[0] + "-" + (parts[1] + "-" + parts[2]);
    }
    if year, month, day :|
      && s == year + "-" + (month + "-" + day)
      && Numeral(year, d.year, I64_MAX) && Numeral(month, d.month, U32_MAX) && Numeral(day, d.day, U32_MAX)
    {
      ParsedIs(year, d.year, I64_MAX);
      ParsedIs(month, d.month, U32_MAX);
      ParsedIs(day, d.day, U32_MAX);
      PartsJoin(year, month + "-" + day);
      PartsJoin(month, day);
      PartsOne(day);
    }
  }

  // ---- Reading back what was formatted ----

  lemma FieldsFit(d: Date)
    requires Valid(d)
    ensures 1 <= d.month <= 12 && 1 <= d.day <= 31
  {
  }

  lemma PartsOfDate(year: string, month: string, day: string)
    requires Digits(year) && Digits(month) && Digits(day)
    ensures Parts(year + "-" + (month + "-" + day)) == [year, month, day]
  {
    hide Parts, Digits, NoDash;
    DigitsNoDash(year);
    DigitsNoDash(month);
    DigitsNoDash(day);
    PartsJoin(year, month + "-" + day);
    PartsJoin(month, day);
    PartsOne(day);
  }

  /** A formatted date is read back exactly if its year is not negative. */
  lemma FormattedParses(d: Date)
    requires Valid(d) && d.year <= I64_MAX
    ensures d.month >= 0 && d.day >= 0
    ensures ParseDate(Formatted(d)) == if d.year >= 0 then Some(d) else None
  {
    hide Valid, Parsed, Digits, Parts, Padded, Decimal, Value;
    FieldsFit(d);
    var month, day := Padded(Decimal(d.month), 2), Padded(Decimal(d.day), 2);
    if d.year >= 0 {
      var year := Padded(Decimal(d.year), 4);
      PartsOfDate(year, month, day);
      ParsedDigits(year, I64_MAX);
      ParsedDigits(month, U32_MAX);
      ParsedDigits(day, U32_MAX);
    } else {
      var rest := Padded(Decimal(-d.year), 3) + "-" + (month + "-" + day);
      NegativeParts(rest);
      assert Formatted(d) == "-" + rest;
    }
  }

  // Each digit more is a factor of ten more.
  lemma DecimalStep(n: nat, k: nat, bound: nat)
    requires k >= 1 && (|Decimal(n / 10)| <= k <==> n / 10 < bound)
    ensures |Decimal(n)| <= k + 1 <==> n < 10 * bound
  {
  }

  lemma DecimalSize(n: nat)
    ensures |Decimal(n)| <= 2 <==> n < 100
    ensures |Decimal(n)| <= 3 <==> n < 1000
    ensures |Decimal(n)| <= 4 <==> n < 10_000
  {
    DecimalStep(n / 100, 1, 10);
    DecimalStep(n / 10, 1, 10);
    DecimalStep(n, 1, 10);
    DecimalStep(n / 10, 2, 100);
    DecimalStep(n, 2, 100);
    DecimalStep(n, 3, 1000);
  }

  ghost predicate Reads(s: string, v: int) {
    Digits(s) && Value(s) == v
  }

  /**
  Ten characters for the years from -999 to 9999, with the dashes in their places and leading zeros in the fields;
  longer years take as many digits as they need.
  */
  ghost predicate Shaped(s: string, d: Date) {
    var n := |s| - 6;
    && n >= 4 && (n == 4 <==> -1000 < d.year < 10_000) && s[n] == '-' && s[n + 3] == '-'
    && Reads(s[n + 1..n + 3], d.month) && Reads(s[n + 4..], d.day)
    && if d.year >= 0 then Reads(s[..n], d.year) else s[0] == '-' && Reads(s[1..n], -d.year)
  }

  lemma FormattedShape(d: Date)
    requires Valid(d)
    ensures d.month >= 0 && d.day >= 0 && Shaped(Formatted(d), d)
  {
    hide Valid, Digits, Padded, Decimal, Value;
    FieldsFit(d);
    var s, n := Formatted(d), |Signed(d.year)|;
    var month, day := Padded(Decimal(d.month), 2), Padded(Decimal(d.day), 2);
    DecimalSize(d.month);
    DecimalSize(d.day);
    DecimalSize(if d.year >= 0 then d.year else -d.year);
    assert s[..n] == Signed(d.year) && s[n + 1..n + 3] == month && s[n + 4..] == day;
    if d.year < 0 {
      assert s[1..n] == Signed(d.year)[1..];
    }
  }

  lemma NegativeParts(rest: string)
    ensures ParseDate("-" + rest) == None
  {
    assert ("-" + rest)[1..] == rest;
    assert Parts("-" + rest)[0] == "";
  }

  // The year of a day number in range is in range.
  lemma YearInRange(n: int)
    requires n <= I64_MAX
    ensures CivilFromDays(n).year <= I64_MAX
  {
    var era, yoe, doy := CivilAsMarchDate(n);
    assert yoe / 4 - yoe / 100 >= 0;
    assert 365 * (yoe + era * 400) <= n + 719_468 || era < 0;
    hide CivilFromDays;
  }

  /**
  Shifting by `a` and then by `b` is shifting by the sum, exactly if the date in between does not lie before
  year 0: then its leading minus sign makes the second shift fail.
  */
  lemma ShiftTwice(s: string, a: int, b: int)
    requires ShiftDate(s, a).Some?
    ensures var n := DayNumber(ParseDate(s).value) + a;
            ShiftDate(ShiftDate(s, a).value, b) ==
              if CivilFromDays(n).year >= 0 then ShiftDate(s, a + b) else None
  {
    hide ParseDate, Formatted, CivilFromDays, DaysFromCivil;
    var n := DayNumber(ParseDate(s).value) + a;
    DaysOfCivil(n);
    YearInRange(n);
    FormattedParses(CivilFromDays(n));
  }

  /** From year 0 on, one day forward is the calendar's next day. */
  lemma ShiftByOne(d: Date)
    requires Valid(d) && 0 <= d.year <= I64_MAX && I64_MIN <= DayNumber(d) + 1 <= I64_MAX
    ensures d.month >= 0 && d.day >= 0 && Next(d).month >= 0 && Next(d).day >= 0
    ensures ShiftDate(Formatted(d), 1) == Some(Formatted(Next(d)))
  {
    hide ParseDate, Formatted, CivilFromDays, DaysFromCivil, Valid, Next;
    FormattedParses(d);
    NextAddsOne(d);
    CivilOfDays(Next(d));
    FieldsFit(d);
    FieldsFit(Next(d));
  }

  /** The law fails just before year 0. */
  lemma ShiftFailsBeforeYearZero()
    ensures var s := Formatted(Date(0, 1, 1));
            && ShiftDate(s, 0) == Some(s)
            && ShiftDate(s, -1).Some? && ShiftDate(ShiftDate(s, -1).value, 1) == None
  {
    hide Formatted, ParseDate, CivilFromDays;
    var d, before := Date(0, 1, 1), Date(-1, 12, 31);
    FormattedParses(d);
    CivilOfDays(d);
    NextAddsOne(before);
    CivilOfDays(before);
    ShiftTwice(Formatted(d), -1, 1);
  }
}
