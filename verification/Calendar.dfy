/** Days and months of the proleptic Gregorian calendar, as section 21.4.1 of ECMA-262 computes with them. */
module Calendar {
  import opened Shared

  /** Months count from 0, days of the month from 1. */
  datatype Civil = Civil(year: int, month: int, day: int)

  predicate IsLeap(year: int) {
    year % 4 == 0 && (year % 100 != 0 || year % 400 == 0)
  }

  function DaysInYear(year: int): int {
    if IsLeap(year) then 366 else 365
  }

  function DaysInMonth(year: int, month: int): int {
    if month == 1 then (if IsLeap(year) then 29 else 28)
    else if month == 3 || month == 5 || month == 8 || month == 10 then 30
    else 31
  }

  /** The days of a year before a month. */
  function DaysBefore(year: int, month: int): int
    requires 0 <= month <= 12
    decreases month
  {
    if month == 0 then 0 else DaysBefore(year, month - 1) + DaysInMonth(year, month - 1)
  }

  /** The number of the first day of a year, counted from 1970. */
  function DayFromYear(year: int): int {
    365 * (year - 1970) + (year - 1969) / 4 - (year - 1901) / 100 + (year - 1601) / 400
  }

  /** The number of a day; months and days may lie outside their ranges and carry over. */
  function MakeDay(year: int, month: int, day: int): int {
    DayFromYear(year + month / 12) + DaysBefore(year + month / 12, month % 12) + day - 1
  }

  predicate ValidCivil(c: Civil) {
    0 <= c.month < 12 && 1 <= c.day <= DaysInMonth(c.year, c.month)
  }

  function Number(c: Civil): int
    requires ValidCivil(c)
  {
    MakeDay(c.year, c.month, c.day)
  }

  function NextDay(c: Civil): Civil {
    if c.day < DaysInMonth(c.year, c.month) then c.(day := c.day + 1)
    else if c.month < 11 then Civil(c.year, c.month + 1, 1)
    else Civil(c.year + 1, 0, 1)
  }

  function PreviousDay(c: Civil): Civil {
    if c.day > 1 then c.(day := c.day - 1)
    else if c.month > 0 then Civil(c.year, c.month - 1, DaysInMonth(c.year, c.month - 1))
    else Civil(c.year - 1, 11, 31)
  }

  /** The date of a day, counted from the first of January 1970. */
  function CivilOf(n: int): Civil
    decreases if n < 0 then -n else n
  {
    if n == 0 then Civil(1970, 0, 1)
    else if n > 0 then NextDay(CivilOf(n - 1))
    else PreviousDay(CivilOf(n + 1))
  }

  lemma DaysOfYear(year: int)
    ensures DaysBefore(year, 12) == DaysInYear(year)
    ensures DayFromYear(year + 1) == DayFromYear(year) + DaysInYear(year)
  {
    assert DaysBefore(year, 12) == DaysBefore(year, 11) + 31;
    assert DaysBefore(year, 11) == DaysBefore(year, 9) + 61;
    assert DaysBefore(year, 9) == DaysBefore(year, 7) + 61;
    assert DaysBefore(year, 7) == DaysBefore(year, 5) + 61;
    assert DaysBefore(year, 5) == DaysBefore(year, 3) + 61;
    assert DaysBefore(year, 3) == 31 + DaysInMonth(year, 1) + 31;
    LeapSteps(year);
  }

  lemma LeapSteps(year: int)
    ensures (year - 1968) / 4 - (year - 1969) / 4 == if year % 4 == 0 then 1 else 0
    ensures (year - 1900) / 100 - (year - 1901) / 100 == if year % 100 == 0 then 1 else 0
    ensures (year - 1600) / 400 - (year - 1601) / 400 == if year % 400 == 0 then 1 else 0
    ensures year % 400 == 0 ==> year % 100 == 0
    ensures year % 100 == 0 ==> year % 4 == 0
  {
    StepsOf4(year);
    StepsOf100(year);
    StepsOf400(year);
    FourHundreds(year);
    Hundreds(year);
  }

  lemma FourHundreds(year: int)
    ensures year % 400 == 0 ==> year % 100 == 0
  {
    var q, r := year / 400, year % 400;
    assert year == 400 * q + r;
    if r == 0 {
      assert year == 100 * (4 * q);
    }
  }

  lemma Hundreds(year: int)
    ensures year % 100 == 0 ==> year % 4 == 0
  {
    var q, r := year / 100, year % 100;
    assert year == 100 * q + r;
    if r == 0 {
      assert year == 4 * (25 * q);
    }
  }

  lemma StepsOf4(year: int)
    ensures (year - 1968) / 4 - (year - 1969) / 4 == if year % 4 == 0 then 1 else 0
  {
    assert year == 4 * (year / 4) + year % 4;
  }

  lemma StepsOf100(year: int)
    ensures (year - 1900) / 100 - (year - 1901) / 100 == if year % 100 == 0 then 1 else 0
  {
    assert year == 100 * (year / 100) + year % 100;
  }

  lemma StepsOf400(year: int)
    ensures (year - 1600) / 400 - (year - 1601) / 400 == if year % 400 == 0 then 1 else 0
  {
    assert year == 400 * (year / 400) + year % 400;
  }

  lemma NextDayNumber(c: Civil)
    requires ValidCivil(c)
    ensures ValidCivil(NextDay(c)) && Number(NextDay(c)) == Number(c) + 1
  {
    hide DayFromYear;
    DaysOfYear(c.year);
    MonthLengths(c.year, c.month);
    if c.month < 11 {
      MonthLengths(c.year, c.month + 1);
      assert DaysBefore(c.year, c.month + 1) == DaysBefore(c.year, c.month) + DaysInMonth(c.year, c.month);
    } else {
      assert DaysBefore(c.year, 12) == DaysBefore(c.year, 11) + 31;
    }
  }

  lemma PreviousThenNext(c: Civil)
    requires ValidCivil(c)
    ensures ValidCivil(PreviousDay(c)) && NextDay(PreviousDay(c)) == c
  {
    hide DayFromYear;
    if c.month > 0 {
      MonthLengths(c.year, c.month - 1);
    }
  }

  lemma PreviousDayNumber(c: Civil)
    requires ValidCivil(c)
    ensures ValidCivil(PreviousDay(c)) && Number(PreviousDay(c)) == Number(c) - 1
  {
    hide NextDay, PreviousDay, MakeDay, DaysInMonth;
    PreviousThenNext(c);
    NextDayNumber(PreviousDay(c));
  }

  /** The date of a day is a date, and its number is the day. */
  lemma {:induction false} CivilOfNumber(n: int)
    ensures ValidCivil(CivilOf(n)) && Number(CivilOf(n)) == n
    decreases if n < 0 then -n else n
  {
    hide MakeDay, DaysInMonth;
    if n == 0 {
      Epoch();
    } else if n > 0 {
      CivilOfNumber(n - 1);
      NextDayNumber(CivilOf(n - 1));
    } else {
      CivilOfNumber(n + 1);
      PreviousDayNumber(CivilOf(n + 1));
    }
  }

  lemma Epoch()
    ensures ValidCivil(Civil(1970, 0, 1)) && MakeDay(1970, 0, 1) == 0
  {
  }

  /** The days of a month lie between its first and the first of the next month. */
  lemma {:induction false} NumberOrder(c: Civil, d: Civil)
    requires ValidCivil(c) && ValidCivil(d)
    requires c.year < d.year || (c.year == d.year && c.month < d.month)
    ensures Number(c) < MakeDay(d.year, d.month, 1)
    decreases d.year - c.year, d.month
  {
    hide DayFromYear, DaysInMonth;
    DaysOfYear(d.year - 1);
    if d.month > 0 {
      assert DaysBefore(d.year, d.month) == DaysBefore(d.year, d.month - 1) + DaysInMonth(d.year, d.month - 1);
      MonthLengths(d.year, d.month - 1);
      var e := Civil(d.year, d.month - 1, 1);
      if c.year < d.year || c.month < d.month - 1 {
        NumberOrder(c, e);
      }
    } else {
      MonthLengths(d.year - 1, 11);
      assert DaysBefore(d.year - 1, 12) == DaysBefore(d.year - 1, 11) + DaysInMonth(d.year - 1, 11);
      var e := Civil(d.year - 1, 11, 1);
      if c.year < d.year - 1 || c.month < 11 {
        NumberOrder(c, e);
      }
    }
  }

  lemma MonthLengths(year: int, month: int)
    ensures 28 <= DaysInMonth(year, month) <= 31
  {
  }

  /** A date is the only one with its number, so dates and days correspond one to one. */
  lemma CivilUnique(c: Civil)
    requires ValidCivil(c)
    ensures CivilOf(Number(c)) == c
  {
    hide DayFromYear, DaysInMonth, DaysBefore, CivilOf;
    var d := CivilOf(Number(c));
    CivilOfNumber(Number(c));
    if c.year < d.year || (c.year == d.year && c.month < d.month) {
      NumberOrder(c, d);
    } else if d.year < c.year || (d.year == c.year && d.month < c.month) {
      NumberOrder(d, c);
    }
  }

  // Instants, in milliseconds since the first of January 1970.

  function DateOf(time: int): Civil {
    CivilOf(time / DAY)
  }

  /** The same time of day, so many months later; the day of the month may carry over. */
  function AddMonths(time: int, months: int): int {
    var c := DateOf(time);
    MakeDay(c.year, c.month + months, c.day) * DAY + time % DAY
  }

  function AddDays(time: int, days: int): int {
    var c := DateOf(time);
    MakeDay(c.year, c.month, c.day + days) * DAY + time % DAY
  }

  /** The first of the next month is as many days after the first of this one as this one has. */
  lemma MonthStep(year: int, month: int)
    requires 0 <= month < 12
    ensures MakeDay(year, month + 1, 1) == MakeDay(year, month, 1) + DaysInMonth(year, month)
  {
    hide DayFromYear, DaysInMonth;
    DaysOfYear(year);
    if month < 11 {
      assert DaysBefore(year, month + 1) == DaysBefore(year, month) + DaysInMonth(year, month);
    } else {
      assert DaysBefore(year, 12) == DaysBefore(year, 11) + DaysInMonth(year, 11);
    }
  }

  /** A month later is as many days later as the month has, 28 to 31. */
  lemma AddMonthAdds(time: int)
    ensures var c := DateOf(time);
      AddMonths(time, 1) == time + DaysInMonth(c.year, c.month) * DAY && 28 <= DaysInMonth(c.year, c.month) <= 31
  {
    hide CivilOf, DaysInMonth;
    var c := DateOf(time);
    CivilOfNumber(time / DAY);
    MonthStep(c.year, c.month);
    MonthLengths(c.year, c.month);
    MakeDayShift(c.year, c.month + 1, c.day);
    MakeDayShift(c.year, c.month, c.day);
    assert MakeDay(c.year, c.month + 1, c.day) == time / DAY + DaysInMonth(c.year, c.month);
    Apart(time, DaysInMonth(c.year, c.month));
  }

  lemma MakeDayShift(year: int, month: int, day: int)
    ensures MakeDay(year, month, day) == MakeDay(year, month, 1) + day - 1
  {
  }

  lemma Apart(time: int, days: int)
    ensures (time / DAY + days) * DAY + time % DAY == time + days * DAY
  {
  }

  lemma AddDaysAdds(time: int, days: int)
    ensures AddDays(time, days) == time + days * DAY
  {
    hide CivilOf, DaysInMonth;
    var c := DateOf(time);
    CivilOfNumber(time / DAY);
    MakeDayShift(c.year, c.month, c.day + days);
    MakeDayShift(c.year, c.month, c.day);
    Apart(time, days);
  }

  // The monthly periods of budgets.

  /** From the first instant of a month to the first of the next. */
  datatype Period = Period(key: string, startsAt: int, endsAt: int)

  function Digits(n: nat): string {
    if n < 10 then [(n + '0' as int) as char] else Digits(n / 10) + [(n % 10 + '0' as int) as char]
  }

  function Decimal(n: int): string {
    if n < 0 then "-" + Digits(-n) else Digits(n)
  }

  function TwoDigits(n: int): string {
    (if n < 10 then "0" else "") + Decimal(n)
  }

  /** The year and the month, which has two digits and counts from one. */
  function PeriodKey(year: int, month: int): string {
    Decimal(year) + "-" + TwoDigits(month + 1)
  }

  function BudgetPeriod(now: int): Period {
    var c := DateOf(now);
    Period(PeriodKey(c.year, c.month), MakeDay(c.year, c.month, 1) * DAY, MakeDay(c.year, c.month + 1, 1) * DAY)
  }

  lemma InstantOfDay(time: int, day: int)
    ensures day * DAY <= time <==> day <= time / DAY
  {
    assert time == time / DAY * DAY + time % DAY;
    if day > time / DAY {
      assert day * DAY >= (time / DAY + 1) * DAY;
    } else {
      assert day * DAY <= time / DAY * DAY;
    }
  }

  /** Periods tile time: an instant is in its own period, and in no period but its own. */
  lemma PeriodsTile(now: int, time: int)
    ensures BudgetPeriod(now).startsAt <= now < BudgetPeriod(now).endsAt
    ensures BudgetPeriod(now).startsAt <= time < BudgetPeriod(now).endsAt <==> BudgetPeriod(time) == BudgetPeriod(now)
  {
    PeriodBounds(now);
    PeriodBounds(time);
    hide CivilOf, MakeDay;
    var c, d := DateOf(now), DateOf(time);
    if (c.year, c.month) != (d.year, d.month) {
      PeriodsApart(now, time);
    }
  }

  lemma {:induction false} DigitsPlain(n: nat)
    ensures Digits(n) != "" && forall c :: c in Digits(n) ==> '0' <= c <= '9'
    ensures |Digits(n)| == 1 <==> n < 10
    ensures |Digits(n)| == 2 <==> 10 <= n < 100
  {
    if n < 10 {
    } else {
      DigitsPlain(n / 10);
    }
  }

  lemma {:induction false} DigitsInjective(a: nat, b: nat)
    ensures Digits(a) == Digits(b) <==> a == b
  {
    DigitsPlain(a);
    DigitsPlain(b);
    if Digits(a) == Digits(b) {
      var last := |Digits(a)| - 1;
      assert Digits(a)[last] == Digits(b)[last];
      if a >= 10 {
        assert Digits(a)[..last] == Digits(a / 10) && Digits(b)[..last] == Digits(b / 10);
        DigitsInjective(a / 10, b / 10);
      }
    }
  }

  lemma DecimalInjective(a: int, b: int)
    ensures Decimal(a) == Decimal(b) <==> a == b
    ensures ':' !in Decimal(a)
  {
    var x, y := if a < 0 then -a else a, if b < 0 then -b else b;
    DigitsPlain(x);
    DigitsPlain(y);
    DigitsInjective(x, y);
    assert Digits(x)[0] in Digits(x) && Digits(y)[0] in Digits(y);
    if Decimal(a) == Decimal(b) {
      assert Decimal(a)[0] == Decimal(b)[0];
      if a < 0 {
        assert Decimal(a)[1..] == Digits(x) && Decimal(b)[1..] == Digits(y);
      }
    }
  }

  lemma PeriodKeyParts(year: int, month: int)
    requires 0 <= month < 12
    ensures var k := PeriodKey(year, month);
      |k| >= 3 && k[..|k| - 3] == Decimal(year) && k[|k| - 2..] == TwoDigits(month + 1)
    ensures ':' !in PeriodKey(year, month)
  {
    DigitsPlain(month + 1);
    DecimalInjective(year, year);
    var k := PeriodKey(year, month);
    assert k == Decimal(year) + ("-" + TwoDigits(month + 1));
  }

  /** Different months have different keys, and no key is blank or has a colon. */
  lemma PeriodKeysDiffer(now: int, time: int)
    ensures BudgetPeriod(now).key == BudgetPeriod(time).key <==> BudgetPeriod(now) == BudgetPeriod(time)
    ensures BudgetPeriod(now).key != "" && ':' !in BudgetPeriod(now).key
  {
    PeriodBounds(now);
    PeriodBounds(time);
    hide CivilOf, MakeDay, PeriodKey, Digits;
    var c, d := DateOf(now), DateOf(time);
    PeriodKeyParts(c.year, c.month);
    PeriodKeyParts(d.year, d.month);
    DecimalInjective(c.year, d.year);
    MonthDigits(c.month + 1, d.month + 1);
  }

  lemma MonthDigits(a: nat, b: nat)
    requires 1 <= a <= 12 && 1 <= b <= 12
    ensures TwoDigits(a) == TwoDigits(b) <==> a == b
  {
    TwoDigitsFirst(a);
    TwoDigitsFirst(b);
    DigitsInjective(a, b);
    if TwoDigits(a) == TwoDigits(b) {
      assert TwoDigits(a)[0] == TwoDigits(b)[0];
    }
  }

  lemma TwoDigitsFirst(n: nat)
    requires 1 <= n <= 12
    ensures TwoDigits(n) != "" && TwoDigits(n)[0] == if n < 10 then '0' else '1'
    ensures Digits(n) == if n < 10 then TwoDigits(n)[1..] else TwoDigits(n)
  {
    if n < 10 {
      assert TwoDigits(n) == "0" + Digits(n);
    } else {
      assert TwoDigits(n) == "" + Digits(n) == Digits(n);
      assert Digits(n) == Digits(n / 10) + [(n % 10 + '0' as int) as char];
      assert Digits(n / 10) == ['1'];
    }
  }

  lemma PeriodBounds(now: int)
    ensures ValidCivil(DateOf(now))
    ensures BudgetPeriod(now).startsAt <= now < BudgetPeriod(now).endsAt
  {
    hide CivilOf, DaysInMonth, DaysBefore, DayFromYear;
    var c := DateOf(now);
    CivilOfNumber(now / DAY);
    MonthStep(c.year, c.month);
    MakeDayShift(c.year, c.month, c.day);
    InstantOfDay(now, MakeDay(c.year, c.month, 1));
    InstantOfDay(now, MakeDay(c.year, c.month + 1, 1));
  }

  lemma PeriodsApart(now: int, time: int)
    requires (DateOf(now).year, DateOf(now).month) != (DateOf(time).year, DateOf(time).month)
    ensures !(BudgetPeriod(now).startsAt <= time < BudgetPeriod(now).endsAt)
  {
    hide CivilOf, DaysInMonth, DaysBefore, DayFromYear;
    var c, d := DateOf(now), DateOf(time);
    CivilOfNumber(now / DAY);
    CivilOfNumber(time / DAY);
    InstantOfDay(time, MakeDay(c.year, c.month, 1));
    InstantOfDay(time, MakeDay(c.year, c.month + 1, 1));
    if d.year < c.year || (d.year == c.year && d.month < c.month) {
      NumberOrder(d, c);
    } else {
      LastOfMonthBefore(c, d);
    }
  }

  lemma LastOfMonthBefore(c: Civil, d: Civil)
    requires ValidCivil(c) && ValidCivil(d)
    requires c.year < d.year || (c.year == d.year && c.month < d.month)
    ensures MakeDay(c.year, c.month + 1, 1) <= Number(d)
  {
    var last := c.(day := DaysInMonth(c.year, c.month));
    NumberOrder(last, d);
    hide DaysInMonth, DaysBefore, DayFromYear, MakeDay;
    MonthStep(c.year, c.month);
    MakeDayShift(c.year, c.month, last.day);
    MakeDayShift(d.year, d.month, d.day);
  }
}
