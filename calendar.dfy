/**
 * The proleptic Gregorian calendar as Python's `calendar` and `datetime`
 * modules compute it: leap years, month lengths and weekdays (Monday is 0).
 */
module Calendar {

  /** `calendar.isleap(y)`. */
  predicate IsLeap(y: int)
  {
    y % 4 == 0 && (y % 100 != 0 || y % 400 == 0)
  }

  /** `calendar.monthrange(y, m)[1]`: the number of days of the month. */
  function DaysInMonth(y: int, m: int): (n: nat)
    requires 1 <= m <= 12
    ensures 28 <= n <= 31
    ensures n == 29 <==> m == 2 && IsLeap(y)
    ensures n == 28 <==> m == 2 && !IsLeap(y)
  {
    if m == 2 then (if IsLeap(y) then 29 else 28)
    else if m == 4 || m == 6 || m == 9 || m == 11 then 30
    else 31
  }

  /** The days of the years before year y, counting from 1 January of year 1. */
  function DaysBeforeYear(y: int): int
    requires y >= 1
  {
    var p := y - 1;
    p * 365 + p / 4 - p / 100 + p / 400
  }

  /** The days of the months of year y before month m. */
  function DaysBeforeMonth(y: int, m: int): nat
    requires 1 <= m <= 12
    decreases m
  {
    if m == 1 then 0 else DaysBeforeMonth(y, m - 1) + DaysInMonth(y, m - 1)
  }

  /** `date(y, m, d).weekday()`: 0 for Monday through 6 for Sunday (1 January of year 1 is a Monday). */
  function Weekday(y: int, m: int, d: int): (w: nat)
    requires 1 <= y && 1 <= m <= 12
    ensures w < 7
  {
    (DaysBeforeYear(y) + DaysBeforeMonth(y, m) + d + 6) % 7
  }

  /** 1 when the day with this running number falls on Monday to Friday. */
  function WorkdayAt(t: int): nat
  {
    if t % 7 < 5 then 1 else 0
  }

  /** The number of days t + 1 .. t + n that fall on Monday to Friday. */
  function WorkdaysAfter(t: int, n: nat): (c: nat)
    ensures c <= n
    decreases n
  {
    if n == 0 then 0 else WorkdaysAfter(t, n - 1) + WorkdayAt(t + n)
  }

  /** The Monday-to-Friday days among days 1 .. n of month m of year y. */
  function WorkdaysInMonthPrefix(y: int, m: int, n: nat): nat
    requires 1 <= y && 1 <= m <= 12
    decreases n
  {
    if n == 0 then 0
    else WorkdaysInMonthPrefix(y, m, n - 1) + (if Weekday(y, m, n) < 5 then 1 else 0)
  }

  /** The month's running day numbers: day d of the month is day `MonthBase(y, m) + d`. */
  function MonthBase(y: int, m: int): int
    requires 1 <= y && 1 <= m <= 12
  {
    DaysBeforeYear(y) + DaysBeforeMonth(y, m) + 6
  }

  lemma {:induction false} PrefixIsWorkdaysAfter(y: int, m: int, n: nat)
    requires 1 <= y && 1 <= m <= 12
    ensures WorkdaysInMonthPrefix(y, m, n) == WorkdaysAfter(MonthBase(y, m), n)
    decreases n
  {
    if n > 0 {
      PrefixIsWorkdaysAfter(y, m, n - 1);
    }
  }

  /** Whether a day is a working day depends only on its weekday. */
  lemma ShiftWorkday(t: int, j: int)
    ensures WorkdayAt(t + j) == WorkdayAt(t % 7 + j)
  {
    var r := t % 7;
    assert t == 7 * (t / 7) + r;
    assert (t + j) % 7 == (r + j) % 7;
  }

  /** Seven consecutive days hold exactly five working days. */
  lemma SevenDays(t: int)
    ensures WorkdayAt(t + 1) + WorkdayAt(t + 2) + WorkdayAt(t + 3) + WorkdayAt(t + 4)
      + WorkdayAt(t + 5) + WorkdayAt(t + 6) + WorkdayAt(t + 7) == 5
  {
    ShiftWorkday(t, 1);
    ShiftWorkday(t, 2);
    ShiftWorkday(t, 3);
    ShiftWorkday(t, 4);
    ShiftWorkday(t, 5);
    ShiftWorkday(t, 6);
    ShiftWorkday(t, 7);
    var r := t % 7;
    assert 0 <= r < 7;
  }

  /** Every further week adds exactly five working days. */
  lemma {:induction false} WeekAddsFive(t: int, n: nat)
    ensures WorkdaysAfter(t, n + 7) == WorkdaysAfter(t, n) + 5
  {
    SevenDays(t + n);
    var w := WorkdaysAfter(t, n);
    assert WorkdaysAfter(t, n + 1) == w + WorkdayAt(t + n + 1);
    assert WorkdaysAfter(t, n + 2) == WorkdaysAfter(t, n + 1) + WorkdayAt(t + n + 2);
    assert WorkdaysAfter(t, n + 3) == WorkdaysAfter(t, n + 2) + WorkdayAt(t + n + 3);
    assert WorkdaysAfter(t, n + 4) == WorkdaysAfter(t, n + 3) + WorkdayAt(t + n + 4);
    assert WorkdaysAfter(t, n + 5) == WorkdaysAfter(t, n + 4) + WorkdayAt(t + n + 5);
    assert WorkdaysAfter(t, n + 6) == WorkdaysAfter(t, n + 5) + WorkdayAt(t + n + 6);
    assert WorkdaysAfter(t, n + 7) == WorkdaysAfter(t, n + 6) + WorkdayAt(t + n + 7);
  }

  /** Adding k days adds at most k working days. */
  lemma {:induction false} MoreDaysAtMost(t: int, n: nat, k: nat)
    ensures WorkdaysAfter(t, n) <= WorkdaysAfter(t, n + k) <= WorkdaysAfter(t, n) + k
    decreases k
  {
    if k > 0 {
      MoreDaysAtMost(t, n, k - 1);
    }
  }

  /** w whole weeks hold exactly 5 * w working days. */
  lemma {:induction false} WholeWeeks(t: int, w: nat)
    ensures WorkdaysAfter(t, 7 * w) == 5 * w
    decreases w
  {
    if w > 0 {
      WholeWeeks(t, w - 1);
      WeekAddsFive(t, 7 * (w - 1));
    }
  }

  /** Any 28 to 31 consecutive days hold between 20 and 23 working days. */
  lemma MonthWorkdayBounds(t: int, n: nat)
    requires 28 <= n <= 31
    ensures 20 <= WorkdaysAfter(t, n) <= 23
  {
    var w, k := n / 7, n % 7;
    assert w == 4 && k <= 3 && 7 * w + k == n;
    WholeWeeks(t, w);
    MoreDaysAtMost(t, 7 * w, k);
  }

  /** The Monday-to-Friday days of a month number 20 to 23. */
  lemma MonthWorkdays(y: int, m: int)
    requires 1 <= y && 1 <= m <= 12
    ensures 20 <= WorkdaysInMonthPrefix(y, m, DaysInMonth(y, m)) <= 23
  {
    PrefixIsWorkdaysAfter(y, m, DaysInMonth(y, m));
    MonthWorkdayBounds(MonthBase(y, m), DaysInMonth(y, m));
  }
}
