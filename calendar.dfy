// The proleptic Gregorian calendar used by the holiday helpers: dates,
// day numbers (day 1 is 0001-01-01), weekdays and ISO 8601 extended
// calendar dates `YYYY-MM-DD` (clause 4.1.2.2 of ISO 8601:2004).

module Calendar {
  import opened Wrappers
  import opened Strings

  datatype Date = Date(year: int, month: int, day: int)

  predicate IsLeap(y: int)
  {
    y % 4 == 0 && (y % 100 != 0 || y % 400 == 0)
  }

  function DaysInMonth(y: int, m: int): (n: int)
    ensures 28 <= n <= 31
  {
    match m
    case 2 => if IsLeap(y) then 29 else 28
    case 4 | 6 | 9 | 11 => 30
    case _ => 31
  }

  function DaysInYear(y: int): int
  {
    if IsLeap(y) then 366 else 365
  }

  /** A date that exists: year at least 1, month 1..12, day within the month. */
  predicate Valid(d: Date)
  {
    d.year >= 1 && 1 <= d.month <= 12 && 1 <= d.day <= DaysInMonth(d.year, d.month)
  }

  /** Days in the years before `y`. */
  function DaysBeforeYear(y: int): int
    requires y >= 1
  {
    365 * (y - 1) + (y - 1) / 4 - (y - 1) / 100 + (y - 1) / 400
  }

  /** Days in the months of `y` before `m`. */
  function DaysBeforeMonth(y: int, m: int): int
    requires 1 <= m <= 12
  {
    var before := match m
      case 1 => 0 case 2 => 31 case 3 => 59 case 4 => 90
      case 5 => 120 case 6 => 151 case 7 => 181 case 8 => 212
      case 9 => 243 case 10 => 273 case 11 => 304 case _ => 334;
    if m > 2 && IsLeap(y) then before + 1 else before
  }

  /** The day number (`date.toordinal()`): 0001-01-01 is day 1. */
  function Ordinal(d: Date): int
    requires Valid(d)
  {
    DaysBeforeYear(d.year) + DaysBeforeMonth(d.year, d.month) + d.day
  }

  /** `date.weekday()`: 0 is Monday, 6 is Sunday (0001-01-01 was a Monday). */
  function Weekday(d: Date): (w: int)
    requires Valid(d)
    ensures 0 <= w < 7
  {
    Mod7(Ordinal(d) + 6)
  }

  /** `n % 7`, by repeated subtraction, so that the solver only unfolds it
      when a proof asks (see Mod7IsMod). */
  function Mod7(n: int): (r: int)
    ensures 0 <= r < 7
    decreases if n < 0 then 7 - n else n
  {
    if n < 0 then Mod7(n + 7) else if n < 7 then n else Mod7(n - 7)
  }

  lemma {:induction false} Mod7IsMod(n: int)
    ensures Mod7(n) == n % 7
    decreases if n < 0 then 7 - n else n
  {
    if n < 0 {
      Mod7IsMod(n + 7);
      WeekShift(n);
    } else if n >= 7 {
      Mod7IsMod(n - 7);
      WeekShift(n - 7);
    }
  }

  /** A week later falls on the same weekday. */
  lemma WeekShift(n: int)
    ensures (n + 7) % 7 == n % 7
  {
    var q := n / 7;
    assert n == 7 * q + n % 7;
    assert n + 7 == 7 * (q + 1) + n % 7;
  }

  /** One year's days follow on from the previous years'. */
  lemma DaysBeforeYearStep(y: int)
    requires y >= 1
    ensures DaysBeforeYear(y + 1) == DaysBeforeYear(y) + DaysInYear(y)
  {
    var x := y - 1;
    assert y / 4 == x / 4 + (if y % 4 == 0 then 1 else 0);
    assert y / 100 == x / 100 + (if y % 100 == 0 then 1 else 0);
    assert y / 400 == x / 400 + (if y % 400 == 0 then 1 else 0);
  }

  /** One month's days follow on from the previous months'. */
  lemma DaysBeforeMonthStep(y: int, m: int)
    requires 1 <= m < 12
    ensures DaysBeforeMonth(y, m + 1) == DaysBeforeMonth(y, m) + DaysInMonth(y, m)
  {
  }

  /** A valid date's day lies within its year. */
  lemma DayOfYearBounds(d: Date)
    requires Valid(d)
    ensures 1 <= DaysBeforeMonth(d.year, d.month) + d.day <= DaysInYear(d.year)
  {
  }

  /** The following day (`d + timedelta(days=1)`). */
  function NextDay(d: Date): (r: Date)
    requires Valid(d)
    ensures Valid(r) && Ordinal(r) == Ordinal(d) + 1
  {
    if d.day < DaysInMonth(d.year, d.month) then Date(d.year, d.month, d.day + 1)
    else if d.month < 12 then
      DaysBeforeMonthStep(d.year, d.month);
      Date(d.year, d.month + 1, 1)
    else
      DaysBeforeYearStep(d.year);
      Date(d.year + 1, 1, 1)
  }

  /** The previous day (`d - timedelta(days=1)`); 0001-01-01 has none. */
  function PrevDay(d: Date): (r: Date)
    requires Valid(d) && Ordinal(d) > 1
    ensures Valid(r) && Ordinal(r) == Ordinal(d) - 1
  {
    if d.day > 1 then Date(d.year, d.month, d.day - 1)
    else if d.month > 1 then
      DaysBeforeMonthStep(d.year, d.month - 1);
      Date(d.year, d.month - 1, DaysInMonth(d.year, d.month - 1))
    else
      DaysBeforeYearStep(d.year - 1);
      Date(d.year - 1, 12, 31)
  }

  /** `d + timedelta(days=n)`. */
  function AddDays(d: Date, n: int): (r: Date)
    requires Valid(d) && Ordinal(d) + n >= 1
    ensures Valid(r) && Ordinal(r) == Ordinal(d) + n
    decreases if n < 0 then -n else n
  {
    if n == 0 then d
    else if n > 0 then AddDays(NextDay(d), n - 1)
    else AddDays(PrevDay(d), n + 1)
  }

  /** Within a month, the weekday advances with the day of the month. */
  lemma WeekdayInMonth(y: int, m: int, k: int)
    requires Valid(Date(y, m, 1)) && Valid(Date(y, m, k))
    ensures Weekday(Date(y, m, k)) == (Weekday(Date(y, m, 1)) + (k - 1)) % 7
  {
    var o := Ordinal(Date(y, m, 1));
    assert Ordinal(Date(y, m, k)) == o + (k - 1);
    Mod7IsMod(o + 6);
    Mod7IsMod(o + 6 + (k - 1));
    ModSum(o + 6, k - 1);
  }

  /** Reducing one term modulo 7 first does not change the sum modulo 7. */
  lemma ModSum(a: int, b: int)
    ensures (a % 7 + b) % 7 == (a + b) % 7
  {
    var q := a / 7;
    assert a == 7 * q + a % 7;
    assert a + b == (a % 7 + b) + 7 * q;
  }

  /** Stepping from weekday `w` to the next day with weekday `x % 7`, then
      on by whole weeks, lands on weekday `x % 7`. */
  lemma ModShift(w: int, x: int, n: int)
    requires 0 <= w < 7
    ensures (w + (x - w) % 7 + 7 * n) % 7 == x % 7
  {
    var q := (x - w) / 7;
    assert x - w == 7 * q + (x - w) % 7;
    assert w + (x - w) % 7 + 7 * n == x + 7 * (n - q);
  }

  /** Date order as the ISO strings compare: year, then month, then day. */
  predicate Earlier(a: Date, b: Date)
  {
    a.year < b.year || (a.year == b.year && (a.month < b.month || (a.month == b.month && a.day < b.day)))
  }

  /** Later years start after earlier years end. */
  lemma {:induction false} DaysBeforeYearGrows(y1: int, y2: int)
    requires 1 <= y1 < y2
    ensures DaysBeforeYear(y1) + DaysInYear(y1) <= DaysBeforeYear(y2)
    decreases y2 - y1
  {
    DaysBeforeYearStep(y1);
    if y1 + 1 < y2 {
      DaysBeforeYearGrows(y1 + 1, y2);
    }
  }

  /** Within a year, later months start after earlier months end. */
  lemma DaysBeforeMonthGrows(y: int, m1: int, m2: int)
    requires 1 <= m1 < m2 <= 12
    ensures DaysBeforeMonth(y, m1) + DaysInMonth(y, m1) <= DaysBeforeMonth(y, m2)
  {
  }

  /** The day number orders valid dates exactly as their ISO strings do. */
  lemma OrdinalOrder(a: Date, b: Date)
    requires Valid(a) && Valid(b)
    ensures Ordinal(a) < Ordinal(b) <==> Earlier(a, b)
    ensures Ordinal(a) == Ordinal(b) <==> a == b
  {
    if a.year != b.year {
      DayOfYearBounds(a);
      DayOfYearBounds(b);
      if a.year < b.year { DaysBeforeYearGrows(a.year, b.year); }
      else { DaysBeforeYearGrows(b.year, a.year); }
    } else if a.month != b.month {
      if a.month < b.month { DaysBeforeMonthGrows(a.year, a.month, b.month); }
      else { DaysBeforeMonthGrows(a.year, b.month, a.month); }
    }
  }

  /** `date.isoformat()`: `YYYY-MM-DD`. */
  function IsoDate(d: Date): (s: string)
    requires Valid(d) && d.year <= 9999
    ensures |s| == 10 && s[4] == '-' && s[7] == '-'
  {
    Digits(d.year, 4) + "-" + Digits(d.month, 2) + "-" + Digits(d.day, 2)
  }

  /** `date.fromisoformat(s)` for the extended form `YYYY-MM-DD`; anything
      else, or a date that does not exist, is a ValueError. */
  function ParseIsoDate(s: string): (r: Result<Date>)
    ensures r.Ok? ==> Valid(r.value) && r.value.year <= 9999
  {
    if |s| == 10 && s[4] == '-' && s[7] == '-'
       && AllDigits(s[..4]) && AllDigits(s[5..7]) && AllDigits(s[8..]) then
      var d := Date(DigitsValue(s[..4]), DigitsValue(s[5..7]), DigitsValue(s[8..]));
      assert DigitsValue(s[..4]) < 10000 by { DigitsValueBound(s[..4]); }
      if Valid(d) then Ok(d) else Err(ValueError)
    else Err(ValueError)
  }

  /** Formatting a date and parsing it back gives the date. */
  lemma IsoRoundTrip(d: Date)
    requires Valid(d) && d.year <= 9999
    ensures ParseIsoDate(IsoDate(d)) == Ok(d)
  {
    var s := IsoDate(d);
    assert s[..4] == Digits(d.year, 4);
    assert s[5..7] == Digits(d.month, 2);
    assert s[8..] == Digits(d.day, 2);
    DigitsValueOf(d.year, 4);
    DigitsValueOf(d.month, 2);
    DigitsValueOf(d.day, 2);
  }
}
