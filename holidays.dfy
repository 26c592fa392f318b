// Jamaican public holidays: the Easter computus, the n-th weekday of a
// month, the Sunday-substitution rule and business-day counting.

module Holidays {
  import opened Wrappers
  import opened Calendar

  /** Why a holiday carries a note. */
  datatype Note =
    | NoNote
    | ThirdMondayOfOctober
    | SubstituteFor(original: Date)
    | ShiftedFrom(original: Date)

  datatype Holiday = Holiday(date: Date, name: string, moveable: bool, note: Note)

  /** The note as the library renders it. */
  function NoteText(n: Note): (r: Option<string>)
    requires n.SubstituteFor? || n.ShiftedFrom? ==> Valid(n.original) && n.original.year <= 9999
    ensures r.None? <==> n.NoNote?
  {
    match n
    case NoNote => None
    case ThirdMondayOfOctober => Some("Third Monday of October")
    case SubstituteFor(o) => Some("Observed (substitute for " + IsoDate(o) + ")")
    case ShiftedFrom(o) => Some("Observed (shifted due to conflict on " + IsoDate(o) + ")")
  }

  // ---------------------------------------------------------------------
  // Easter and the n-th weekday
  // ---------------------------------------------------------------------

  /** Easter Sunday by the anonymous Gregorian computus, in integers only
      (Python's `//` and `%` agree with Dafny's for the positive divisors
      used here). */
  function EasterSunday(year: int): (d: Date)
    requires year >= 1
    ensures Valid(d) && d.year == year
    ensures (d.month == 3 && 22 <= d.day <= 31) || (d.month == 4 && 1 <= d.day <= 25)
  {
    var a := year % 19;
    var b := year / 100;
    var c := year % 100;
    var d := b / 4;
    var e := b % 4;
    var f := (b + 8) / 25;
    var g := (b - f + 1) / 3;
    var h := (19 * a + b - d - g + 15) % 30;
    var i := c / 4;
    var k := c % 4;
    var l := (32 + 2 * e + 2 * i - h - k) % 7;
    var m := (a + 11 * h + 22 * l) / 451;
    var month := (h + l - 7 * m + 114) / 31;
    var day := ((h + l - 7 * m + 114) % 31) + 1;
    Date(year, month, day)
  }

  /** Easter 2025 falls on Sunday 20 April. */
  lemma Easter2025()
    ensures EasterSunday(2025) == Date(2025, 4, 20)
    ensures Weekday(EasterSunday(2025)) == 6
  {
    Easter2025Date();
    April20Of2025IsSunday();
  }

  lemma Easter2025Date()
    ensures EasterSunday(2025) == Date(2025, 4, 20)
  {
    assert 2025 % 19 == 11 && 2025 / 100 == 20 && 2025 % 100 == 25;
    assert (19 * 11 + 20 - 5 - 6 + 15) % 30 == 23;
    assert (32 + 2 * 0 + 2 * 6 - 23 - 1) % 7 == 6;
    assert (11 + 11 * 23 + 22 * 6) / 451 == 0;
    assert (23 + 6 + 114) / 31 == 4 && (23 + 6 + 114) % 31 == 19;
  }

  lemma April20Of2025IsSunday()
    ensures Weekday(Date(2025, 4, 20)) == 6
  {
    assert DaysBeforeYear(2025) == 739251;
    assert Ordinal(Date(2025, 4, 20)) == 739361;
    Mod7IsMod(739361 + 6);
  }

  /** `_nth_weekday`: the `n`-th `weekday` (0 is Monday) of the month; a day
      that does not exist is a ValueError, as in `date(year, month, day)`. */
  function NthWeekday(year: int, month: int, weekday: int, n: int): (r: Result<Date>)
    ensures r.Ok? ==> Valid(r.value) && r.value.year == year && r.value.month == month
    ensures r.Ok? ==> Weekday(r.value) == weekday % 7
    ensures r.Ok? ==> 7 * (n - 1) + 1 <= r.value.day <= 7 * n
    ensures year >= 1 && 1 <= month <= 12 && 1 <= n <= 4 ==> r.Ok?
  {
    if year >= 1 && 1 <= month <= 12 then
      var first := Date(year, month, 1);
      var w := Weekday(first);
      var day := 1 + ((weekday - w) % 7) + (n - 1) * 7;
      NthDayBounds(w, weekday, n, day);
      if 1 <= day <= DaysInMonth(year, month) then
        WeekdayInMonth(year, month, day);
        ModShift(w, weekday, n - 1);
        Ok(Date(year, month, day))
      else Err(ValueError)
    else Err(ValueError)
  }

  /** The `n`-th occurrence falls in the `n`-th week of the month. */
  lemma NthDayBounds(w: int, weekday: int, n: int, day: int)
    requires day == 1 + ((weekday - w) % 7) + (n - 1) * 7
    ensures 7 * (n - 1) + 1 <= day <= 7 * n
  {
  }

  /** National Heroes Day: the third Monday of October. */
  function HeroesDay(year: int): (d: Date)
    requires year >= 1
    ensures Valid(d) && d.year == year && d.month == 10
    ensures Weekday(d) == 0 && 15 <= d.day <= 21
  {
    NthWeekday(year, 10, 0, 3).value
  }

  // ---------------------------------------------------------------------
  // The holiday lists
  // ---------------------------------------------------------------------

  /** `_fixed_holidays`. */
  function FixedHolidays(year: int): (hs: seq<Holiday>)
    requires year >= 1
    ensures |hs| == 6 && AllValid(hs)
    ensures forall i :: 0 <= i < 6 ==> hs[i].date.year == year && !hs[i].moveable
  {
    seq(6, i requires 0 <= i < 6 => FixedHoliday(year, i))
  }

  /** The `i`-th fixed holiday of `year`. */
  function FixedHoliday(year: int, i: nat): (h: Holiday)
    requires year >= 1 && i < 6
    ensures Valid(h.date) && h.date.year == year && !h.moveable && h.note == NoNote
  {
    match i
    case 0 => Holiday(Date(year, 1, 1), "New Year's Day", false, NoNote)
    case 1 => Holiday(Date(year, 5, 23), "Labour Day", false, NoNote)
    case 2 => Holiday(Date(year, 8, 1), "Emancipation Day", false, NoNote)
    case 3 => Holiday(Date(year, 8, 6), "Independence Day", false, NoNote)
    case 4 => Holiday(Date(year, 12, 25), "Christmas Day", false, NoNote)
    case _ => Holiday(Date(year, 12, 26), "Boxing Day", false, NoNote)
  }

  /** `_moveable_holidays`. */
  function MoveableHolidays(year: int): (hs: seq<Holiday>)
    requires year >= 1
  {
    var easter := EasterSunday(year);
    assert Ordinal(easter) >= DaysBeforeYear(year) + 81;
    MoveableFrom(easter, HeroesDay(year))
  }

  /** The moveable holidays of the year with this Easter Sunday and this
      Heroes Day. */
  function MoveableFrom(easter: Date, heroes: Date): (hs: seq<Holiday>)
    requires Valid(easter) && Ordinal(easter) > 46 && Valid(heroes)
    ensures |hs| == 4
  {
    seq(4, i requires 0 <= i < 4 => MoveableHoliday(easter, heroes, i))
  }

  /** The `i`-th moveable holiday: Ash Wednesday 46 days before Easter,
      Good Friday 2 days before, Easter Monday the day after, then Heroes
      Day. */
  function MoveableHoliday(easter: Date, heroes: Date, i: nat): (h: Holiday)
    requires Valid(easter) && Ordinal(easter) > 46 && Valid(heroes) && i < 4
    ensures Valid(h.date) && h.moveable
    ensures i < 3 ==> Ordinal(h.date) >= Ordinal(easter) - 46
    ensures i == 3 ==> h.date == heroes
  {
    match i
    case 0 => Holiday(AddDays(easter, -46), "Ash Wednesday", true, NoNote)
    case 1 => Holiday(AddDays(easter, -2), "Good Friday", true, NoNote)
    case 2 => Holiday(AddDays(easter, 1), "Easter Monday", true, NoNote)
    case _ => Holiday(heroes, "National Heroes Day", true, ThirdMondayOfOctober)
  }

  /** Every moveable holiday is a real date after `bound` when Ash
      Wednesday and Heroes Day are. */
  lemma MoveableFromFacts(easter: Date, heroes: Date, bound: int)
    requires Valid(easter) && Ordinal(easter) > 46 && Valid(heroes)
    requires Ordinal(easter) - 46 > bound && Ordinal(heroes) > bound
    ensures AllValid(MoveableFrom(easter, heroes))
    ensures forall i :: 0 <= i < 4 ==> MoveableFrom(easter, heroes)[i].moveable
    ensures forall i :: 0 <= i < 4 ==> Ordinal(MoveableFrom(easter, heroes)[i].date) > bound
  {
    var hs := MoveableFrom(easter, heroes);
    forall i | 0 <= i < 4 ensures Valid(hs[i].date) && hs[i].moveable && Ordinal(hs[i].date) > bound {
      assert hs[i] == MoveableHoliday(easter, heroes, i);
    }
  }

  /** The moveable holidays are real dates of the year or later. */
  lemma MoveableHolidaysFacts(year: int)
    requires year >= 1
    ensures |MoveableHolidays(year)| == 4 && AllValid(MoveableHolidays(year))
    ensures forall i :: 0 <= i < 4 ==> MoveableHolidays(year)[i].moveable
    ensures forall i :: 0 <= i < 4 ==> Ordinal(MoveableHolidays(year)[i].date) > DaysBeforeYear(year)
  {
    var easter := EasterSunday(year);
    assert Ordinal(easter) >= DaysBeforeYear(year) + 81;
    MoveableFromFacts(easter, HeroesDay(year), DaysBeforeYear(year));
  }

  predicate AllValid(hs: seq<Holiday>)
  {
    forall i :: 0 <= i < |hs| ==> Valid(hs[i].date)
  }

  /** The dates of a list of holidays. */
  function DatesOf(hs: seq<Holiday>): set<Date>
  {
    set h | h in hs :: h.date
  }

  // ---------------------------------------------------------------------
  // Sorting by date (Python's stable `sorted` on the ISO date string)
  // ---------------------------------------------------------------------

  predicate SortedByDate(hs: seq<Holiday>)
  {
    forall i, j :: 0 <= i < j < |hs| ==> !Earlier(hs[j].date, hs[i].date)
  }

  /** Insert `h` before the first holiday not earlier than it. */
  function Insert(h: Holiday, hs: seq<Holiday>): seq<Holiday>
  {
    if hs == [] then [h]
    else if Earlier(hs[0].date, h.date) then [hs[0]] + Insert(h, hs[1..])
    else [h] + hs
  }

  /** Insertion adds exactly `h`. */
  lemma {:induction false} InsertMultiset(h: Holiday, hs: seq<Holiday>)
    ensures multiset(Insert(h, hs)) == multiset(hs) + multiset{h}
  {
    if hs != [] && Earlier(hs[0].date, h.date) {
      InsertMultiset(h, hs[1..]);
      assert hs == [hs[0]] + hs[1..];
    }
  }

  /** Insertion keeps the list sorted. */
  lemma {:induction false} InsertSorted(h: Holiday, hs: seq<Holiday>)
    requires SortedByDate(hs)
    ensures SortedByDate(Insert(h, hs))
  {
    if hs != [] && Earlier(hs[0].date, h.date) {
      InsertSorted(h, hs[1..]);
      InsertMultiset(h, hs[1..]);
      var t := Insert(h, hs[1..]);
      forall j | 0 <= j < |t| ensures !Earlier(t[j].date, hs[0].date) {
        assert t[j] in multiset(t);
        if t[j] != h {
          assert t[j] in multiset(hs[1..]);
          var k :| 0 <= k < |hs[1..]| && hs[1..][k] == t[j];
          assert hs[k + 1] == t[j];
        }
      }
    }
  }

  /** `sorted(hs, key=lambda h: h.date)`, stable. */
  function SortByDate(hs: seq<Holiday>): seq<Holiday>
  {
    if hs == [] then [] else Insert(hs[0], SortByDate(hs[1..]))
  }

  /** Sorting gives a sorted permutation. */
  lemma SortByDateFacts(hs: seq<Holiday>)
    ensures SortedByDate(SortByDate(hs))
    ensures multiset(SortByDate(hs)) == multiset(hs)
    ensures |SortByDate(hs)| == |hs|
  {
    SortByDateSorted(hs);
    SortByDatePermutes(hs);
    assert |multiset(SortByDate(hs))| == |multiset(hs)|;
  }

  lemma {:induction false} SortByDateSorted(hs: seq<Holiday>)
    ensures SortedByDate(SortByDate(hs))
  {
    if hs != [] {
      SortByDateSorted(hs[1..]);
      InsertSorted(hs[0], SortByDate(hs[1..]));
    }
  }

  lemma {:induction false} SortByDatePermutes(hs: seq<Holiday>)
    ensures multiset(SortByDate(hs)) == multiset(hs)
  {
    if hs != [] {
      SortByDatePermutes(hs[1..]);
      InsertMultiset(hs[0], SortByDate(hs[1..]));
      assert hs == [hs[0]] + hs[1..];
    }
  }

  // ---------------------------------------------------------------------
  // Sunday substitution
  // ---------------------------------------------------------------------

  /** The dates of `observed` on or after `d`. */
  function TakenFrom(observed: set<Date>, d: Date): set<Date>
    requires Valid(d)
  {
    set x | x in observed && Valid(x) && Ordinal(x) >= Ordinal(d)
  }

  /** Moving past a taken day shrinks the taken days still ahead. */
  lemma TakenFromShrinks(observed: set<Date>, d: Date)
    requires Valid(d) && d in observed
    ensures |TakenFrom(observed, NextDay(d))| < |TakenFrom(observed, d)|
  {
    var a := TakenFrom(observed, NextDay(d));
    var b := TakenFrom(observed, d);
    assert a <= b - {d};
    SubsetCard(a, b - {d});
  }

  lemma {:induction false} SubsetCard<T>(a: set<T>, b: set<T>)
    requires a <= b
    ensures |a| <= |b|
  {
    if a != {} {
      var x :| x in a;
      SubsetCard(a - {x}, b - {x});
    }
  }

  /** The first day on or after `d` that is not in `observed`. */
  function FirstFree(observed: set<Date>, d: Date): (r: Date)
    requires Valid(d)
    ensures Valid(r) && r !in observed && Ordinal(r) >= Ordinal(d)
    decreases |TakenFrom(observed, d)|
  {
    if d !in observed then d
    else
      TakenFromShrinks(observed, d);
      FirstFree(observed, NextDay(d))
  }

  /** Every day skipped on the way to the first free day is taken. */
  lemma {:induction false} FirstFreeSkipsTaken(observed: set<Date>, d: Date)
    requires Valid(d)
    ensures forall k :: 0 <= k < Ordinal(FirstFree(observed, d)) - Ordinal(d) ==> AddDays(d, k) in observed
    decreases |TakenFrom(observed, d)|
  {
    if d in observed {
      TakenFromShrinks(observed, d);
      FirstFreeSkipsTaken(observed, NextDay(d));
      forall k | 1 <= k < Ordinal(FirstFree(observed, d)) - Ordinal(d)
        ensures AddDays(d, k) in observed
      {
        assert AddDays(d, k) == AddDays(NextDay(d), k - 1);
      }
    }
  }

  /** The inner `while` loop: step forward past taken days. */
  method FindFree(observed: set<Date>, start: Date) returns (d: Date)
    requires Valid(start)
    ensures d == FirstFree(observed, start)
  {
    d := start;
    while d in observed
      invariant Valid(d) && FirstFree(observed, d) == FirstFree(observed, start)
      decreases |TakenFrom(observed, d)|
    {
      TakenFromShrinks(observed, d);
      d := NextDay(d);
    }
  }

  /** Where a holiday is observed given the days already taken: a Sunday
      moves to the next free day, a taken day moves to the next free day,
      any other day stays. */
  function Observe(h: Holiday, observed: set<Date>): Holiday
    requires Valid(h.date)
  {
    if Weekday(h.date) == 6 then
      Holiday(FirstFree(observed, NextDay(h.date)), h.name, h.moveable, SubstituteFor(h.date))
    else if h.date in observed then
      Holiday(FirstFree(observed, NextDay(h.date)), h.name, h.moveable, ShiftedFrom(h.date))
    else h
  }

  /** Observing a holiday keeps its name and flag, picks a free day, and
      moves it strictly later exactly when it is a Sunday or taken. */
  lemma ObserveFacts(h: Holiday, observed: set<Date>)
    requires Valid(h.date)
    ensures var o := Observe(h, observed);
      && o.name == h.name && o.moveable == h.moveable && Valid(o.date) && o.date !in observed
      && (Weekday(h.date) != 6 && h.date !in observed ==> o == h)
      && (Weekday(h.date) == 6 || h.date in observed ==> Ordinal(o.date) > Ordinal(h.date))
  {
  }

  /** A pass over `hs` in order: each holiday goes through `step` given the
      days taken before it, and its new date is taken from then on. */
  function Pass(hs: seq<Holiday>, observed: set<Date>, step: (Holiday, set<Date>) --> Holiday): (r: seq<Holiday>)
    requires AllValid(hs) && Total(step)
    ensures |r| == |hs|
  {
    if hs == [] then []
    else
      var o := step(hs[0], observed);
      [o] + Pass(hs[1..], observed + {o.date}, step)
  }

  /** `step` is defined on every holiday with a real date. */
  ghost predicate Total(step: (Holiday, set<Date>) --> Holiday)
  {
    forall h: Holiday, observed: set<Date> :: Valid(h.date) ==> step.requires(h, observed)
  }

  /** `step` always picks a real day that is not yet taken. */
  ghost predicate Fresh(step: (Holiday, set<Date>) --> Holiday)
    requires Total(step)
  {
    forall h: Holiday, observed: set<Date> :: Valid(h.date) ==>
      Valid(step(h, observed).date) && step(h, observed).date !in observed
  }

  /** The `i`-th holiday of a pass is `step` applied to the `i`-th input,
      given the days already taken and the dates the pass chose before it. */
  lemma {:induction false} PassAt(hs: seq<Holiday>, observed: set<Date>, step: (Holiday, set<Date>) --> Holiday, i: nat)
    requires AllValid(hs) && Total(step) && i < |hs|
    ensures Pass(hs, observed, step)[i] == step(hs[i], observed + DatesOf(Pass(hs, observed, step)[..i]))
  {
    var r := Pass(hs, observed, step);
    var o := step(hs[0], observed);
    if i == 0 {
      assert r[..0] == [];
      assert DatesOf(r[..0]) == {};
      assert observed + {} == observed;
    } else {
      var t := Pass(hs[1..], observed + {o.date}, step);
      assert r == [o] + t;
      PassAt(hs[1..], observed + {o.date}, step, i - 1);
      assert r[..i] == [o] + t[..i - 1];
      assert DatesOf(r[..i]) == {o.date} + DatesOf(t[..i - 1]);
      assert hs[1..][i - 1] == hs[i] && r[i] == t[i - 1];
      assert observed + DatesOf(r[..i]) == (observed + {o.date}) + DatesOf(t[..i - 1]);
    }
  }

  /** With a fresh step, a pass never uses a taken day, nor the same day twice. */
  lemma PassFresh(hs: seq<Holiday>, observed: set<Date>, step: (Holiday, set<Date>) --> Holiday)
    requires AllValid(hs) && Total(step) && Fresh(step)
    ensures var r := Pass(hs, observed, step);
      && AllValid(r)
      && (forall i :: 0 <= i < |r| ==> r[i].date !in observed)
      && (forall i, j :: 0 <= i < j < |r| ==> r[i].date != r[j].date)
  {
    var r := Pass(hs, observed, step);
    forall j | 0 <= j < |r|
      ensures Valid(r[j].date) && r[j].date !in observed
      ensures forall i :: 0 <= i < j ==> r[i].date != r[j].date
    {
      PassAt(hs, observed, step, j);
      forall i | 0 <= i < j ensures r[i].date != r[j].date {
        assert r[i] in r[..j];
      }
    }
  }

  /** The substitution pass over holidays in date order. */
  function SubstituteFrom(hs: seq<Holiday>, observed: set<Date>): (r: seq<Holiday>)
    requires AllValid(hs)
    ensures |r| == |hs|
  {
    Pass(hs, observed, Observe)
  }

  /** The pass keeps every holiday's name and flag, never uses a taken day
      nor the same day twice; a holiday on a weekday that is still free
      stays where it is, and any other holiday moves strictly later. */
  lemma SubstituteFacts(hs: seq<Holiday>, observed: set<Date>, i: nat)
    requires AllValid(hs) && i < |hs|
    ensures var r := SubstituteFrom(hs, observed);
      var taken := observed + DatesOf(r[..i]);
      && Valid(r[i].date) && r[i].name == hs[i].name && r[i].moveable == hs[i].moveable
      && r[i].date !in taken
      && (Weekday(hs[i].date) != 6 && hs[i].date !in taken ==> r[i] == hs[i])
      && (Weekday(hs[i].date) == 6 || hs[i].date in taken ==> Ordinal(r[i].date) > Ordinal(hs[i].date))
  {
    var r := SubstituteFrom(hs, observed);
    PassAt(hs, observed, Observe, i);
    ObserveFacts(hs[i], observed + DatesOf(r[..i]));
  }

  /** The pass yields pairwise distinct, real dates outside `observed`. */
  lemma SubstituteDistinct(hs: seq<Holiday>, observed: set<Date>)
    requires AllValid(hs)
    ensures var r := SubstituteFrom(hs, observed);
      && AllValid(r)
      && (forall i :: 0 <= i < |r| ==> r[i].date !in observed)
      && (forall i, j :: 0 <= i < j < |r| ==> r[i].date != r[j].date)
  {
    forall h: Holiday, o: set<Date> | Valid(h.date)
      ensures Valid(Observe(h, o).date) && Observe(h, o).date !in o
    {
      ObserveFacts(h, o);
    }
    PassFresh(hs, observed, Observe);
  }

  /** `_apply_sunday_substitution` as a function: sort, then substitute. */
  function SundaySubstitution(hs: seq<Holiday>): seq<Holiday>
    requires AllValid(hs)
  {
    SortValid(hs);
    SubstituteFrom(SortByDate(hs), {})
  }

  /** Sorting keeps every date valid. */
  lemma SortValid(hs: seq<Holiday>)
    requires AllValid(hs)
    ensures AllValid(SortByDate(hs))
  {
    SortByDateFacts(hs);
    forall i | 0 <= i < |SortByDate(hs)| ensures Valid(SortByDate(hs)[i].date) {
      assert SortByDate(hs)[i] in multiset(hs);
    }
  }

  /** The body of the substitution loop for one holiday. */
  method ObserveOne(h: Holiday, observed: set<Date>) returns (o: Holiday)
    requires Valid(h.date)
    ensures o == Observe(h, observed)
  {
    if Weekday(h.date) == 6 {
      var target := FindFree(observed, NextDay(h.date));
      o := Holiday(target, h.name, h.moveable, SubstituteFor(h.date));
    } else if h.date in observed {
      var target := FindFree(observed, NextDay(h.date));
      o := Holiday(target, h.name, h.moveable, ShiftedFrom(h.date));
    } else {
      o := h;
    }
  }

  /** `_apply_sunday_substitution`: the loop over the sorted holidays, with
      the set of observed dates. */
  method ApplySundaySubstitution(holidays: seq<Holiday>) returns (result: seq<Holiday>)
    requires AllValid(holidays)
    ensures result == SundaySubstitution(holidays)
  {
    SortValid(holidays);
    var sorted := SortByDate(holidays);
    var observed: set<Date> := {};
    result := [];
    var i := 0;
    while i < |sorted|
      invariant 0 <= i <= |sorted|
      invariant result + Pass(sorted[i..], observed, Observe) == Pass(sorted, {}, Observe)
    {
      var h := sorted[i];
      var o := ObserveOne(h, observed);
      assert sorted[i..] == [h] + sorted[i + 1..];
      result := result + [o];
      observed := observed + {o.date};
      i := i + 1;
    }
  }

  /** What the substitution pass promises: as many holidays as it was given,
      on pairwise distinct real days; the `i`-th is the `i`-th holiday in
      date order, under the same name and flag, on that day or later. */
  lemma SundaySubstitutionFacts(hs: seq<Holiday>)
    requires AllValid(hs)
    ensures var r := SundaySubstitution(hs);
      var s := SortByDate(hs);
      && |r| == |hs| && multiset(s) == multiset(hs) && AllValid(r) && AllValid(s)
      && (forall i, j :: 0 <= i < j < |r| ==> r[i].date != r[j].date)
      && (forall i :: 0 <= i < |r| ==>
            r[i].name == s[i].name && r[i].moveable == s[i].moveable
            && Ordinal(r[i].date) >= Ordinal(s[i].date))
  {
    SortByDateFacts(hs);
    SortValid(hs);
    var s := SortByDate(hs);
    SubstituteDistinct(s, {});
    forall i | 0 <= i < |s|
      ensures var r := SubstituteFrom(s, {});
        r[i].name == s[i].name && r[i].moveable == s[i].moveable
        && Ordinal(r[i].date) >= Ordinal(s[i].date)
    {
      SubstituteFacts(s, {}, i);
    }
  }

  // ---------------------------------------------------------------------
  // Public API
  // ---------------------------------------------------------------------

  /** `get_holidays`: the substituted fixed holidays and the moveable ones,
      sorted by date. */
  function GetHolidays(year: int): seq<Holiday>
    requires year >= 1
  {
    SortByDate(SundaySubstitution(FixedHolidays(year)) + MoveableHolidays(year))
  }

  /** After substitution the fixed holidays are six real, non-moveable days
      of the year or later. */
  lemma FixedObservedFacts(year: int)
    requires year >= 1
    ensures var sub := SundaySubstitution(FixedHolidays(year));
      && |sub| == 6 && AllValid(sub)
      && (forall i :: 0 <= i < 6 ==> !sub[i].moveable && Ordinal(sub[i].date) > DaysBeforeYear(year))
  {
    var fixed := FixedHolidays(year);
    forall i | 0 <= i < 6 ensures Ordinal(fixed[i].date) > DaysBeforeYear(year) {
      assert fixed[i] == FixedHoliday(year, i);
    }
    SundaySubstitutionFacts(fixed);
    var s := SortByDate(fixed);
    forall i | 0 <= i < 6
      ensures !s[i].moveable && Ordinal(s[i].date) > DaysBeforeYear(year)
    {
      assert s[i] in multiset(fixed);
    }
  }

  /** Sorting the two lists together: every holiday kept, in date order,
      real days after `bound`, and the moveable ones counted from both. */
  lemma AssembleFacts(sub: seq<Holiday>, mv: seq<Holiday>, bound: int)
    requires AllValid(sub) && AllValid(mv)
    requires forall i :: 0 <= i < |sub| ==> Ordinal(sub[i].date) > bound
    requires forall i :: 0 <= i < |mv| ==> Ordinal(mv[i].date) > bound
    ensures var r := SortByDate(sub + mv);
      && |r| == |sub| + |mv| && SortedByDate(r) && AllValid(r)
      && multiset(r) == multiset(sub) + multiset(mv)
      && (forall i :: 0 <= i < |r| ==> Ordinal(r[i].date) > bound)
      && Moveables(r) == Moveables(sub) + Moveables(mv)
  {
    var all := sub + mv;
    assert multiset(all) == multiset(sub) + multiset(mv);
    SortByDateFacts(all);
    var r := SortByDate(all);
    forall i | 0 <= i < |r| ensures Valid(r[i].date) && Ordinal(r[i].date) > bound {
      assert r[i] in multiset(all);
      var k :| 0 <= k < |all| && all[k] == r[i];
      if k >= |sub| { assert mv[k - |sub|] == r[i]; }
    }
    MoveablesPermutation(r, all);
    MoveablesConcat(sub, mv);
  }

  /** `get_holidays` gives ten holidays in date order, six fixed ones after
      substitution and four moveable ones, all on real days of the year or
      later. */
  lemma GetHolidaysFacts(year: int)
    requires year >= 1
    ensures var r := GetHolidays(year);
      && |r| == 10 && SortedByDate(r) && AllValid(r)
      && (forall i :: 0 <= i < |r| ==> Ordinal(r[i].date) > DaysBeforeYear(year))
      && Moveables(r) == 4
  {
    var sub := SundaySubstitution(FixedHolidays(year));
    var mv := MoveableHolidays(year);
    FixedObservedFacts(year);
    MoveableHolidaysFacts(year);
    AssembleFacts(sub, mv, DaysBeforeYear(year));
    MoveablesNone(sub);
    MoveablesAll(mv);
  }

  /** How many of `hs` are moveable. */
  function Moveables(hs: seq<Holiday>): nat
  {
    if hs == [] then 0 else (if hs[0].moveable then 1 else 0) + Moveables(hs[1..])
  }

  lemma {:induction false} MoveablesConcat(a: seq<Holiday>, b: seq<Holiday>)
    ensures Moveables(a + b) == Moveables(a) + Moveables(b)
  {
    if a == [] {
      assert a + b == b;
    } else {
      assert (a + b)[1..] == a[1..] + b;
      MoveablesConcat(a[1..], b);
    }
  }

  lemma {:induction false} MoveablesAll(hs: seq<Holiday>)
    requires forall i :: 0 <= i < |hs| ==> hs[i].moveable
    ensures Moveables(hs) == |hs|
  {
    if hs != [] {
      MoveablesAll(hs[1..]);
    }
  }

  lemma {:induction false} MoveablesNone(hs: seq<Holiday>)
    requires forall i :: 0 <= i < |hs| ==> !hs[i].moveable
    ensures Moveables(hs) == 0
  {
    if hs != [] {
      MoveablesNone(hs[1..]);
    }
  }

  /** The count depends only on which holidays there are. */
  lemma {:induction false} MoveablesPermutation(a: seq<Holiday>, b: seq<Holiday>)
    requires multiset(a) == multiset(b)
    ensures Moveables(a) == Moveables(b)
    decreases |a|
  {
    if a != [] {
      assert a[0] in multiset(b);
      var k :| 0 <= k < |b| && b[k] == a[0];
      var l, m, r := b[..k], [b[k]], b[k + 1..];
      var b' := l + r;
      assert b == l + m + r;
      RemoveAtMultiset(l, m, r);
      RemoveAtCount(l, m, r);
      assert multiset(a[1..]) == multiset(b') by {
        assert a == [a[0]] + a[1..];
      }
      MoveablesPermutation(a[1..], b');
    }
  }

  /** Taking out one element takes it out of the multiset. */
  lemma RemoveAtMultiset(l: seq<Holiday>, m: seq<Holiday>, r: seq<Holiday>)
    requires |m| == 1
    ensures multiset(l + r) == multiset(l + m + r) - multiset{m[0]}
  {
    assert multiset(l + m + r) == multiset(l) + multiset(m) + multiset(r);
    assert multiset(m) == multiset{m[0]};
  }

  /** Taking out one element takes it out of the count. */
  lemma RemoveAtCount(l: seq<Holiday>, m: seq<Holiday>, r: seq<Holiday>)
    requires |m| == 1
    ensures Moveables(l + m + r) == Moveables(l + r) + (if m[0].moveable then 1 else 0)
  {
    assert Moveables(m) == if m[0].moveable then 1 else 0 by {
      assert m[1..] == [];
    }
    MoveablesConcat(l + m, r);
    MoveablesConcat(l, m);
    MoveablesConcat(l, r);
  }

  /** Some holiday of `hs` falls on `d`. */
  predicate HolidayOn(hs: seq<Holiday>, d: Date)
  {
    exists i :: 0 <= i < |hs| && hs[i].date == d
  }

  /** `is_public_holiday`: `d` is one of its year's holidays. */
  predicate IsPublicHoliday(d: Date)
    requires Valid(d)
  {
    HolidayOn(GetHolidays(d.year), d)
  }

  /** `is_business_day`: a weekday (Monday to Friday) that is not a public
      holiday. */
  predicate IsBusinessDay(d: Date)
    requires Valid(d)
  {
    Weekday(d) < 5 && !IsPublicHoliday(d)
  }

  /** Saturdays, Sundays and public holidays are never business days. */
  lemma NotBusinessDay(d: Date)
    requires Valid(d)
    ensures Weekday(d) == 5 ==> !IsBusinessDay(d)
    ensures Weekday(d) == 6 ==> !IsBusinessDay(d)
    ensures IsPublicHoliday(d) ==> !IsBusinessDay(d)
  {
  }

  /** The number of business days in `[from, to)`. */
  function WorkingDays(from: Date, to: Date): nat
    requires Valid(from) && Valid(to)
    decreases Ordinal(to) - Ordinal(from)
  {
    if Ordinal(from) < Ordinal(to) then
      (if IsBusinessDay(from) then 1 else 0) + WorkingDays(NextDay(from), to)
    else 0
  }

  /** No business days in an empty range, and at most one per day otherwise. */
  lemma {:induction false} WorkingDaysBounds(from: Date, to: Date)
    requires Valid(from) && Valid(to)
    ensures !Earlier(from, to) ==> WorkingDays(from, to) == 0
    ensures Earlier(from, to) ==> WorkingDays(from, to) <= Ordinal(to) - Ordinal(from)
    decreases Ordinal(to) - Ordinal(from)
  {
    OrdinalOrder(from, to);
    if Ordinal(from) < Ordinal(to) {
      WorkingDaysBounds(NextDay(from), to);
      OrdinalOrder(NextDay(from), to);
    }
  }

  /** `get_working_days`: walk from `from` up to (not including) `to`,
      counting business days. */
  method GetWorkingDays(from: Date, to: Date) returns (count: nat)
    requires Valid(from) && Valid(to)
    ensures count == WorkingDays(from, to)
  {
    count := 0;
    var current := from;
    OrdinalOrder(current, to);
    while Earlier(current, to)
      invariant Valid(current) && Ordinal(from) <= Ordinal(current)
      invariant Ordinal(current) <= Ordinal(to) || current == from
      invariant count + WorkingDays(current, to) == WorkingDays(from, to)
      decreases Ordinal(to) - Ordinal(current)
    {
      OrdinalOrder(current, to);
      if IsBusinessDay(current) {
        count := count + 1;
      }
      current := NextDay(current);
    }
    OrdinalOrder(current, to);
  }

  /** The first holiday of `hs` strictly after `d`. */
  function FirstAfter(hs: seq<Holiday>, d: Date): Option<Holiday>
  {
    if hs == [] then None
    else if Earlier(d, hs[0].date) then Some(hs[0])
    else FirstAfter(hs[1..], d)
  }

  /** The first holiday after `d` is the earliest-placed one that is after
      `d`; there is none only when no holiday is. */
  lemma {:induction false} FirstAfterFacts(hs: seq<Holiday>, d: Date)
    ensures var r := FirstAfter(hs, d);
      && (r.Some? ==> exists k :: 0 <= k < |hs| && hs[k] == r.value && Earlier(d, hs[k].date)
                        && forall i :: 0 <= i < k ==> !Earlier(d, hs[i].date))
      && (r.None? <==> forall i :: 0 <= i < |hs| ==> !Earlier(d, hs[i].date))
  {
    if hs != [] && !Earlier(d, hs[0].date) {
      FirstAfterFacts(hs[1..], d);
      var r := FirstAfter(hs, d);
      if r.Some? {
        var k :| 0 <= k < |hs[1..]| && hs[1..][k] == r.value && Earlier(d, hs[1..][k].date)
                        && forall i :: 0 <= i < k ==> !Earlier(d, hs[1..][i].date);
        assert hs[k + 1] == r.value;
        forall i | 0 <= i < k + 1 ensures !Earlier(d, hs[i].date) {
          if i > 0 { assert hs[i] == hs[1..][i - 1]; }
        }
      }
    }
  }

  /** `get_next_holiday`: the first holiday of the year after `from`, or
      else the first holiday of the next year. */
  function GetNextHoliday(from: Date): (r: Option<Holiday>)
    requires Valid(from)
    ensures r.Some? && Valid(r.value.date) && Ordinal(r.value.date) > Ordinal(from)
    ensures var current := GetHolidays(from.year);
      || (exists k :: 0 <= k < |current| && r.value == current[k] && Earlier(from, current[k].date)
            && forall i :: 0 <= i < k ==> !Earlier(from, current[i].date))
      || ((forall i :: 0 <= i < |current| ==> !Earlier(from, current[i].date))
            && r.value == GetHolidays(from.year + 1)[0])
    ensures var current := GetHolidays(from.year);
      forall i :: 0 <= i < |current| && Earlier(from, current[i].date) ==> !Earlier(current[i].date, r.value.date)
  {
    var current := GetHolidays(from.year);
    var next := GetHolidays(from.year + 1);
    HolidaysValid(from.year);
    NextYearAfter(from);
    NextAfterFacts(current, next, from);
    NextAfterSpec(current, next, from);
    NextAfter(current, next, from)
  }

  /** Over a date-ordered `current`: the answer is the first holiday of
      `current` after `from`, else the first of `next`, and no holiday of
      `current` after `from` comes before it. */
  lemma NextAfterSpec(current: seq<Holiday>, next: seq<Holiday>, from: Date)
    requires SortedByDate(current) && next != []
    ensures NextAfter(current, next, from).Some?
    ensures var r := NextAfter(current, next, from).value;
      || (exists k :: 0 <= k < |current| && r == current[k] && Earlier(from, current[k].date)
            && forall i :: 0 <= i < k ==> !Earlier(from, current[i].date))
      || ((forall i :: 0 <= i < |current| ==> !Earlier(from, current[i].date)) && r == next[0])
    ensures var r := NextAfter(current, next, from).value;
      forall i :: 0 <= i < |current| && Earlier(from, current[i].date) ==> !Earlier(current[i].date, r.date)
  {
    FirstAfterFacts(current, from);
    if FirstAfter(current, from).Some? {
      var k :| 0 <= k < |current| && current[k] == FirstAfter(current, from).value && Earlier(from, current[k].date)
               && forall i :: 0 <= i < k ==> !Earlier(from, current[i].date);
      assert forall i :: k < i < |current| ==> !Earlier(current[i].date, current[k].date);
    }
  }

  /** The first holiday of `current` after `from`, else the first of `next`. */
  function NextAfter(current: seq<Holiday>, next: seq<Holiday>, from: Date): Option<Holiday>
  {
    match FirstAfter(current, from)
    case Some(h) => Some(h)
    case None => if next == [] then None else Some(next[0])
  }

  /** When the following year's holidays all fall after `from`, the next
      holiday exists and falls strictly after `from`. */
  lemma NextAfterFacts(current: seq<Holiday>, next: seq<Holiday>, from: Date)
    requires Valid(from) && AllValid(current) && AllValid(next) && next != []
    requires forall i :: 0 <= i < |next| ==> Ordinal(next[i].date) > Ordinal(from)
    ensures NextAfter(current, next, from).Some?
    ensures Valid(NextAfter(current, next, from).value.date)
    ensures Ordinal(NextAfter(current, next, from).value.date) > Ordinal(from)
  {
    FirstAfterFacts(current, from);
    match FirstAfter(current, from)
    case Some(h) =>
      var i :| 0 <= i < |current| && current[i] == h && Earlier(from, current[i].date);
      OrdinalOrder(from, h.date);
    case None =>
  }

  lemma HolidaysValid(year: int)
    requires year >= 1
    ensures AllValid(GetHolidays(year)) && SortedByDate(GetHolidays(year))
  {
    GetHolidaysFacts(year);
  }

  /** Every holiday of the following year falls after `from`. */
  lemma NextYearAfter(from: Date)
    requires Valid(from)
    ensures var next := GetHolidays(from.year + 1);
      && next != [] && AllValid(next)
      && forall i :: 0 <= i < |next| ==> Ordinal(next[i].date) > Ordinal(from)
  {
    GetHolidaysFacts(from.year + 1);
    YearEndsBefore(from);
  }

  /** A date lies before the start of the following year. */
  lemma YearEndsBefore(d: Date)
    requires Valid(d)
    ensures Ordinal(d) <= DaysBeforeYear(d.year + 1)
  {
    DayOfYearBounds(d);
    DaysBeforeYearStep(d.year);
  }

  /** `get_easter_sunday`: Easter Sunday as `YYYY-MM-DD`. */
  function GetEasterSunday(year: int): (s: string)
    requires 1 <= year <= 9999
    ensures ParseIsoDate(s) == Ok(EasterSunday(year))
  {
    IsoRoundTrip(EasterSunday(year));
    IsoDate(EasterSunday(year))
  }
}
