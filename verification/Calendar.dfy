/**
 The grid of the date picker: the days of one month, filled up with the end of the month before and the beginning of the
 month after to whole weeks from Sunday to Saturday.
 */
module Calendar {

  // ---------- the Gregorian calendar ----------

  datatype Date = Date(year: int, month: int, day: int)

  predicate IsLeap(year: int) {
    year % 4 == 0 && (year % 100 != 0 || year % 400 == 0)
  }

  function DaysIn(year: int, month: int): (n: int)
    ensures 28 <= n <= 31
  {
    if month == 2 then (if IsLeap(year) then 29 else 28)
    else if month == 4 || month == 6 || month == 9 || month == 11 then 30
    else 31
  }

  predicate IsDate(d: Date) {
    1 <= d.month <= 12 && 1 <= d.day <= DaysIn(d.year, d.month)
  }

  /** The month before and the month after, by their first day. */
  function MonthBefore(d: Date): Date {
    if d.month == 1 then Date(d.year - 1, 12, 1) else Date(d.year, d.month - 1, 1)
  }

  function MonthAfter(d: Date): Date {
    if d.month == 12 then Date(d.year + 1, 1, 1) else Date(d.year, d.month + 1, 1)
  }

  function Tomorrow(d: Date): Date {
    if d.day < DaysIn(d.year, d.month) then d.(day := d.day + 1) else MonthAfter(d)
  }

  function Yesterday(d: Date): Date {
    if d.day > 1 then d.(day := d.day - 1)
    else var p := MonthBefore(d); p.(day := DaysIn(p.year, p.month))
  }

  /** Days of the year before a month. */
  function DaysBefore(year: int, month: int): int
    requires 1 <= month <= 12
  {
    var common := [0, 31, 59, 90, 120, 151, 181, 212, 243, 273, 304, 334];
    common[month - 1] + if month > 2 && IsLeap(year) then 1 else 0
  }

  function YearLength(year: int): int {
    if IsLeap(year) then 366 else 365
  }

  /** Days from the beginning of the year 1 to the beginning of a year, counted year by year in both directions. */
  function YearStart(year: int): int
    decreases if year >= 1 then year else 2 - year
  {
    if year == 1 then 0
    else if year > 1 then YearStart(year - 1) + YearLength(year - 1)
    else YearStart(year + 1) - YearLength(year)
  }

  /** The day 0001-01-01, a Monday, is number 1. */
  function DayNumber(d: Date): int
    requires IsDate(d)
  {
    YearStart(d.year) + DaysBefore(d.year, d.month) + d.day
  }

  /** Days from Sunday. */
  function Weekday(d: Date): (w: int)
    requires IsDate(d)
    ensures 0 <= w <= 6
  {
    DayNumber(d) % 7
  }

  lemma NextMonth(year: int, month: int)
    requires 1 <= month <= 12
    ensures DaysBefore(year, month) + DaysIn(year, month) == if month == 12 then YearLength(year) else DaysBefore(year, month + 1)
  {
  }

  lemma NextYear(year: int)
    ensures YearStart(year + 1) == YearStart(year) + YearLength(year)
  {
  }

  function First(d: Date): Date {
    d.(day := 1)
  }

  function Last(d: Date): Date {
    d.(day := DaysIn(d.year, d.month))
  }

  /** A month is as long as its number of days, also across the turn of a year. */
  lemma MonthNumbers(d: Date)
    requires IsDate(d)
    ensures IsDate(MonthAfter(d)) && DayNumber(MonthAfter(d)) == DayNumber(First(d)) + DaysIn(d.year, d.month)
  {
    NextMonth(d.year, d.month);
    if d.month == 12 {
      NextYear(d.year);
      assert DayNumber(MonthAfter(d)) == YearStart(d.year + 1) + 1;
    } else {
      assert DayNumber(MonthAfter(d)) == YearStart(d.year) + DaysBefore(d.year, d.month + 1) + 1;
    }
  }

  lemma MonthsInverse(d: Date)
    requires IsDate(d)
    ensures IsDate(MonthBefore(d)) && MonthAfter(MonthBefore(d)) == First(d) == MonthBefore(MonthAfter(d))
  {
  }

  /** Tomorrow is the next number, across months, years and leap days, and yesterday the one before. */
  lemma TomorrowNumber(d: Date)
    requires IsDate(d)
    ensures IsDate(Tomorrow(d)) && DayNumber(Tomorrow(d)) == DayNumber(d) + 1
    ensures IsDate(Yesterday(d)) && Tomorrow(Yesterday(d)) == d && Yesterday(Tomorrow(d)) == d
  {
    MonthNumbers(d);
    MonthsInverse(d);
  }

  // ---------- day numbers and weekdays in closed form ----------

  lemma Fourths(n: int)
    ensures n / 4 == (n - 1) / 4 + if n % 4 == 0 then 1 else 0
  {
  }

  lemma Hundredths(n: int)
    ensures n / 100 == (n - 1) / 100 + if n % 100 == 0 then 1 else 0
  {
  }

  lemma FourHundredths(n: int)
    ensures n / 400 == (n - 1) / 400 + if n % 400 == 0 then 1 else 0
  {
  }

  lemma FourDivides(k: int)
    ensures 4 * k % 4 == 0
  {
  }

  lemma HundredDivides(k: int)
    ensures 100 * k % 100 == 0
  {
  }

  lemma Divides(n: int)
    ensures n % 400 == 0 ==> n % 100 == 0
    ensures n % 100 == 0 ==> n % 4 == 0
  {
    HundredDivides(4 * (n / 400));
    FourDivides(25 * (n / 100));
  }

  /** Leap years up to a year; negative for years before the first. */
  function Leaps(year: int): int {
    year / 4 - year / 100 + year / 400
  }

  lemma LeapsStep(year: int)
    ensures Leaps(year) == Leaps(year - 1) + if IsLeap(year) then 1 else 0
  {
    Fourths(year);
    Hundredths(year);
    FourHundredths(year);
    Divides(year);
  }

  /** The sum over the years is one formula, before the year 1 as well. */
  lemma {:induction false} YearStartClosed(year: int)
    ensures YearStart(year) == 365 * (year - 1) + (year - 1) / 4 - (year - 1) / 100 + (year - 1) / 400
    decreases if year >= 1 then year else 2 - year
  {
    if year > 1 {
      YearStartClosed(year - 1);
      LeapsStep(year - 1);
    } else if year < 1 {
      YearStartClosed(year + 1);
      LeapsStep(year);
    }
  }

  lemma Cycles(n: int)
    ensures (n + 400) / 4 == n / 4 + 100 && (n + 400) / 100 == n / 100 + 4 && (n + 400) / 400 == n / 400 + 1
  {
  }

  /** The calendar repeats after 400 years, which are 146097 days. */
  lemma FourCenturies(year: int)
    ensures YearStart(year + 400) == YearStart(year) + 146097
  {
    YearStartClosed(year);
    YearStartClosed(year + 400);
    Cycles(year - 1);
  }

  lemma DayNumberClosed(d: Date)
    requires IsDate(d)
    ensures DayNumber(d) == 365 * (d.year - 1) + Leaps(d.year - 1) + DaysBefore(d.year, d.month) + d.day
  {
    YearStartClosed(d.year);
  }

  lemma SameRemainder(n: int, m: int, weeks: int)
    requires n == m + 7 * weeks
    ensures n % 7 == m % 7
  {
  }

  /**
   The weekday of every date by the formula of Sakamoto, which counts January and February to the year before and never
   asks whether a year is a leap year.
   */
  lemma WeekdayClosed(d: Date)
    requires IsDate(d)
    ensures var y := if d.month < 3 then d.year - 1 else d.year;
            var shift := [0, 3, 2, 5, 0, 3, 5, 1, 4, 6, 2, 4];
            Weekday(d) == (y + y / 4 - y / 100 + y / 400 + shift[d.month - 1] + d.day) % 7
  {
    var y := if d.month < 3 then d.year - 1 else d.year;
    var shift := [0, 3, 2, 5, 0, 3, 5, 1, 4, 6, 2, 4];
    var weeks := [0, 4, 8, 12, 17, 21, 25, 30, 34, 38, 43, 47];
    DayNumberClosed(d);
    LeapsStep(d.year);
    SameRemainder(DayNumber(d), y + Leaps(y) + shift[d.month - 1] + d.day, 52 * (d.year - 1) + weeks[d.month - 1]);
  }

  lemma NextRemainder(n: int)
    ensures (n + 1) % 7 == (n % 7 + 1) % 7
  {
  }

  /** The weekdays follow one another without a gap. */
  lemma WeekdaysRun(d: Date)
    requires IsDate(d)
    ensures IsDate(Tomorrow(d)) && Weekday(Tomorrow(d)) == (Weekday(d) + 1) % 7
  {
    TomorrowNumber(d);
    NextRemainder(DayNumber(d));
  }

  /** The first of January 1970 was a Thursday. */
  lemma EpochIsThursday(d: Date)
    requires d == Date(1970, 1, 1)
    ensures IsDate(d) && Weekday(d) == 4
  {
    DayNumberClosed(d);
  }

  // ---------- the grid in closed form ----------

  datatype Item = Previous(date: Date) | Current(date: Date) | Next(date: Date)

  /** The grid cell `i` if the month is preceded by `lead` cells. */
  function Cell(d: Date, lead: int, i: int): Item {
    var before, after, n := MonthBefore(d), MonthAfter(d), DaysIn(d.year, d.month);
    if i < lead then Previous(before.(day := DaysIn(before.year, before.month) - lead + 1 + i))
    else if i < lead + n then Current(d.(day := i - lead + 1))
    else Next(after.(day := i - lead - n + 1))
  }

  /** A cell with at most a week before and after the month. */
  predicate IsCell(d: Date, lead: int, i: int) {
    IsDate(d) && 0 <= lead <= 6 && 0 <= i < lead + DaysIn(d.year, d.month) + 6
  }

  lemma CellNumber(d: Date, lead: int, i: int)
    requires IsCell(d, lead, i)
    ensures IsDate(Cell(d, lead, i).date) && DayNumber(Cell(d, lead, i).date) == DayNumber(First(d)) - lead + i
  {
    MonthsInverse(d);
    MonthNumbers(d);
    MonthNumbers(MonthBefore(d));
  }

  /** Neighbours in the grid are neighbours in the calendar. */
  lemma CellNeighbours(d: Date, lead: int, i: int)
    requires IsCell(d, lead, i)
    ensures i > 0 ==> Yesterday(Cell(d, lead, i).date) == Cell(d, lead, i - 1).date
    ensures IsCell(d, lead, i + 1) ==> Tomorrow(Cell(d, lead, i).date) == Cell(d, lead, i + 1).date
    ensures i == 0 ==> Yesterday(Cell(d, lead, i).date).month != d.month
    ensures Tomorrow(Cell(d, lead, i).date).month == d.month <==> lead - 1 <= i < lead + DaysIn(d.year, d.month) - 1
  {
  }

  function Lead(d: Date): int
    requires IsDate(d)
  {
    Weekday(First(d))
  }

  function Length(d: Date): int
    requires IsDate(d)
  {
    Weekday(First(d)) + DaysIn(d.year, d.month) + 6 - Weekday(Last(d))
  }

  ghost predicate IsGrid(d: Date, dates: seq<Item>)
    requires IsDate(d)
  {
    |dates| == Length(d) && forall i | 0 <= i < |dates| :: dates[i] == Cell(d, Lead(d), i)
  }

  // ---------- the loops ----------

  /** One round of the first loop: the day before, and whether the grid is complete on this side. */
  method StepBack(shown: Date, current: Date, counting: bool, weekday: int, ghost lead: int, ghost i: int)
    returns (date: Date, item: Item, stop: bool, left: int)
    requires IsCell(shown, lead, i) && i < lead + shown.day && current == Cell(shown, lead, i).date
    requires i == lead ==> IsDate(current) && Weekday(current) == lead
    requires (counting <==> i < lead) && (counting ==> weekday == i)
    ensures stop <==> i == 0
    ensures !stop ==> item == Cell(shown, lead, i - 1) && date == item.date && (i - 1 < lead ==> left == i - 1)
    ensures !stop ==> (item.Previous? <==> i - 1 < lead)
  {
    CellNeighbours(shown, lead, i);
    date := Yesterday(current);
    item, stop, left := Current(date), false, weekday;
    if date.month != shown.month {
      if !counting {
        left := Weekday(current);
      }
      stop := left == 0;
      left := left - 1;
      item := Previous(date);
    }
  }

  /** From the shown date backwards; the weekday is counted down once the month is left. */
  method DaysBackwards(shown: Date) returns (dates: seq<Item>)
    requires IsDate(shown)
    ensures |dates| == Lead(shown) + shown.day - 1
    ensures forall k | 0 <= k < |dates| :: dates[k] == Cell(shown, Lead(shown), |dates| - 1 - k)
  {
    ghost var lead := Lead(shown);
    dates := [];
    var current := shown;
    var counting, weekday := false, 0;
    ghost var n := lead + shown.day - 1;
    while true
      invariant |dates| <= n && current == Cell(shown, lead, n - |dates|).date
      invariant forall k | 0 <= k < |dates| :: dates[k] == Cell(shown, lead, n - 1 - k)
      invariant (counting <==> n - |dates| < lead) && (counting ==> weekday == n - |dates|)
      decreases n - |dates|
    {
      assert n - |dates| == lead ==> current == First(shown);
      var date, item, stop, left := StepBack(shown, current, counting, weekday, lead, n - |dates|);
      if stop {
        break;
      }
      dates, current, counting, weekday := dates + [item], date, item.Previous?, left;
    }
  }

  method Reverse(s: seq<Item>) returns (r: seq<Item>)
    ensures |r| == |s| && forall i | 0 <= i < |s| :: r[i] == s[|s| - 1 - i]
  {
    r := [];
    for k := 0 to |s|
      invariant |r| == k && forall i | 0 <= i < k :: r[i] == s[|s| - 1 - i]
    {
      r := r + [s[|s| - 1 - k]];
    }
  }

  method StepForward(shown: Date, current: Date, counting: bool, weekday: int, ghost lead: int, ghost last: int,
                     ghost lastWeekday: int, ghost i: int)
    returns (date: Date, item: Item, stop: bool, left: int)
    requires IsCell(shown, lead, i) && lead <= i && current == Cell(shown, lead, i).date
    requires last == lead + DaysIn(shown.year, shown.month) - 1 && i <= last + 6 - lastWeekday
    requires i == last ==> IsDate(current) && Weekday(current) == lastWeekday
    requires (counting <==> i > last) && (counting ==> weekday == lastWeekday + i - last) && 0 <= lastWeekday <= 6
    ensures stop <==> i == last + 6 - lastWeekday
    ensures !stop ==> item == Cell(shown, lead, i + 1) && date == item.date
    ensures !stop ==> (item.Next? <==> i + 1 > last) && (i + 1 > last ==> left == lastWeekday + i + 1 - last)
  {
    CellNeighbours(shown, lead, i);
    date := Tomorrow(current);
    item, stop, left := Current(date), false, weekday;
    if date.month != shown.month {
      if !counting {
        left := Weekday(current);
      }
      stop := left == 6;
      left := left + 1;
      item := Next(date);
    }
  }

  /** From the shown date forwards; the weekday is counted up once the month is left. */
  method DaysForwards(shown: Date, start: seq<Item>, ghost lead: int, ghost lastWeekday: int) returns (dates: seq<Item>)
    requires IsDate(shown) && 0 <= lead <= 6 && |start| == lead + shown.day
    requires lastWeekday == Weekday(Last(shown))
    requires forall k | 0 <= k < |start| :: start[k] == Cell(shown, lead, k)
    ensures |dates| == lead + DaysIn(shown.year, shown.month) + 6 - lastWeekday
    ensures forall k | 0 <= k < |dates| :: dates[k] == Cell(shown, lead, k)
  {
    dates := start;
    var current := shown;
    var counting, weekday := false, 0;
    ghost var last := lead + DaysIn(shown.year, shown.month) - 1;
    while true
      invariant lead < |dates| <= last + 7 - lastWeekday
      invariant current == Cell(shown, lead, |dates| - 1).date
      invariant forall k | 0 <= k < |dates| :: dates[k] == Cell(shown, lead, k)
      invariant (counting <==> |dates| - 1 > last) && (counting ==> weekday == lastWeekday + |dates| - 1 - last)
      decreases last + 7 - |dates|
    {
      assert |dates| - 1 == last ==> current == Last(shown);
      var date, item, stop, left := StepForward(shown, current, counting, weekday, lead, last, lastWeekday, |dates| - 1);
      if stop {
        break;
      }
      dates, current, counting, weekday := dates + [item], date, item.Next?, left;
    }
  }

  /** The whole grid: backwards, the shown date itself, and forwards. */
  method DateGrid(shown: Date) returns (dates: seq<Item>)
    requires IsDate(shown)
    ensures IsGrid(shown, dates)
  {
    ghost var lead := Lead(shown);
    dates := DaysBackwards(shown);
    dates := Reverse(dates);
    dates := dates + [Current(shown)];
    dates := DaysForwards(shown, dates, lead, Weekday(Last(shown)));
  }

  // ---------- what the grid shows ----------

  lemma WeekdayFrom(n: int, i: int)
    ensures (n - n % 7 + i) % 7 == i % 7
  {
  }

  lemma WholeWeeks(first: int, last: int, length: int)
    requires 27 <= last - first <= 30 && length == first % 7 + (last - first + 1) + 6 - last % 7
    ensures length % 7 == 0 && 28 <= length <= 42
  {
  }

  predicate SameMonth(a: Date, b: Date) {
    a.year == b.year && a.month == b.month
  }

  lemma LengthIsWeeks(d: Date)
    requires IsDate(d)
    ensures Length(d) % 7 == 0 && 28 <= Length(d) <= 42
  {
    LastNumber(d);
    WholeWeeks(DayNumber(First(d)), DayNumber(Last(d)), Length(d));
  }

  lemma CellWeekday(d: Date, i: int)
    requires IsDate(d) && IsCell(d, Lead(d), i)
    ensures IsDate(Cell(d, Lead(d), i).date) && Weekday(Cell(d, Lead(d), i).date) == i % 7
  {
    CellNumber(d, Lead(d), i);
    WeekdayFrom(DayNumber(First(d)), i);
  }

  lemma CellMonth(d: Date, lead: int, i: int)
    requires IsCell(d, lead, i)
    ensures Cell(d, lead, i).Current? <==> SameMonth(Cell(d, lead, i).date, d)
  {
  }

  lemma CellBefore(d: Date, lead: int, i: int)
    requires IsCell(d, lead, i) && IsDate(Cell(d, lead, i).date)
    ensures Cell(d, lead, i).Previous? <==> DayNumber(Cell(d, lead, i).date) < DayNumber(First(d))
  {
    CellNumber(d, lead, i);
  }

  lemma CellAfter(d: Date, lead: int, i: int)
    requires IsCell(d, lead, i) && IsDate(Cell(d, lead, i).date)
    ensures Cell(d, lead, i).Next? <==> DayNumber(Cell(d, lead, i).date) > DayNumber(Last(d))
  {
    CellNumber(d, lead, i);
    LastNumber(d);
  }

  lemma LastNumber(d: Date)
    requires IsDate(d)
    ensures DayNumber(Last(d)) == DayNumber(First(d)) + DaysIn(d.year, d.month) - 1
  {
  }

  /**
   For every date: consecutive days from a Sunday to a Saturday, four to six whole weeks, with every day of the month in them,
   tagged by whether they lie before, in or after the month.
   */
  lemma GridIsRight(d: Date, dates: seq<Item>)
    requires IsDate(d) && IsGrid(d, dates)
    ensures |dates| % 7 == 0 && 28 <= |dates| <= 42
    ensures forall i | 0 <= i < |dates| :: IsDate(dates[i].date) && Weekday(dates[i].date) == i % 7
    ensures forall i | 0 <= i < |dates| - 1 :: Tomorrow(dates[i].date) == dates[i + 1].date
    ensures forall e | IsDate(e) && SameMonth(e, d) :: Current(e) in dates
    ensures forall i | 0 <= i < |dates| :: dates[i].Current? <==> SameMonth(dates[i].date, d)
    ensures forall i | 0 <= i < |dates| :: dates[i].Previous? <==> DayNumber(dates[i].date) < DayNumber(First(d))
    ensures forall i | 0 <= i < |dates| :: dates[i].Next? <==> DayNumber(dates[i].date) > DayNumber(Last(d))
  {
    LengthIsWeeks(d);
    var lead := Lead(d);
    forall i | 0 <= i < |dates|
      ensures var item := dates[i];
              && IsDate(item.date) && Weekday(item.date) == i % 7
              && (item.Current? <==> SameMonth(item.date, d))
              && (item.Previous? <==> DayNumber(item.date) < DayNumber(First(d)))
              && (item.Next? <==> DayNumber(item.date) > DayNumber(Last(d)))
    {
      CellWeekday(d, i);
      CellMonth(d, lead, i);
      CellBefore(d, lead, i);
      CellAfter(d, lead, i);
    }
    forall i | 0 <= i < |dates| - 1
      ensures Tomorrow(dates[i].date) == dates[i + 1].date
    {
      CellNeighbours(d, lead, i);
    }
    forall e | IsDate(e) && SameMonth(e, d)
      ensures Current(e) in dates
    {
      assert dates[lead + e.day - 1] == Current(e);
    }
  }
}
