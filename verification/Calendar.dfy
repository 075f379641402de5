/** The proleptic Gregorian calendar as the lexer and the datetime value compute it: days_since_epoch counts days. */
module Calendar {

  datatype Date = Date(year: int, month: int, day: int)

  /** C++ division: towards zero. */
  function TruncDiv(a: int, b: int): int
    requires b > 0
  {
    if a >= 0 then a / b else -((-a) / b)
  }

  predicate IsLeap(y: int) {
    (y % 4 == 0 && y % 100 != 0) || y % 400 == 0
  }

  const DAYS_IN_MONTH := [31, 28, 31, 30, 31, 30, 31, 31, 30, 31, 30, 31]

  /** is_valid_date: a table, with the leap rule for February. */
  predicate IsValidDate(d: Date) {
    1 <= d.month <= 12 && 1 <= d.day &&
    d.day <= if d.month == 2 && IsLeap(d.year) then 29 else DAYS_IN_MONTH[d.month - 1]
  }

  /** The lexer's own checks, written as cases. */
  predicate LexerAccepts(d: Date) {
    1 <= d.month <= 12 && 1 <= d.day <= 31 &&
    d.day <= if d.month == 2 then (if IsLeap(d.year) then 29 else 28)
             else if d.month == 4 || d.month == 6 || d.month == 9 || d.month == 11 then 30
             else 31
  }

  lemma SameRules(d: Date)
    ensures LexerAccepts(d) <==> IsValidDate(d)
  {
  }

  function MaxDay(y: int, m: int): int {
    if m == 2 then (if IsLeap(y) then 29 else 28)
    else if m == 4 || m == 6 || m == 9 || m == 11 then 30
    else 31
  }

  /** days_since_epoch, with its divisions as the machine does them. */
  function DaysSinceEpoch(d: Date): int
    requires 1 <= d.month <= 12
  {
    var yearAdj := if d.month <= 2 then d.year - 1 else d.year;
    var m := if d.month <= 2 then d.month + 12 else d.month;
    var era := TruncDiv(if yearAdj >= 0 then yearAdj else yearAdj - 399, 400);
    var yoe := yearAdj - era * 400;
    var doy := TruncDiv(153 * (m - 3) + 2, 5) + d.day - 1;
    var doe := yoe * 365 + TruncDiv(yoe, 4) - TruncDiv(yoe, 100) + doy;
    era * 146097 + doe - 719468
  }

  // ---------- it counts days ----------

  /** Days from 0000-03-01 to the first of March of year y. */
  function MarchFirst(y: int): int {
    365 * y + y / 4 - y / 100 + y / 400
  }

  function YearAdj(d: Date): int {
    if d.month <= 2 then d.year - 1 else d.year
  }

  /** Days from the first of March to the given day of a year that starts in March. */
  function DayOfMarchYear(d: Date): int
    requires 1 <= d.month <= 12
  {
    (153 * ((d.month + 9) % 12) + 2) / 5 + d.day - 1
  }

  lemma EraIsFloor(y: int)
    ensures TruncDiv(if y >= 0 then y else y - 399, 400) == y / 400
    ensures 0 <= y - (y / 400) * 400 < 400
  {
  }

  lemma CenturiesAdd(y: int)
    ensures var yoe := y - (y / 400) * 400;
            (y / 400) * 146097 + yoe * 365 + yoe / 4 - yoe / 100 == MarchFirst(y)
  {
    var era := y / 400;
    var yoe := y - era * 400;
    assert y / 4 == 100 * era + yoe / 4;
    assert y / 100 == 4 * era + yoe / 100;
  }

  lemma DaysByYear(d: Date)
    requires 1 <= d.month <= 12
    ensures DaysSinceEpoch(d) == MarchFirst(YearAdj(d)) + DayOfMarchYear(d) - 719468
  {
    EraIsFloor(YearAdj(d));
    CenturiesAdd(YearAdj(d));
  }

  lemma EveryFourth(y: int)
    ensures y / 4 - (y - 1) / 4 == if y % 4 == 0 then 1 else 0
  {
  }

  lemma EveryHundredth(y: int)
    ensures y / 100 - (y - 1) / 100 == if y % 100 == 0 then 1 else 0
  {
  }

  lemma EveryFourHundredth(y: int)
    ensures y / 400 - (y - 1) / 400 == if y % 400 == 0 then 1 else 0
  {
  }

  lemma MarchToMarch(y: int)
    ensures MarchFirst(y) - MarchFirst(y - 1) == if IsLeap(y) then 366 else 365
  {
    EveryFourth(y);
    EveryHundredth(y);
    EveryFourHundredth(y);
  }

  function NextDate(d: Date): Date {
    if d.day < MaxDay(d.year, d.month) then Date(d.year, d.month, d.day + 1)
    else if d.month < 12 then Date(d.year, d.month + 1, 1)
    else Date(d.year + 1, 1, 1)
  }

  function PrevDate(d: Date): Date {
    if d.day > 1 then Date(d.year, d.month, d.day - 1)
    else if d.month > 1 then Date(d.year, d.month - 1, MaxDay(d.year, d.month - 1))
    else Date(d.year - 1, 12, 31)
  }

  lemma NextPrev(d: Date)
    requires IsValidDate(d)
    ensures IsValidDate(NextDate(d)) && IsValidDate(PrevDate(d))
    ensures NextDate(PrevDate(d)) == d && PrevDate(NextDate(d)) == d
  {
    SameRules(d);
    SameRules(NextDate(d));
    SameRules(PrevDate(d));
  }

  lemma EpochIsZero()
    ensures DaysSinceEpoch(Date(1970, 1, 1)) == 0
  {
  }

  lemma NextInMonthOrYear(d: Date)
    requires 1 <= d.month <= 12 && d.month != 2 && d.day == MaxDay(d.year, d.month)
    ensures DayOfMarchYear(NextDate(d)) == DayOfMarchYear(d) + 1 && YearAdj(NextDate(d)) == YearAdj(d)
  {
  }

  lemma NextAfterFebruary(d: Date)
    requires d.month == 2 && d.day == MaxDay(d.year, 2)
    ensures MarchFirst(YearAdj(NextDate(d))) + DayOfMarchYear(NextDate(d))
         == MarchFirst(YearAdj(d)) + DayOfMarchYear(d) + 1
  {
    MarchToMarch(d.year);
  }

  lemma NextInMonth(d: Date)
    requires 1 <= d.month <= 12 && d.day < MaxDay(d.year, d.month)
    ensures DayOfMarchYear(NextDate(d)) == DayOfMarchYear(d) + 1 && YearAdj(NextDate(d)) == YearAdj(d)
  {
  }

  lemma NextFromMarch(d: Date)
    requires 1 <= d.month <= 12 && d.day <= MaxDay(d.year, d.month)
    ensures MarchFirst(YearAdj(NextDate(d))) + DayOfMarchYear(NextDate(d))
         == MarchFirst(YearAdj(d)) + DayOfMarchYear(d) + 1
  {
    hide MarchFirst, DayOfMarchYear, YearAdj, IsLeap;
    if d.day < MaxDay(d.year, d.month) {
      NextInMonth(d);
    } else if d.month == 2 {
      NextAfterFebruary(d);
    } else {
      NextInMonthOrYear(d);
    }
  }

  /** The date after is the day after, over every month end, leap day and century. */
  lemma NextIsOneMore(d: Date)
    requires IsValidDate(d)
    ensures IsValidDate(NextDate(d)) && DaysSinceEpoch(NextDate(d)) == DaysSinceEpoch(d) + 1
  {
    NextPrev(d);
    SameRules(d);
    NextFromMarch(d);
    DaysByYear(d);
    DaysByYear(NextDate(d));
    hide DaysSinceEpoch, IsLeap, MarchFirst, YearAdj, DayOfMarchYear;
  }

  // ---------- a strictly monotone bijection ----------

  predicate Before(a: Date, b: Date) {
    a.year < b.year || (a.year == b.year && (a.month < b.month || (a.month == b.month && a.day < b.day)))
  }

  lemma {:induction false} SameMonth(a: Date, b: Date)
    requires IsValidDate(a) && IsValidDate(b) && a.year == b.year && a.month == b.month && a.day < b.day
    ensures DaysSinceEpoch(a) < DaysSinceEpoch(b)
  {
    DaysByYear(a);
    DaysByYear(b);
  }

  /** Later dates have larger numbers: walk from a to b one day at a time. */
  lemma {:induction false} Monotone(a: Date, b: Date)
    requires IsValidDate(a) && IsValidDate(b) && Before(a, b)
    ensures DaysSinceEpoch(a) < DaysSinceEpoch(b)
    decreases b.year - a.year, 12 - a.month
  {
    if a.year == b.year && a.month == b.month {
      SameMonth(a, b);
    } else {
      var last := Date(a.year, a.month, MaxDay(a.year, a.month));
      SameRules(last);
      SameRules(a);
      if a != last {
        SameMonth(a, last);
      }
      NextIsOneMore(last);
      hide DaysSinceEpoch, IsLeap;
      if NextDate(last) != b {
        Monotone(NextDate(last), b);
      }
    }
  }

  /** The calendar by counting: the date n days after, or before, 1970-01-01. This is what gmtime gives. */
  function DateOfDay(n: int): Date
    decreases if n < 0 then -n else n
  {
    if n == 0 then Date(1970, 1, 1)
    else if n > 0 then NextDate(DateOfDay(n - 1))
    else PrevDate(DateOfDay(n + 1))
  }

  /** Every integer is the number of a valid date, */
  lemma {:induction false} DayOfDate(n: int)
    ensures IsValidDate(DateOfDay(n)) && DaysSinceEpoch(DateOfDay(n)) == n
    decreases if n < 0 then -n else n
  {
    if n > 0 {
      DayOfDate(n - 1);
      NextIsOneMore(DateOfDay(n - 1));
    } else if n < 0 {
      DayOfDate(n + 1);
      NextPrev(DateOfDay(n + 1));
      NextIsOneMore(PrevDate(DateOfDay(n + 1)));
    }
  }

  /** and of only one. */
  lemma DateOfItsDay(d: Date)
    requires IsValidDate(d)
    ensures DateOfDay(DaysSinceEpoch(d)) == d
  {
    var e := DateOfDay(DaysSinceEpoch(d));
    DayOfDate(DaysSinceEpoch(d));
    if Before(d, e) {
      Monotone(d, e);
    } else if Before(e, d) {
      Monotone(e, d);
    }
  }
}
