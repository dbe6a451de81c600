/**
 * The civil (Gregorian, UTC) calendar. A month is numbered from January of
 * year 0, a day from the first of that month.
 */
module Calendar {

  datatype Date = Date(month: nat, day: nat)

  predicate IsLeap(year: nat) {
    year % 4 == 0 && (year % 100 != 0 || year % 400 == 0)
  }

  function MonthLength(month: nat): (days: nat)
    ensures 28 <= days <= 31
  {
    var m := month % 12 + 1;
    if m == 2 then (if IsLeap(month / 12) then 29 else 28)
    else if m in {4, 6, 9, 11} then 30
    else 31
  }

  predicate Valid(d: Date) {
    1 <= d.day <= MonthLength(d.month)
  }

  /** Days before the first of the month. */
  function MonthStart(month: nat): nat {
    if month == 0 then 0 else MonthStart(month - 1) + MonthLength(month - 1)
  }

  function DayNumber(d: Date): nat
    requires Valid(d)
  {
    MonthStart(d.month) + d.day - 1
  }

  function DateFrom(day: nat, month: nat): (d: Date)
    requires MonthStart(month) <= day
    ensures Valid(d) && DayNumber(d) == day
    decreases day - MonthStart(month)
  {
    if day < MonthStart(month + 1) then Date(month, day - MonthStart(month) + 1)
    else DateFrom(day, month + 1)
  }

  /** The calendar date of a day number. */
  function DateOf(day: nat): (d: Date)
    ensures Valid(d) && DayNumber(d) == day
  {
    DateFrom(day, 0)
  }

  function MonthOf(day: nat): nat {
    DateOf(day).month
  }

  lemma {:induction false} MonthStartGrows(a: nat, b: nat)
    requires a < b
    ensures MonthStart(a) + MonthLength(a) <= MonthStart(b)
  {
    if a < b - 1 {
      MonthStartGrows(a, b - 1);
    }
  }

  /** Day numbers order dates exactly as (month, day) does. */
  lemma OrderIsLexicographic(a: Date, b: Date)
    requires Valid(a) && Valid(b)
    ensures DayNumber(a) < DayNumber(b) <==> a.month < b.month || (a.month == b.month && a.day < b.day)
  {
    if a.month < b.month {
      MonthStartGrows(a.month, b.month);
    } else if b.month < a.month {
      MonthStartGrows(b.month, a.month);
    }
  }

  /** `DateOf` undoes `DayNumber`. */
  lemma DateOfDayNumber(d: Date)
    requires Valid(d)
    ensures DateOf(DayNumber(d)) == d
  {
    OrderIsLexicographic(DateOf(DayNumber(d)), d);
    OrderIsLexicographic(d, DateOf(DayNumber(d)));
  }
}
