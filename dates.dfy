/** Calendar dates as the source's `date` values: proleptic Gregorian,
    compared field by field, shifted by whole days with `timedelta`. */
module Dates {

  datatype Date = Date(year: int, month: int, day: int)

  predicate IsLeap(y: int)
  {
    y % 4 == 0 && (y % 100 != 0 || y % 400 == 0)
  }

  function DaysInMonth(y: int, m: int): (n: int)
    requires 1 <= m <= 12
    ensures 28 <= n <= 31
    ensures m == 2 ==> (n == 29 <==> IsLeap(y))
  {
    if m == 2 then (if IsLeap(y) then 29 else 28)
    else if m == 4 || m == 6 || m == 9 || m == 11 then 30
    else 31
  }

  /** A date that exists in the calendar. */
  predicate Valid(d: Date)
  {
    1 <= d.month <= 12 && 1 <= d.day <= DaysInMonth(d.year, d.month)
  }

  /** `a < b` on dates: by year, then month, then day. */
  predicate Before(a: Date, b: Date)
  {
    a.year < b.year ||
    (a.year == b.year && (a.month < b.month || (a.month == b.month && a.day < b.day)))
  }

  /** `a <= b` on dates. */
  predicate NotAfter(a: Date, b: Date)
  {
    !Before(b, a)
  }

  /** `(m1, d1) < (m2, d2)`: the tuple comparison of month and day. */
  predicate MonthDayBefore(m1: int, d1: int, m2: int, d2: int)
  {
    m1 < m2 || (m1 == m2 && d1 < d2)
  }

  /** `d + timedelta(days=1)`. */
  function NextDay(d: Date): (e: Date)
    requires Valid(d)
    ensures Valid(e) && Before(d, e)
  {
    if d.day < DaysInMonth(d.year, d.month) then Date(d.year, d.month, d.day + 1)
    else if d.month < 12 then Date(d.year, d.month + 1, 1)
    else Date(d.year + 1, 1, 1)
  }

  /** `d - timedelta(days=1)`. */
  function PrevDay(d: Date): (e: Date)
    requires Valid(d)
    ensures Valid(e) && Before(e, d)
  {
    if d.day > 1 then Date(d.year, d.month, d.day - 1)
    else if d.month > 1 then Date(d.year, d.month - 1, DaysInMonth(d.year, d.month - 1))
    else Date(d.year - 1, 12, 31)
  }

  /** One day forward and one day back are inverse to each other. */
  lemma NextPrevInverse(d: Date)
    requires Valid(d)
    ensures PrevDay(NextDay(d)) == d
    ensures NextDay(PrevDay(d)) == d
  {
  }

  /** No valid date lies strictly between a date and the next one. */
  lemma NextDayIsSuccessor(d: Date, x: Date)
    requires Valid(d) && Valid(x)
    ensures Before(d, x) <==> NotAfter(NextDay(d), x)
  {
  }

  /** `d + timedelta(days=n)`. */
  function AddDays(d: Date, n: nat): (e: Date)
    requires Valid(d)
    ensures Valid(e)
    ensures n > 0 ==> Before(d, e)
    decreases n
  {
    if n == 0 then d else NextDay(AddDays(d, n - 1))
  }

  /** `d - timedelta(days=n)`. */
  function SubDays(d: Date, n: nat): (e: Date)
    requires Valid(d)
    ensures Valid(e)
    ensures n > 0 ==> Before(e, d)
    decreases n
  {
    if n == 0 then d else PrevDay(SubDays(d, n - 1))
  }

  /** Going further back lands strictly earlier. */
  lemma {:induction false} SubDaysStrictlyDecreasing(d: Date, m: nat, n: nat)
    requires Valid(d) && m < n
    ensures Before(SubDays(d, n), SubDays(d, m))
    decreases n
  {
    if m < n - 1 {
      SubDaysStrictlyDecreasing(d, m, n - 1);
    }
  }

  /** Going further forward lands strictly later. */
  lemma {:induction false} AddDaysStrictlyIncreasing(d: Date, m: nat, n: nat)
    requires Valid(d) && m < n
    ensures Before(AddDays(d, m), AddDays(d, n))
    decreases n
  {
    if m < n - 1 {
      AddDaysStrictlyIncreasing(d, m, n - 1);
    }
  }

  /** Adding n days and then taking n days back returns to the start. */
  lemma {:induction false} AddThenSubDays(d: Date, n: nat)
    requires Valid(d)
    ensures SubDays(AddDays(d, n), n) == d
    decreases n
  {
    if n > 0 {
      var e := AddDays(d, n - 1);
      calc {
        SubDays(AddDays(d, n), n);
        PrevDay(SubDays(NextDay(e), n - 1));
        { SubNextDay(e, n - 1); }
        PrevDay(NextDay(SubDays(e, n - 1)));
        { NextPrevInverse(SubDays(e, n - 1)); }
        SubDays(e, n - 1);
        { AddThenSubDays(d, n - 1); }
        d;
      }
    }
  }

  /** Stepping one day forward commutes with going n days back. */
  lemma {:induction false} SubNextDay(d: Date, n: nat)
    requires Valid(d)
    ensures SubDays(NextDay(d), n) == NextDay(SubDays(d, n))
    decreases n
  {
    if n == 0 {
    } else {
      SubNextDay(d, n - 1);
      NextPrevInverse(SubDays(d, n - 1));
      NextPrevInverse(PrevDay(SubDays(d, n - 1)));
    }
  }

  /** The order on dates is total, irreflexive and transitive. */
  lemma DateOrder(a: Date, b: Date, c: Date)
    ensures !Before(a, a)
    ensures a != b ==> Before(a, b) || Before(b, a)
    ensures Before(a, b) && Before(b, c) ==> Before(a, c)
  {
  }
}
