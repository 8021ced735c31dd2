/** Calendar dates as (year, month, day) and the two age computations the
    source uses: date-fns `differenceInYears` (registration) and a plain
    `getFullYear` difference (admin grade labels). Dates are compared
    lexicographically, which is also how a 29 February anniversary falls in a
    common year: after 28 February and before 1 March. */
module Dates {

  datatype Date = Date(year: int, month: int, day: int)

  /** `a` falls earlier in its year than `b` does in its year. */
  predicate MonthDayBefore(a: Date, b: Date)
  {
    a.month < b.month || (a.month == b.month && a.day < b.day)
  }

  /** `a` is strictly earlier than `b`. */
  predicate Before(a: Date, b: Date)
  {
    a.year < b.year || (a.year == b.year && MonthDayBefore(a, b))
  }

  /** The date `n` years after `d`, same month and day. */
  function AddYears(d: Date, n: int): Date
  {
    Date(d.year + n, d.month, d.day)
  }

  /** Whole years elapsed from `from` to `to`, for `from` not after `to`. */
  function WholeYears(from: Date, to: Date): (r: nat)
    requires !Before(to, from)
    ensures !Before(to, AddYears(from, r))
    ensures Before(to, AddYears(from, r + 1))
  {
    to.year - from.year - (if MonthDayBefore(to, from) then 1 else 0)
  }

  /** date-fns `differenceInYears(later, earlier)` on calendar dates: the
      whole years between them, negated when `later` is the earlier date. */
  function DifferenceInYears(later: Date, earlier: Date): (r: int)
    ensures !Before(later, earlier) ==> r >= 0
    ensures Before(later, earlier) ==> r <= 0
  {
    if Before(later, earlier) then -(WholeYears(later, earlier) as int)
    else if Before(earlier, later) then WholeYears(earlier, later)
    else 0
  }

  /** At least `n >= 1` whole years have passed from `dob` to `today` exactly
      when `today` is not before the `n`-th anniversary of `dob`. */
  lemma AtLeastYearsIff(dob: Date, today: Date, n: int)
    requires n >= 1
    ensures DifferenceInYears(today, dob) >= n <==> !Before(today, AddYears(dob, n))
  {
    if !Before(today, dob) && Before(dob, today) {
      var w := WholeYears(dob, today);
      if w >= n {
        assert !Before(today, AddYears(dob, w));
      } else {
        assert Before(today, AddYears(dob, w + 1));
      }
    }
  }

  /** Once `n` years have passed they stay passed as `today` moves forward. */
  lemma AtLeastYearsPersists(dob: Date, today: Date, later: Date, n: int)
    requires n >= 1
    requires !Before(later, today)
    requires DifferenceInYears(today, dob) >= n
    ensures DifferenceInYears(later, dob) >= n
  {
    AtLeastYearsIff(dob, today, n);
    AtLeastYearsIff(dob, later, n);
  }

  /** `later.getFullYear() - earlier.getFullYear()`. */
  function YearDifference(later: Date, earlier: Date): int
  {
    later.year - earlier.year
  }

  /** The calendar-year difference over-counts the whole years by at most one. */
  lemma YearDifferenceBoundsAge(dob: Date, today: Date)
    requires !Before(today, dob)
    ensures DifferenceInYears(today, dob) <= YearDifference(today, dob) <= DifferenceInYears(today, dob) + 1
  {
  }
}
