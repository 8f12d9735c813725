/** Python's `datetime.date` and `datetime.time` values, with the
    lexicographic order Python compares them by. */
module Calendar {

  datatype Date = Date(year: int, month: int, day: int) {
    /** The calendar fields a Python `date` object always satisfies. */
    predicate Valid() {
      1 <= month <= 12 && 1 <= day <= 31
    }
  }

  /** `a < b` on Python dates: year first, then month, then day. */
  predicate DateLess(a: Date, b: Date) {
    a.year < b.year
    || (a.year == b.year && a.month < b.month)
    || (a.year == b.year && a.month == b.month && a.day < b.day)
  }

  /** `a <= b` on Python dates. */
  predicate DateLessEq(a: Date, b: Date) {
    DateLess(a, b) || a == b
  }

  /** Python's `(a.month, a.day) < (b.month, b.day)` tuple comparison. */
  predicate MonthDayLess(a: Date, b: Date) {
    a.month < b.month || (a.month == b.month && a.day < b.day)
  }

  datatype Time = Time(hour: int, minute: int, second: int)

  /** `a <= b` on Python times of day. */
  predicate TimeLessEq(a: Time, b: Time) {
    a.hour < b.hour
    || (a.hour == b.hour && a.minute < b.minute)
    || (a.hour == b.hour && a.minute == b.minute && a.second <= b.second)
  }
}
