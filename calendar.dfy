/**
 * Calendar days. Every ISO 8601 date string `YYYY-MM-DD` of the system is a
 * day ordinal here: "k days before d" is `d - k`, and comparing two dates as
 * strings (as the database does) is comparing their ordinals.
 */
module Calendar {

  type Day = int

  /** `d` lies in the closed window [from, to]. */
  predicate InWindow(d: Day, from: Day, to: Day) {
    from <= d <= to
  }

  /** Number of calendar days of the closed window [from, to]. */
  function WindowLength(from: Day, to: Day): int
  {
    to - from + 1
  }
}
