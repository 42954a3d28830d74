/**
 * `ZonedDateTime`, reduced to what the scheduler compares: the instant on
 * the time line and the UTC offset it was written with. `isBefore` and
 * `isAfter` look at the instant only; `equals` looks at both; `compareTo`
 * (what `Comparator.comparing(Appointment::getDateTime)` uses) orders by the
 * instant and breaks ties by the local date-time, that is by the offset.
 */
module Time {

  /** An instant (seconds since the epoch) together with its UTC offset in seconds. */
  datatype Timestamp = TS(instant: int, offset: int)

  predicate IsBefore(a: Timestamp, b: Timestamp)
  {
    a.instant < b.instant
  }

  predicate IsAfter(a: Timestamp, b: Timestamp)
  {
    a.instant > b.instant
  }

  /** `a.compareTo(b) <= 0`. */
  predicate NotLater(a: Timestamp, b: Timestamp)
  {
    a.instant < b.instant || (a.instant == b.instant && a.offset <= b.offset)
  }

  /**
   * `compareTo` is a total order on timestamps: reflexive, antisymmetric
   * (with respect to `equals`), transitive and total; and it agrees with
   * `isBefore`.
   */
  lemma NotLaterIsTotalOrder(a: Timestamp, b: Timestamp, c: Timestamp)
    ensures NotLater(a, a)
    ensures NotLater(a, b) && NotLater(b, a) ==> a == b
    ensures NotLater(a, b) && NotLater(b, c) ==> NotLater(a, c)
    ensures NotLater(a, b) || NotLater(b, a)
    ensures IsBefore(a, b) ==> NotLater(a, b) && !NotLater(b, a)
  {
  }

  /** `isBefore`, `isAfter` and "same instant" split every pair exactly three ways. */
  lemma Trichotomy(a: Timestamp, b: Timestamp)
    ensures IsBefore(a, b) || IsAfter(a, b) || a.instant == b.instant
    ensures !(IsBefore(a, b) && IsAfter(a, b))
    ensures IsAfter(a, b) <==> IsBefore(b, a)
  {
  }
}
