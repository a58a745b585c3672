/** Natural months over an instant axis counted in nanoseconds. Time zones and
    calendar arithmetic stay abstract: a month is a number, and its bounds are
    whole seconds, closed below and open above. */
module Calendars {

  const SECOND: int := 1_000_000_000

  datatype Calendar = Calendar(month: int -> int, start: int -> int)
  {
    ghost predicate Valid() {
      && (forall t :: start(month(t)) * SECOND <= t < start(month(t) + 1) * SECOND)
      && (forall m, n :: m < n ==> start(m) < start(n))
    }
  }

  /** time.Unix: whole seconds, rounded down. */
  function Unix(t: int): int { t / SECOND }

  /** The half-open window on stored seconds selects exactly the instants of one month. */
  lemma WindowIsMonth(cal: Calendar, t: int, m: int)
    requires cal.Valid()
    ensures cal.start(m) <= Unix(t) < cal.start(m + 1) <==> cal.month(t) == m
  {
  }

  /** Storing only the seconds of an instant keeps its month. */
  lemma UnixKeepsMonth(cal: Calendar, t: int)
    requires cal.Valid()
    ensures cal.month(Unix(t) * SECOND) == cal.month(t)
  {
  }

  const THIRTY_DAYS: int := 2_592_000

  /** A calendar of thirty-day months satisfies the assumptions. */
  lemma SomeCalendar()
    ensures exists cal: Calendar :: cal.Valid()
  {
    var cal := Calendar(t => t / (THIRTY_DAYS * SECOND), m => m * THIRTY_DAYS);
    assert cal.Valid();
  }
}
