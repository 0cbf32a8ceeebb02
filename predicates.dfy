/** `NSPredicate.todayPredicate()`: the filter of the home screen's fetch. */
module Predicates {
  import opened TaskRecords
  import opened Days

  /** The predicate built from the start of today and from what adding one day
      to it produced (`None` when the calendar could not compute tomorrow, in
      which case the predicate accepts every task). A task without a start
      time fails the range test; a task without a status passes the status
      test, as `nil != "Postpone"` does. */
  predicate TodayPredicate(t: Task, startOfToday: int, endOfToday: Option<int>) {
    match endOfToday
    case None => true
    case Some(end) =>
      t.startTime.Some? && startOfToday <= t.startTime.value < end &&
      t.status != Some("Postpone")
  }

  /** The bounds as the code computes them on day `now`. */
  function TodayBounds(now: int): (b: (int, Option<int>))
    ensures b.0 == StartOfDay(now) && b.1 == Some(b.0 + SecondsPerDay)
  {
    var start := StartOfDay(now);
    (start, Some(start + SecondsPerDay))
  }

  /** With computable bounds, a task matches exactly when it starts on the same
      calendar day as `now` and its status is not "Postpone". */
  lemma TodayMeansSameDay(t: Task, now: int)
    ensures TodayPredicate(t, TodayBounds(now).0, TodayBounds(now).1) <==>
      t.startTime.Some? && SameDay(t.startTime.value, now) && t.status != Some("Postpone")
  {
    if t.startTime.Some? {
      var d := StartOfDay(now);
      if d <= t.startTime.value < d + SecondsPerDay {
        StartOfDayUnique(t.startTime.value, d);
      }
    }
  }

  /** A postponed task is not listed even when it starts today. */
  lemma PostponedExcluded(t: Task, now: int)
    requires t.status == Some("Postpone")
    ensures !TodayPredicate(t, TodayBounds(now).0, TodayBounds(now).1)
  {
  }

  /** The lower bound is inclusive and the upper bound exclusive: midnight of
      today matches, midnight of tomorrow does not. */
  lemma TodayBoundaries(t: Task, now: int)
    requires t.status != Some("Postpone")
    ensures t.startTime == Some(StartOfDay(now)) ==> TodayPredicate(t, TodayBounds(now).0, TodayBounds(now).1)
    ensures t.startTime == Some(StartOfDay(now) + SecondsPerDay) ==> !TodayPredicate(t, TodayBounds(now).0, TodayBounds(now).1)
  {
  }

  /** When tomorrow cannot be computed, every task matches. */
  lemma FallbackAcceptsAll(t: Task, startOfToday: int)
    ensures TodayPredicate(t, startOfToday, None)
  {
  }
}
