/** Exhaustiveness: the successor of a weekday, written once as a total
    `switch` and once as a `Record<Weekday, Day>`. */
module Weekdays {

  /** The seven days of the week, Monday first. */
  datatype Day = Mon | Tue | Wed | Thu | Fri | Sat | Sun

  /** Monday to Friday. */
  predicate IsWeekday(d: Day)
  {
    !d.Sat? && !d.Sun?
  }

  /** The working days, a subset of `Day`. */
  type Weekday = d: Day | IsWeekday(d) witness Mon

  /** Position of a day in the calendar week, Monday at 0. */
  function Index(d: Day): (i: nat)
    ensures i < 7
    ensures IsWeekday(d) <==> i < 5
  {
    match d
    case Mon => 0
    case Tue => 1
    case Wed => 2
    case Thu => 3
    case Fri => 4
    case Sat => 5
    case Sun => 6
  }

  /** `getNextDay`: the next working day, so Friday is followed by Monday. */
  function GetNextDay(w: Weekday): (r: Day)
    ensures IsWeekday(r)
    ensures Index(r) == (Index(w) + 1) % 5
  {
    match w
    case Mon => Tue
    case Tue => Wed
    case Wed => Thu
    case Thu => Fri
    case Fri => Mon
  }

  /** `nextDay2` (and `nextDay3`, which has the same entries): the next
      calendar day of each weekday. */
  const NextDay2: map<Weekday, Day> := map[Mon := Tue, Tue := Wed, Wed := Thu, Thu := Fri, Fri := Sat]

  /** The record covers every weekday and names its calendar successor. */
  lemma NextDay2Total(w: Weekday)
    ensures w in NextDay2
    ensures Index(NextDay2[w]) == Index(w) + 1
  {
  }

  /** The switch and the record agree from Monday to Thursday; on Friday the
      switch skips the weekend (Monday) while the record says Saturday. */
  lemma GetNextDayVersusNextDay2(w: Weekday)
    ensures w != Fri ==> GetNextDay(w) == NextDay2[w]
    ensures w == Fri ==> GetNextDay(w) == Mon && NextDay2[w] == Sat && GetNextDay(w) != NextDay2[w]
  {
  }

  /** `getNextDay` permutes the weekdays: distinct days have distinct successors. */
  lemma GetNextDayInjective(v: Weekday, w: Weekday)
    ensures GetNextDay(v) == GetNextDay(w) ==> v == w
  {
  }

  /** Five steps of `getNextDay` come back to the starting day. */
  lemma GetNextDayCycle(w: Weekday)
    ensures var d1 := GetNextDay(w);
            var d2 := GetNextDay(d1);
            var d3 := GetNextDay(d2);
            var d4 := GetNextDay(d3);
            GetNextDay(d4) == w
  {
  }
}
