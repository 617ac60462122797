/** The deterministic fallback planner: rank the candidates by rating, keep
    the best five and pack them back to back from 09:00 with a half-hour
    buffer between visits. */
module Fallback {
  import opened Wrappers
  import opened Catalog
  import opened Clock
  import opened Ranking

  /** At most this many venues are planned. */
  const MaxStops: nat := 5
  /** The running clock starts at 09:00. */
  const DayStart := 9 * MinutesPerHour
  /** Minutes between the end of one visit and the start of the next. */
  const Buffer := 30
  /** The note attached to every fallback item. */
  const PlaceholderNote := "A great choice."

  /** The venues the fallback plans: the first five of the stable sort by
      descending rating. */
  function Chosen(venues: seq<Venue>): seq<Venue> {
    Take(SortByRatingDesc(venues), MaxStops)
  }

  /** Every chosen venue is a candidate. */
  lemma ChosenMembers(venues: seq<Venue>)
    ensures forall v :: v in Chosen(venues) ==> v in venues
  {
    var sorted := SortByRatingDesc(venues);
    SortMembers(venues);
    forall v | v in Chosen(venues)
      ensures v in venues
    {
      var i :| 0 <= i < |Chosen(venues)| && Chosen(venues)[i] == v;
      assert sorted[i] == v;
    }
  }

  /** One planned visit on the running clock: minutes since midnight of the
      day the clock is anchored on, before rendering. */
  datatype Visit = Visit(venue: Venue, start: int, end: int)

  /** Visits `vs` in order, the first starting at `clock`; each ends its
      duration after it starts and the next starts a buffer later. */
  function Schedule(vs: seq<Venue>, clock: int): (visits: seq<Visit>)
    ensures |visits| == |vs|
    ensures forall i :: 0 <= i < |vs| ==> visits[i].venue == vs[i]
  {
    if vs == [] then []
    else
      var end := clock + vs[0].estimatedDuration;
      [Visit(vs[0], clock, end)] + Schedule(vs[1..], end + Buffer)
  }

  /** The item a visit becomes once its times are rendered `%H:%M`. */
  function ToItem(v: Visit): Item {
    Item(v.venue, Render(v.start), Render(v.end), PlaceholderNote)
  }

  /** Renders every visit, keeping the order. */
  function RenderAll(visits: seq<Visit>): (items: seq<Item>)
    ensures |items| == |visits|
    ensures forall i :: 0 <= i < |visits| ==> items[i].venue == visits[i].venue && items[i].notes == PlaceholderNote
  {
    seq(|visits|, i requires 0 <= i < |visits| => ToItem(visits[i]))
  }

  /** The items for visiting `vs` in order from 09:00. */
  function PlanFrom(vs: seq<Venue>): (items: seq<Item>)
    ensures |items| == |vs|
    ensures forall i :: 0 <= i < |vs| ==> items[i].venue == vs[i] && items[i].notes == PlaceholderNote
  {
    RenderAll(Schedule(vs, DayStart))
  }

  /** `AIPlanner.fallback_planning`. */
  function FallbackPlanning(venues: seq<Venue>): (items: seq<Item>)
    ensures |items| == Min(MaxStops, |venues|)
    ensures forall i :: 0 <= i < |items| ==> items[i].venue in venues
    ensures forall i :: 0 <= i < |items| ==> items[i].notes == PlaceholderNote
  {
    ChosenMembers(venues);
    PlanFrom(Chosen(venues))
  }

  /** Visits packed back to back from `clock`, with the buffer between them. */
  ghost predicate PackedFrom(visits: seq<Visit>, clock: int) {
    && (visits != [] ==> visits[0].start == clock)
    && (forall i :: 0 <= i < |visits| ==> visits[i].end == visits[i].start + visits[i].venue.estimatedDuration)
    && (forall i :: 0 <= i < |visits| - 1 ==> visits[i + 1].start == visits[i].end + Buffer)
  }

  /** The `i`-th visit lasts its venue's duration. */
  lemma {:induction false} VisitLasts(vs: seq<Venue>, clock: int, i: nat)
    requires i < |vs|
    ensures Schedule(vs, clock)[i].end == Schedule(vs, clock)[i].start + vs[i].estimatedDuration
  {
    if i > 0 {
      VisitLasts(vs[1..], clock + vs[0].estimatedDuration + Buffer, i - 1);
    }
  }

  /** The visit after the `i`-th starts a buffer after the `i`-th ends. */
  lemma {:induction false} VisitFollows(vs: seq<Venue>, clock: int, i: nat)
    requires i + 1 < |vs|
    ensures Schedule(vs, clock)[i + 1].start == Schedule(vs, clock)[i].end + Buffer
  {
    if i > 0 {
      VisitFollows(vs[1..], clock + vs[0].estimatedDuration + Buffer, i - 1);
    }
  }

  /** On the running clock the schedule starts at `clock`, every visit lasts
      its venue's duration, and each visit after the first starts a buffer
      after the previous one ends. */
  lemma {:induction false} ScheduleTiming(vs: seq<Venue>, clock: int)
    ensures PackedFrom(Schedule(vs, clock), clock)
  {
    var visits := Schedule(vs, clock);
    forall i | 0 <= i < |visits|
      ensures visits[i].end == visits[i].start + visits[i].venue.estimatedDuration
    {
      VisitLasts(vs, clock, i);
    }
    forall i | 0 <= i < |visits| - 1
      ensures visits[i + 1].start == visits[i].end + Buffer
    {
      VisitFollows(vs, clock, i);
    }
  }

  /** How far the running clock advances over `vs`: each visit's duration
      plus the buffer after it. */
  function Busy(vs: seq<Venue>): int {
    if vs == [] then 0 else vs[0].estimatedDuration + Buffer + Busy(vs[1..])
  }

  /** In closed form: the `i`-th visit starts once the clock has advanced over
      the durations and buffers of the visits before it. */
  lemma {:induction false} ScheduleClosedForm(vs: seq<Venue>, clock: int, i: nat)
    requires i < |vs|
    ensures Schedule(vs, clock)[i].start == clock + Busy(vs[..i])
  {
    if i == 0 {
      assert vs[..i] == [];
    } else {
      ScheduleClosedForm(vs[1..], clock + vs[0].estimatedDuration + Buffer, i - 1);
      assert vs[..i][1..] == vs[1..][..i - 1];
    }
  }

  /** The `i`-th planned item shows the rendered times of the `i`-th visit. */
  lemma PlanTimes(vs: seq<Venue>, i: nat)
    requires i < |vs|
    ensures PlanFrom(vs)[i].startTime == Render(Schedule(vs, DayStart)[i].start)
    ensures PlanFrom(vs)[i].endTime == Render(Schedule(vs, DayStart)[i].end)
  {
  }

  /** The `i`-th planned item starts once the clock has advanced from 09:00
      over the visits before it, and ends its venue's duration later. */
  lemma PlanClock(vs: seq<Venue>, i: nat)
    requires i < |vs|
    ensures PlanFrom(vs)[i].startTime == Render(DayStart + Busy(vs[..i]))
    ensures PlanFrom(vs)[i].endTime == Render(DayStart + Busy(vs[..i]) + vs[i].estimatedDuration)
  {
    var visit := Schedule(vs, DayStart)[i];
    PlanTimes(vs, i);
    ScheduleClosedForm(vs, DayStart, i);
    VisitLasts(vs, DayStart, i);
    RenderEqual(visit.start, DayStart + Busy(vs[..i]));
    RenderEqual(visit.end, DayStart + Busy(vs[..i]) + vs[i].estimatedDuration);
  }

  /** The planned item after the `i`-th starts a buffer after the `i`-th ends. */
  lemma PlanFollows(vs: seq<Venue>, i: nat)
    requires i + 1 < |vs|
    ensures PlanFrom(vs)[i + 1].startTime == Render(DayStart + Busy(vs[..i]) + vs[i].estimatedDuration + Buffer)
  {
    var visits := Schedule(vs, DayStart);
    PlanTimes(vs, i + 1);
    ScheduleClosedForm(vs, DayStart, i);
    VisitLasts(vs, DayStart, i);
    VisitFollows(vs, DayStart, i);
    RenderEqual(visits[i + 1].start, DayStart + Busy(vs[..i]) + vs[i].estimatedDuration + Buffer);
  }

  /** The planned venues are ranked: ratings never increase, each rating's
      venues keep their input order and are the earliest of that rating, and
      no venue left out is rated above one that was kept. */
  lemma FallbackRanking(venues: seq<Venue>)
    ensures SortedByRatingDesc(VenuesOf(FallbackPlanning(venues)))
    ensures forall k :: RatedAt(VenuesOf(FallbackPlanning(venues)), k) <= RatedAt(venues, k)
    ensures forall v, c :: v in venues && v !in VenuesOf(FallbackPlanning(venues)) && c in VenuesOf(FallbackPlanning(venues))
                           ==> v.rating <= c.rating
  {
    var sorted := SortByRatingDesc(venues);
    SortIsStableDescending(venues);
    var chosen := Chosen(venues);
    assert VenuesOf(FallbackPlanning(venues)) == chosen;
    TakeOfStableDescending(venues, sorted, MaxStops);
    forall v, c | v in venues && v !in chosen && c in chosen
      ensures v.rating <= c.rating
    {
      assert v in multiset(sorted);
      var j :| 0 <= j < |sorted| && sorted[j] == v;
      var i :| 0 <= i < |chosen| && chosen[i] == c;
    }
  }

  /** The fallback plans the first five venues of ANY stable sort of the
      candidates by descending rating. */
  lemma FallbackIsTopOfStableSort(venues: seq<Venue>, t: seq<Venue>)
    requires IsStableDescending(venues, t)
    ensures VenuesOf(FallbackPlanning(venues)) == t[..Min(MaxStops, |t|)]
  {
    SortIsTheStableArrangement(venues, t);
  }

  /** The first visit starts at 09:00. */
  lemma FallbackStartsAtNine(venues: seq<Venue>)
    requires venues != []
    ensures FallbackPlanning(venues)[0].startTime == "09:00"
    ensures Parse(FallbackPlanning(venues)[0].startTime) == Some(DayStart)
  {
    PlanTimes(Chosen(venues), 0);
    RenderNine();
    ParseRender(DayStart);
  }

  /** In closed form: the `i`-th item starts at 09:00 plus the durations and
      buffers of the venues planned before it, and ends its venue's duration
      later; both are rendered `%H:%M`. */
  lemma FallbackTimes(venues: seq<Venue>, i: nat)
    requires i < |FallbackPlanning(venues)|
    ensures FallbackPlanning(venues)[i].startTime == Render(DayStart + Busy(Chosen(venues)[..i]))
    ensures FallbackPlanning(venues)[i].endTime
            == Render(DayStart + Busy(Chosen(venues)[..i]) + Chosen(venues)[i].estimatedDuration)
  {
    PlanClock(Chosen(venues), i);
  }

  /** The item after the `i`-th starts half an hour after the `i`-th ends on
      the running clock. */
  lemma FallbackGap(venues: seq<Venue>, i: nat)
    requires i + 1 < |FallbackPlanning(venues)|
    ensures FallbackPlanning(venues)[i + 1].startTime
            == Render(DayStart + Busy(Chosen(venues)[..i]) + Chosen(venues)[i].estimatedDuration + Buffer)
  {
    PlanFollows(Chosen(venues), i);
  }
}
