/** Matching the stops proposed by the generation service back to catalog
    venues: the loop over the parsed `itinerary` list in
    `AIPlanner.generate_itinerary`. */
module Matching {
  import opened Wrappers
  import opened Catalog
  import opened Text

  /** Why the loop raised: a stop without a `venue_name` key (a `KeyError`). */
  datatype MatchError = MissingVenueName

  /** What a missing `start_time` or `end_time` becomes. */
  const Unknown := "N/A"

  /** The generator's test: the venue's lower-cased name occurs in the stop's
      lower-cased venue name. */
  predicate NameMatches(v: Venue, proposed: string) {
    Contains(Lower(v.name), Lower(proposed))
  }

  /** `venues[i]` is the first venue, in candidate order, that matches. */
  ghost predicate IsFirstMatch(venues: seq<Venue>, proposed: string, i: int) {
    && 0 <= i < |venues|
    && NameMatches(venues[i], proposed)
    && forall j :: 0 <= j < i ==> !NameMatches(venues[j], proposed)
  }

  /** The position of the venue `next(...)` returns, or None when it returns
      its default. */
  function FirstMatchIndex(venues: seq<Venue>, proposed: string): (r: Option<nat>)
    ensures r.None? <==> forall j :: 0 <= j < |venues| ==> !NameMatches(venues[j], proposed)
    ensures r.Some? ==> IsFirstMatch(venues, proposed, r.value)
  {
    if venues == [] then None
    else if NameMatches(venues[0], proposed) then Some(0)
    else match FirstMatchIndex(venues[1..], proposed)
      case None => None
      case Some(j) => Some(j + 1)
  }

  /** The item built for a matched stop: missing times become `N/A` and
      missing notes the empty string. */
  function ItemFor(v: Venue, stop: ProposedStop): Item {
    Item(v, stop.startTime.GetOr(Unknown), stop.endTime.GetOr(Unknown), stop.notes.GetOr(""))
  }

  /** One turn of the loop. The generator only reads `item["venue_name"]`
      when there is a venue to test, so the missing key raises only for a
      non-empty catalog. */
  function MatchStop(venues: seq<Venue>, stop: ProposedStop): Result<Option<Item>, MatchError> {
    if venues == [] then Success(None)
    else match stop.venueName
      case None => Failure(MissingVenueName)
      case Some(name) =>
        match FirstMatchIndex(venues, name)
        case None => Success(None)
        case Some(i) => Success(Some(ItemFor(venues[i], stop)))
  }

  /** The whole loop: the matched items in proposal order, or the exception
      the loop raised. */
  function MatchStops(venues: seq<Venue>, stops: seq<ProposedStop>): (r: Result<seq<Item>, MatchError>)
    ensures r.Failure? <==> venues != [] && exists i :: 0 <= i < |stops| && stops[i].venueName.None?
    ensures r.Success? ==> |r.value| <= |stops|
    ensures r.Success? ==> forall i :: 0 <= i < |r.value| ==> r.value[i].venue in venues
  {
    if stops == [] then Success([])
    else
      assert forall i :: 1 <= i < |stops| ==> stops[i] == stops[1..][i - 1];
      Prepend(MatchStop(venues, stops[0]), MatchStops(venues, stops[1..]))
  }

  /** One turn of the loop followed by the rest of it: the exception of the
      first turn that raises, or the kept item in front of the later ones. */
  function Prepend(head: Result<Option<Item>, MatchError>, rest: Result<seq<Item>, MatchError>): Result<seq<Item>, MatchError> {
    match head
    case Failure(e) => Failure(e)
    case Success(h) =>
      match rest
      case Failure(e) => Failure(e)
      case Success(items) => Success((if h.Some? then [h.value] else []) + items)
  }

  /** Matching two runs of proposals one after the other: the results
      concatenated when both succeed, the exception otherwise. */
  function Joined(x: Result<seq<Item>, MatchError>, y: Result<seq<Item>, MatchError>): Result<seq<Item>, MatchError> {
    if x.Success? && y.Success? then Success(x.value + y.value) else Failure(MissingVenueName)
  }

  /** The loop handles each stop on its own: matching a concatenation of
      proposals concatenates the results, and fails when either part does. */
  lemma {:induction false} MatchStopsAppend(venues: seq<Venue>, a: seq<ProposedStop>, b: seq<ProposedStop>)
    ensures MatchStops(venues, a + b) == Joined(MatchStops(venues, a), MatchStops(venues, b))
  {
    if a == [] {
      MatchStopsAppendEmpty(venues, b);
    } else {
      MatchStopsAppend(venues, a[1..], b);
      MatchStopsAppendCons(venues, a, b);
    }
  }

  /** The base case of `MatchStopsAppend`: no proposals in front. */
  lemma MatchStopsAppendEmpty(venues: seq<Venue>, b: seq<ProposedStop>)
    ensures MatchStops(venues, [] + b) == Joined(MatchStops(venues, []), MatchStops(venues, b))
  {
    assert [] + b == b;
    var rb := MatchStops(venues, b);
    if rb.Failure? {
      assert rb.error == MissingVenueName;
    } else {
      assert [] + rb.value == rb.value;
    }
  }

  /** Putting one turn in front commutes with joining two runs. */
  lemma PrependJoined(x: Result<Option<Item>, MatchError>, y: Result<seq<Item>, MatchError>, z: Result<seq<Item>, MatchError>)
    ensures Prepend(x, Joined(y, z)) == Joined(Prepend(x, y), z)
  {
    if x.Success? && y.Success? && z.Success? {
      var h := if x.value.Some? then [x.value.value] else [];
      assert h + (y.value + z.value) == (h + y.value) + z.value;
    } else if x.Failure? {
      assert x.error == MissingVenueName;
    } else if y.Failure? {
      assert y.error == MissingVenueName;
    }
  }

  /** The step of `MatchStopsAppend`: one more proposal in front. */
  lemma MatchStopsAppendCons(venues: seq<Venue>, a: seq<ProposedStop>, b: seq<ProposedStop>)
    requires a != []
    requires MatchStops(venues, a[1..] + b) == Joined(MatchStops(venues, a[1..]), MatchStops(venues, b))
    ensures MatchStops(venues, a + b) == Joined(MatchStops(venues, a), MatchStops(venues, b))
  {
    var x := MatchStop(venues, a[0]);
    assert (a + b)[0] == a[0];
    assert (a + b)[1..] == a[1..] + b;
    assert MatchStops(venues, a + b) == Prepend(x, MatchStops(venues, a[1..] + b));
    assert MatchStops(venues, a) == Prepend(x, MatchStops(venues, a[1..]));
    PrependJoined(x, MatchStops(venues, a[1..]), MatchStops(venues, b));
  }

  /** A single stop that names a venue is kept exactly when some catalog
      venue's name occurs in it, ignoring case; it is then attached to the
      first such venue, with missing times shown as `N/A` and missing notes
      as empty. */
  lemma MatchSingleStop(venues: seq<Venue>, stop: ProposedStop)
    requires stop.venueName.Some?
    ensures MatchStops(venues, [stop]).Success?
    ensures |MatchStops(venues, [stop]).value| <= 1
    ensures MatchStops(venues, [stop]).value == [] <==> forall v :: v in venues ==> !NameMatches(v, stop.venueName.value)
    ensures MatchStops(venues, [stop]).value != [] ==>
      exists i :: && IsFirstMatch(venues, stop.venueName.value, i)
                  && MatchStops(venues, [stop]).value[0].venue == venues[i]
                  && MatchStops(venues, [stop]).value[0].startTime == (if stop.startTime.Some? then stop.startTime.value else "N/A")
                  && MatchStops(venues, [stop]).value[0].endTime == (if stop.endTime.Some? then stop.endTime.value else "N/A")
                  && MatchStops(venues, [stop]).value[0].notes == (if stop.notes.Some? then stop.notes.value else "")
  {
    assert [stop][1..] == [];
    if venues != [] {
      var name := stop.venueName.value;
      match FirstMatchIndex(venues, name)
      case None =>
      case Some(i) =>
        assert IsFirstMatch(venues, name, i);
    }
  }

  /** Dropping an unmatched stop affects no other stop: the result is what
      the proposals without it would give. */
  lemma UnmatchedStopIsDropped(venues: seq<Venue>, a: seq<ProposedStop>, stop: ProposedStop, b: seq<ProposedStop>)
    requires stop.venueName.Some?
    requires forall v :: v in venues ==> !NameMatches(v, stop.venueName.value)
    ensures MatchStops(venues, a + [stop] + b) == MatchStops(venues, a + b)
  {
    MatchSingleStop(venues, stop);
    MatchStopsAppend(venues, a, [stop]);
    MatchStopsAppend(venues, a + [stop], b);
    MatchStopsAppend(venues, a, b);
    if MatchStops(venues, a).Success? {
      assert MatchStops(venues, a).value + [] == MatchStops(venues, a).value;
    }
  }

  /** With an empty catalog nothing matches and nothing raises. */
  lemma EmptyCatalogMatchesNothing(stops: seq<ProposedStop>)
    ensures MatchStops([], stops) == Success([])
  {
  }

  /** Names that differ only in letter case, on either side, match alike. */
  lemma NameMatchesIgnoresCase(v: Venue, w: Venue, p: string, q: string)
    requires |v.name| == |w.name| && forall i :: 0 <= i < |v.name| ==> SameIgnoringCase(v.name[i], w.name[i])
    requires |p| == |q| && forall i :: 0 <= i < |p| ==> SameIgnoringCase(p[i], q[i])
    ensures NameMatches(v, p) == NameMatches(w, q)
  {
    LowerIgnoresCase(v.name, w.name);
    LowerIgnoresCase(p, q);
  }

  /** The comparison ignores case: a stop naming "the coffee corner" matches
      the venue "The Coffee Corner". */
  lemma MatchIgnoresCase(v: Venue)
    requires v.name == "The Coffee Corner"
    ensures NameMatches(v, "the coffee corner")
  {
    assert Lower(v.name) == "the coffee corner";
    assert Lower("the coffee corner") == "the coffee corner";
  }
}
