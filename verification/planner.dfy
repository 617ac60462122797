/** `AIPlanner.generate_itinerary`: use the generation service's stops when
    the call, the parsing and the matching loop all succeed, and the fallback
    plan when any of them raised. */
module Planner {
  import opened Wrappers
  import opened Catalog
  import opened Matching
  import opened Fallback

  /** The itinerary for `venues`, given what the service call and the JSON
      parsing produced. An empty list of matches is returned as it is. */
  function GenerateItinerary(venues: seq<Venue>, outcome: GenerationOutcome): (items: seq<Item>)
    ensures forall i :: 0 <= i < |items| ==> items[i].venue in venues
  {
    match outcome
    case ServiceFailed => FallbackPlanning(venues)
    case Parsed(stops) =>
      match MatchStops(venues, stops)
      case Failure(_) => FallbackPlanning(venues)
      case Success(matched) => matched
  }

  /** The planner switches to the fallback exactly when something raised:
      the service call or parsing, or a stop without a venue name while
      there are venues to compare it with. */
  lemma FallbackIffRaised(venues: seq<Venue>, outcome: GenerationOutcome)
    ensures outcome.ServiceFailed? ==> GenerateItinerary(venues, outcome) == FallbackPlanning(venues)
    ensures outcome.Parsed? && venues != [] && (exists i :: 0 <= i < |outcome.stops| && outcome.stops[i].venueName.None?)
            ==> GenerateItinerary(venues, outcome) == FallbackPlanning(venues)
    ensures outcome.Parsed? && !(venues != [] && exists i :: 0 <= i < |outcome.stops| && outcome.stops[i].venueName.None?)
            ==> Success(GenerateItinerary(venues, outcome)) == MatchStops(venues, outcome.stops)
  {
    match outcome
    case ServiceFailed =>
    case Parsed(stops) =>
      var m := MatchStops(venues, stops);
      assert m.Failure? <==> venues != [] && exists i :: 0 <= i < |stops| && stops[i].venueName.None?;
      if m.Success? {
        assert GenerateItinerary(venues, outcome) == m.value;
      }
  }

  /** The planner's result is empty exactly when the catalog is empty or the
      matching loop ran to completion without keeping a stop. */
  lemma EmptyItineraryIff(venues: seq<Venue>, outcome: GenerationOutcome)
    ensures GenerateItinerary(venues, outcome) == []
            <==> venues == [] || (outcome.Parsed? && MatchStops(venues, outcome.stops) == Success([]))
  {
    if venues == [] && outcome.Parsed? {
      EmptyCatalogMatchesNothing(outcome.stops);
    }
  }

  /** A generation that names only venues outside the catalog yields an empty
      itinerary and does NOT fall back, even though the fallback would have
      planned something. */
  lemma NoMatchesDoesNotFallBack(venues: seq<Venue>, stops: seq<ProposedStop>)
    requires venues != []
    requires forall i :: 0 <= i < |stops| ==> stops[i].venueName.Some?
    requires forall i, v :: 0 <= i < |stops| && v in venues ==> !NameMatches(v, stops[i].venueName.value)
    ensures GenerateItinerary(venues, Parsed(stops)) == []
    ensures FallbackPlanning(venues) != []
  {
    NoStopMatches(venues, stops);
  }

  /** Stops that all name a venue, none of them in the catalog, are all
      dropped without an exception. */
  lemma {:induction false} NoStopMatches(venues: seq<Venue>, stops: seq<ProposedStop>)
    requires forall i :: 0 <= i < |stops| ==> stops[i].venueName.Some?
    requires forall i, v :: 0 <= i < |stops| && v in venues ==> !NameMatches(v, stops[i].venueName.value)
    ensures MatchStops(venues, stops) == Success([])
  {
    if stops != [] {
      NoStopMatches(venues, stops[1..]);
      MatchSingleStop(venues, stops[0]);
      assert stops == [stops[0]] + stops[1..];
      MatchStopsAppend(venues, [stops[0]], stops[1..]);
    }
  }
}
