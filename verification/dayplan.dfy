/** Plan assembly in `create_day_plan`: reject an empty itinerary and price
    the rest from a fixed table of price tiers. */
module DayPlanning {
  import opened Wrappers
  import opened Catalog
  import opened Planner

  /** Estimated cost of one visit per price tier; any other tier, `Free`
      included, costs nothing. */
  const PriceMap: map<string, nat> := map["$" := 25, "$$" := 50, "$$$" := 100, "$$$$" := 150]

  /** `price_map.get(tier, 0)`. */
  function TierPrice(tier: string): nat {
    if tier in PriceMap then PriceMap[tier] else 0
  }

  /** The estimated cost of an itinerary: the sum of its venues' tier prices. */
  function EstimatedCost(items: seq<Item>): (cost: nat)
    ensures cost <= 150 * |items|
  {
    if items == [] then 0 else TierPrice(items[0].venue.priceRange) + EstimatedCost(items[1..])
  }

  /** How many visits of the itinerary are at price tier `tier`. */
  function CountTier(items: seq<Item>, tier: string): nat {
    if items == [] then 0
    else (if items[0].venue.priceRange == tier then 1 else 0) + CountTier(items[1..], tier)
  }

  /** The cost of concatenated itineraries is the sum of their costs. */
  lemma {:induction false} CostAppend(a: seq<Item>, b: seq<Item>)
    ensures EstimatedCost(a + b) == EstimatedCost(a) + EstimatedCost(b)
  {
    if a == [] {
      assert a + b == b;
    } else {
      CostAppend(a[1..], b);
      assert (a + b)[1..] == a[1..] + b;
    }
  }

  /** The cost counts each visit at its tier's price and nothing for any
      other tier. */
  lemma {:induction false} CostByTierCounts(items: seq<Item>)
    ensures EstimatedCost(items)
            == 25 * CountTier(items, "$") + 50 * CountTier(items, "$$")
             + 100 * CountTier(items, "$$$") + 150 * CountTier(items, "$$$$")
  {
    if items != [] {
      CostByTierCounts(items[1..]);
    }
  }

  /** One `$$` venue and one `$` venue cost 75; a `Free` one adds nothing. */
  lemma CostExample(a: Item, b: Item, c: Item)
    requires a.venue.priceRange == "$$" && b.venue.priceRange == "$" && c.venue.priceRange == "Free"
    ensures EstimatedCost([a, b]) == 75
    ensures EstimatedCost([a, b, c]) == 75
  {
    assert [a, b][1..] == [b];
    assert [a, b, c][1..] == [b, c];
    assert [b, c][1..] == [c];
    assert "Free"[0] != "$$$$"[0];
    assert "Free" !in PriceMap;
    assert [c][1..] == [];
    assert EstimatedCost([c]) == 0;
    assert EstimatedCost([b, c]) == 25;
  }

  /** Why plan creation failed: the planner produced no items (an
      `HTTPException` with status 500). */
  datatype PlanError = EmptyItinerary

  /** A persisted day plan. The location, the weather snapshot and the
      creation timestamp are not modelled. */
  datatype DayPlan = DayPlan(id: string, date: string, totalBudget: int, estimatedCost: nat, itinerary: seq<Item>)

  /** The part of `create_day_plan` after the itinerary is known; `id` and
      `date` stand for `uuid4()` and today's date. */
  function AssemblePlan(itinerary: seq<Item>, budget: int, id: string, date: string): (r: Result<DayPlan, PlanError>)
    ensures r.Failure? <==> itinerary == []
    ensures r.Success? ==> r.value.itinerary == itinerary && r.value.totalBudget == budget
    ensures r.Success? ==> r.value.estimatedCost == EstimatedCost(itinerary) <= 150 * |itinerary|
  {
    if itinerary == [] then Failure(EmptyItinerary)
    else Success(DayPlan(id, date, budget, EstimatedCost(itinerary), itinerary))
  }

  /** At most this many catalog documents are read per request. */
  const VenueFetchLimit: nat := 100

  /** `create_day_plan` from the catalog contents (in the order the query
      returns them) and the generation outcome. */
  function CreateDayPlan(budget: int, catalog: seq<Venue>, outcome: GenerationOutcome, id: string, date: string): (r: Result<DayPlan, PlanError>)
    ensures r.Failure? <==> catalog == [] ||
                            (outcome.Parsed? && Matching.MatchStops(Take(catalog, VenueFetchLimit), outcome.stops) == Success([]))
    ensures r.Success? ==> r.value.itinerary == GenerateItinerary(Take(catalog, VenueFetchLimit), outcome)
    ensures r.Success? ==> r.value.itinerary != [] && r.value.totalBudget == budget
    ensures r.Success? ==> r.value.estimatedCost == EstimatedCost(r.value.itinerary)
    ensures r.Success? ==> forall i :: 0 <= i < |r.value.itinerary| ==>
                             r.value.itinerary[i].venue in Take(catalog, VenueFetchLimit)
  {
    EmptyItineraryIff(Take(catalog, VenueFetchLimit), outcome);
    AssemblePlan(GenerateItinerary(Take(catalog, VenueFetchLimit), outcome), budget, id, date)
  }

  /** With an empty catalog no plan is ever created, whatever the generation
      service proposed. */
  lemma EmptyCatalogRejected(budget: int, outcome: GenerationOutcome, id: string, date: string)
    ensures CreateDayPlan(budget, [], outcome, id, date) == Failure(EmptyItinerary)
  {
    assert Take<Venue>([], VenueFetchLimit) == [];
    EmptyItineraryIff([], outcome);
  }

  /** When the generation service fails and the catalog is not empty, the
      fallback plan is accepted with between one and five visits. */
  lemma ServiceFailureStillPlans(budget: int, catalog: seq<Venue>, id: string, date: string)
    requires catalog != []
    ensures CreateDayPlan(budget, catalog, ServiceFailed, id, date).Success?
    ensures 1 <= |CreateDayPlan(budget, catalog, ServiceFailed, id, date).value.itinerary| <= 5
  {
  }

  /** Stops that match at least one venue become the plan, item for item. */
  lemma MatchedStopsPlanned(budget: int, catalog: seq<Venue>, stops: seq<ProposedStop>, id: string, date: string)
    requires Matching.MatchStops(Take(catalog, VenueFetchLimit), stops).Success?
    requires Matching.MatchStops(Take(catalog, VenueFetchLimit), stops).value != []
    ensures CreateDayPlan(budget, catalog, Parsed(stops), id, date).Success?
    ensures CreateDayPlan(budget, catalog, Parsed(stops), id, date).value.itinerary
            == Matching.MatchStops(Take(catalog, VenueFetchLimit), stops).value
  {
    FallbackIffRaised(Take(catalog, VenueFetchLimit), Parsed(stops));
  }

  /** An empty list of matches is rejected rather than replaced by the
      fallback plan. */
  lemma NoMatchesRejected(budget: int, catalog: seq<Venue>, stops: seq<ProposedStop>, id: string, date: string)
    requires catalog != []
    requires forall i :: 0 <= i < |stops| ==> stops[i].venueName.Some?
    requires forall i, v :: 0 <= i < |stops| && v in catalog ==> !Matching.NameMatches(v, stops[i].venueName.value)
    ensures CreateDayPlan(budget, catalog, Parsed(stops), id, date) == Failure(EmptyItinerary)
  {
    var venues := Take(catalog, VenueFetchLimit);
    assert forall v :: v in venues ==> v in catalog;
    NoMatchesDoesNotFallBack(venues, stops);
  }
}
