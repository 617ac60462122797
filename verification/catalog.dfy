/** The records the planner reads and produces: catalog venues, itinerary
    items and the stops proposed by the generation service. */
module Catalog {
  import opened Wrappers

  /** A catalog venue as the planner reads it. `rating` is an integer key
      (tenths of a star, say) in place of the float; `estimatedDuration` is
      the typical visit length in minutes. */
  datatype Venue = Venue(
    id: string,
    name: string,
    category: string,
    priceRange: string,
    rating: int,
    description: string,
    popularItems: seq<string>,
    openingHours: string,
    estimatedDuration: int,
    bookingUrl: Option<string>)

  /** One time-boxed visit of a plan; the times are the rendered `HH:MM`
      strings (or whatever text the generation service proposed). */
  datatype Item = Item(venue: Venue, startTime: string, endTime: string, notes: string)

  /** One entry of the `itinerary` list parsed from the generation service's
      JSON: each key may be missing. */
  datatype ProposedStop = ProposedStop(
    venueName: Option<string>,
    startTime: Option<string>,
    endTime: Option<string>,
    notes: Option<string>)

  /** What the call to the generation service and the JSON parsing produced:
      an exception, or the parsed `itinerary` list (empty when the key is
      absent). */
  datatype GenerationOutcome = ServiceFailed | Parsed(stops: seq<ProposedStop>)

  /** The venues an itinerary visits, in order. */
  function VenuesOf(items: seq<Item>): (vs: seq<Venue>)
    ensures |vs| == |items|
    ensures forall i :: 0 <= i < |items| ==> vs[i] == items[i].venue
  {
    seq(|items|, i requires 0 <= i < |items| => items[i].venue)
  }

  function Min(a: int, b: int): int {
    if a < b then a else b
  }

  /** Python's `s[:n]` for a non-negative `n`: the slice of the candidates
      the fallback keeps, and the documents `to_list(n)` reads. */
  function Take<T>(s: seq<T>, n: nat): (r: seq<T>)
    ensures |r| == Min(n, |s|)
    ensures r <= s
  {
    if n < |s| then s[..n] else s
  }
}
