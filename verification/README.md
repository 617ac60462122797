# PlanMyDay planner core, modelled in Dafny

PlanMyDay is a small FastAPI backend. Given a location, a budget and some
interests, it fetches the weather, reads candidate venues from MongoDB and
builds a one-day itinerary. That itinerary is an ordered list of time-boxed
venue visits. It is produced in one of two ways:

- A generative model proposes stops, and the planner matches them back to
  catalog venues by case-insensitive name containment.
- If anything in that path raises, a deterministic fallback plans the five
  best-rated venues back to back from 09:00, with a 30-minute buffer after
  each visit.

The model assumes that every catalog document is a complete venue record:
it carries `name`, `category`, `description`, `rating`, `estimated_duration`
and the other `Venue` fields. "Left out" says what the source does when a
document does not.

`create_day_plan` then rejects an empty itinerary and prices the rest from a
fixed table of price tiers.

This project models that decision logic as pure functions over sequences:

| module | file | models |
|---|---|---|
| `Wrappers` | wrappers.dfy | `Option` (a dictionary key that may be missing) and `Result` (a value, or an exception) |
| `Text` | text.dfy | `str.lower()` and Python's `needle in hay` for strings |
| `Clock` | clock.dfy | the running clock as a minute count, and `strftime("%H:%M")`, which wraps at midnight |
| `Catalog` | catalog.dfy | the `Venue` and `ItineraryItem` records, and the parsed stops proposed by the generation service |
| `Ranking` | ranking.dfy | `sorted(venues, key=rating, reverse=True)` as a stable descending insertion sort |
| `Fallback` | fallback.dfy | `AIPlanner.fallback_planning` |
| `Matching` | matching.dfy | the stop-matching loop of `AIPlanner.generate_itinerary` |
| `Planner` | planner.dfy | `AIPlanner.generate_itinerary`: the choice between the matched stops and the fallback |
| `DayPlanning` | dayplan.dfy | the empty-itinerary check and cost estimate of `create_day_plan` |

A rating is an integer key, for example tenths of a star. A clock value is a
count of minutes since midnight of the day the `datetime` is anchored on.
`Clock.Render` is the `%H:%M` text of a clock value, and `Clock.Parse` reads
that text back into a minute of the day. The timing properties of the
fallback say which clock value each rendered time shows. Two lemmas,
`Clock.ParseRender` and `Clock.RenderParse`, show that rendering keeps exactly
the clock value modulo 1440. `Clock.ParseRenderShift` then reads a shift of
the running clock back from the rendered text.

The generation service call and the JSON parsing are not modelled. Their
result is an input of type `GenerationOutcome`: either `ServiceFailed`, or
`Parsed(stops)`, where each stop may lack any of its keys. A reply without
an `itinerary` key reads as `Parsed([])`, because the loop iterates over
`ai_data.get("itinerary", [])`. The identifier and
date of a plan are parameters, since they stand for `uuid4()` and
`datetime.now()`.

A generation whose stops are all named but match no venue returns an empty
list, and `create_day_plan` then rejects it: only an exception switches to
the fallback (backend/server.py:157-172, 206-207). See
`Planner.NoMatchesDoesNotFallBack` and `DayPlanning.NoMatchesRejected`.

## Model

| member | source | states |
|---|---|---|
| `Text.ContainsIsSubstring` | backend/server.py:160 | the left-to-right substring scan returns true exactly when the needle occurs at some position of the haystack; this is the meaning of Python's `in` on strings, so the empty name occurs everywhere |
| `Text.Lower` | backend/server.py:160 | the model's `Lower`, which stands for `str.lower()`, keeps the length and folds each character on its own; `LowerChar` maps `A`..`Z` to `a`..`z` and keeps every other character |
| `Text.LowerIdempotent` | backend/server.py:160 | lower-casing an already lower-cased name changes nothing |
| `Text.LowerIgnoresCase` | backend/server.py:160 | two strings lower-case to the same string if and only if they have the same length and agree position by position up to ASCII letter case |
| `Matching.NameMatchesIgnoresCase` | backend/server.py:160 | changing the letter case of the venue name or of the stop's venue name does not change whether they match |
| `Clock.Render` | backend/server.py:185-186 | `strftime("%H:%M")` is five characters with a colon in the middle; `Clock.ParseRender` says which minute of the day it shows |
| `Clock.ParseRender` | backend/server.py:185-186 | reading back the `%H:%M` text of any clock value, including negative values or values past midnight, gives that value modulo 1440 |
| `Clock.RenderParse` | backend/server.py:185-186 | every well-formed `HH:MM` string is the rendering of the minute it denotes, so rendering loses nothing but whole days |
| `Clock.RenderSameIffSameTimeOfDay` | backend/server.py:185-186 | two clock values render to the same text if and only if they are a whole number of days apart |
| `Clock.ParseRenderShift` | backend/server.py:182-189 | advancing the clock by d minutes advances the rendered time of day by d minutes, wrapping at midnight |
| `Ranking.SortByRatingDesc` | backend/server.py:176 | the sort is a permutation of its input: same length, same venues with the same multiplicities |
| `Ranking.SortIsStableDescending` | backend/server.py:176 | ratings never increase along the sorted list, and the venues of each rating keep their input order |
| `Ranking.InsertSorted` | backend/server.py:176 | a step of the model's insertion sort, not behaviour of the cited line (which runs Python's Timsort): inserting a venue into a list sorted by descending rating keeps it sorted |
| `Ranking.InsertRatedAt` | backend/server.py:176 | a step of the model's insertion sort, not behaviour of the cited line (which runs Python's Timsort): the inserted venue goes in front of the venues of its own rating, and the selection for every other rating is unchanged |
| `Ranking.StableDescendingUnique` | backend/server.py:176 | two lists sorted by descending rating that agree, rating by rating, on the order of their venues are equal |
| `Ranking.SortIsTheStableArrangement` | backend/server.py:176 | any stable descending arrangement of the venues is the one the sort produces |
| `Catalog.Take` | backend/server.py:176 | `s[:n]` is the prefix of `s` of length min(n, len(s)) |
| `Ranking.TakeOfStableDescending` | backend/server.py:176 | cutting a stably sorted list keeps it sorted, keeps for each rating the earliest venues of that rating, and nothing kept is rated below anything cut |
| `Fallback.FallbackPlanning` | backend/server.py:174-190 | the fallback plans exactly min(5, number of venues) items, every item's venue is a candidate venue, and every note is "A great choice." |
| `Fallback.Schedule` | backend/server.py:178-189 | packing produces one visit per venue, in the same order |
| `Fallback.ScheduleTiming` | backend/server.py:178-189 | on the running clock, the first visit starts at the anchor, each visit lasts its venue's duration, and each next visit starts 30 minutes after the previous one ends |
| `Fallback.ScheduleClosedForm` | backend/server.py:178-189 | the i-th visit starts at the anchor plus the durations and buffers of the visits before it |
| `Fallback.FallbackRanking` | backend/server.py:176 | the planned venues come in non-increasing rating order; for each rating they are the earliest venues of that rating, in input order; no venue left out is rated above a planned one |
| `Fallback.FallbackIsTopOfStableSort` | backend/server.py:176 | the planned venues are the first five of any stable descending arrangement of the candidates |
| `Fallback.FallbackStartsAtNine` | backend/server.py:178-185 | for a non-empty catalog the first item starts at "09:00", which is minute 540 |
| `Fallback.FallbackTimes` | backend/server.py:178-189 | the i-th item's start text renders 09:00 plus the durations and 30-minute buffers of the venues planned before it; its end text renders that clock plus the venue's estimated duration |
| `Fallback.FallbackGap` | backend/server.py:182-189 | the item after the i-th starts on the clock where the i-th ends, plus 30 minutes |
| `Matching.FirstMatchIndex` | backend/server.py:160 | the returned venue is the first venue, in candidate order, whose lower-cased name occurs in the stop's lower-cased venue name; None is returned exactly when no venue matches |
| `Matching.MatchStops` | backend/server.py:157-168 | the loop raises exactly when the catalog is non-empty and some stop lacks `venue_name`; otherwise it keeps at most one item per stop, each attached to a catalog venue |
| `Matching.MatchStopsAppend` | backend/server.py:159-168 | each stop is handled on its own: matching concatenated proposals concatenates the results, and fails when either part fails |
| `Matching.MatchSingleStop` | backend/server.py:159-167 | a stop that names a venue is kept if and only if some venue name occurs in it, ignoring case; it is attached to the first such venue; a missing time becomes "N/A" and missing notes become "" |
| `Matching.UnmatchedStopIsDropped` | backend/server.py:159-168 | removing an unmatched stop from the proposals leaves the result unchanged, so kept stops stay in proposal order |
| `Matching.EmptyCatalogMatchesNothing` | backend/server.py:159-168 | with no venues, no stop is kept and nothing raises, even when a stop lacks `venue_name` |
| `Matching.MatchIgnoresCase` | backend/server.py:160 | a stop naming "the coffee corner" matches the venue "The Coffee Corner" |
| `Planner.GenerateItinerary` | backend/server.py:141-172 | every item the planner returns visits a catalog venue |
| `Planner.FallbackIffRaised` | backend/server.py:141-172 | the fallback is used when the service call or parsing raised, or when a stop lacks its venue name while the catalog is non-empty; otherwise the matched items are returned |
| `Planner.EmptyItineraryIff` | backend/server.py:157-172 | the planner returns no items exactly when the catalog is empty or the matching loop finished without keeping a stop |
| `Planner.NoMatchesDoesNotFallBack` | backend/server.py:159-172 | a generation whose stops match no venue yields an empty itinerary, even though the fallback would have planned something |
| `DayPlanning.EstimatedCost` | backend/server.py:209-210 | the estimated cost is at most 150 per visit |
| `DayPlanning.CostAppend` | backend/server.py:210 | the cost of concatenated itineraries is the sum of their costs |
| `DayPlanning.CostByTierCounts` | backend/server.py:209-210 | the cost is 25, 50, 100 and 150 times the number of `$`, `$$`, `$$$` and `$$$$` visits; any other tier counts 0 |
| `DayPlanning.CostExample` | backend/server.py:209-210 | a `$$` venue and a `$` venue cost 75, and adding a `Free` venue costs nothing more |
| `DayPlanning.AssemblePlan` | backend/server.py:206-221 | the plan is rejected if and only if the itinerary is empty; an accepted plan carries that itinerary and the requested budget unchanged, and its estimated cost is the price-map sum of that itinerary, at most 150 per visit |
| `DayPlanning.CreateDayPlan` | backend/server.py:199-221 | the request is rejected if and only if the catalog is empty or the generated stops were parsed and matching kept none of them; an accepted plan carries exactly the planner's itinerary for the first 100 catalog documents, has at least one visit, the requested budget and the price-map cost of its itinerary, and visits only venues among the first 100 catalog documents read |
| `DayPlanning.EmptyCatalogRejected` | backend/server.py:203-207 | with an empty catalog, plan creation fails whatever the generation service proposed |
| `DayPlanning.ServiceFailureStillPlans` | backend/server.py:199-221 | for a catalog of complete venue documents: when the generation service fails and the catalog is not empty, a plan with 1 to 5 visits is created |
| `DayPlanning.MatchedStopsPlanned` | backend/server.py:157-221 | when matching the generated stops keeps at least one of them, the plan is accepted and its itinerary is exactly the matched items |
| `DayPlanning.NoMatchesRejected` | backend/server.py:203-207 | a generation whose stops match no catalog venue makes plan creation fail instead of falling back |

## Left out

- The weather lookup (`WeatherService.get_current_weather`). It is an HTTP call with a constant fallback record of floats, and it has no effect on the itinerary.
- The OpenAI call, the prompt text and `json.loads`. They are a foreign service and library parsing. Their outcome is the `GenerationOutcome` input. The prompt lists only the first 15 venues, but the matching loop compares against every venue read, and the model does the same.
- Parsed stops that are not dictionaries, and stop values of the wrong type. A stop that is not a dictionary raises `TypeError` at `item["venue_name"]`, and a `venue_name` that is not a string raises `AttributeError` at `.lower()` (backend/server.py:160); both happen only when the catalog is non-empty, because with no venues the generator never reads the stop. A time or notes value that is not a string fails pydantic validation, depending on the pydantic version (version 1 coerces numbers to strings; both versions reject lists and dictionaries), and only for a stop that matched (backend/server.py:162-167). Every one of these raises, and so leads to the fallback. The model's stop type has only optional string fields.
- Incomplete catalog documents. The model assumes every document carries `name`, `category`, `description`, `rating`, `estimated_duration` and the other `Venue` fields. A missing key raises `KeyError` in three places:
  - `v['category']` or `v['description']` while building the prompt (backend/server.py:143). This is inside the `try`, so it leads to the fallback.
  - `x['rating']` in the fallback's sort key (backend/server.py:176).
  - `venue_data['estimated_duration']` in the fallback loop (backend/server.py:182).
  The last two run inside the `except` handler (backend/server.py:170-172). Their `KeyError` escapes the planner and becomes the 500 error of `create_day_plan` (backend/server.py:226-227). A document with all these keys but a missing `Venue` field fails `Venue(**doc)` in the same way. An ill-typed field may fail it too, depending on the pydantic version: version 1 coerces, so a float `estimated_duration` of 45.5 becomes 45 in the `Venue` while the fallback adds 45.5 minutes from the raw document (backend/server.py:182). The model assumes `estimated_duration` is an integer number of minutes.
- The documents written by `backend/populate_db.py` (lines 7-69) do not meet that assumption. None has `estimated_duration`, `id`, `opening_hours` or `location.address`, and some have no `description`. With that catalog, the prompt raises `KeyError`, the fallback then raises `KeyError: 'estimated_duration'`, and every plan request fails with the 500 error.
- Text.Lower: only the ASCII letters A to Z are folded. Python's `str.lower()` also folds other Unicode letters, and that table is not modelled. It can also lengthen a string (`'İ'.lower()` is two code points) and lowers capital sigma depending on context (`'ΣΑΣ'.lower()` is `'σας'`), so the per-character, length-keeping fold holds only for the model's `Lower`.
- Float ratings, and the NaN ordering they allow. A rating is an integer key.
- Venue coordinates, the request's location and interests, group size, and the plan's weather snapshot and `created_at`. They are not used by the planning decisions.
- Clock.Render: the `OverflowError` that `datetime` raises outside years 1 to 9999 is not modelled. The clock is anchored at 1900-01-01 09:00. Going back past year 1 takes negative durations totalling about 1900 years. Going forward past year 9999 takes about 8100 years.
- The text of the 500 error. The exception handler in `create_day_plan` re-wraps the failure message. The model returns the `EmptyItinerary` error instead.
- FastAPI routing and CORS, `init_sample_data`, MongoDB reads and writes (the plan insert included), the health endpoint, and `backend/populate_db.py`. These are framework plumbing and database I/O, with no decision logic.
