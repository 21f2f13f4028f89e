# Flight itinerary search, modelled in Dafny

This project models the itinerary-search core of `testing.py` from the
flight-pathfinder repository: the adjacency-map builder `build_graph`, the
multi-result connected search `find_connected` (a Dijkstra-style
priority-first search over a heap of `(cost, counter, location, path)`
entries with a visited set keyed on `(location, origins of the path)`), the
direct search `find_direct` (filter by origin, destination and date, then a
stable sort by flight time), the zero `heuristic`, and the single-result
search `best_a_star` (the same loop with 3 legs, a [30, 480] minute layover
window and the heuristic in connected mode; the head of the direct search
otherwise).

Layout:

- `flights.dfy` (module `Flights`): a flight segment as a value, the
  itinerary limits and their defaults, and the predicates that define a
  valid connecting itinerary (chained, no repeated segment, 2 to `maxLegs`
  legs, every layover within `[minConn, maxConn]` minutes, both bounds
  inclusive).
- `seqs.dfy` (module `Seqs`): the list comprehension filter and Python's
  stable `sorted` with an integer key, with permutation, sortedness and
  stability lemmas.
- `graph.dfy` (module `Graph`): `build_graph` as a loop over the records,
  proved equal to a declarative graph `GraphOf`, whose lists are proved to
  hold each complete record under its origin as often as it occurs in the
  input, in input order.
- `search.dfy` (module `Search`): the search loop as a state machine.
  `Step` is one turn of the `while pq` loop, `Run` repeats it until the
  heap is empty or a quota of results is recorded. It carries the
  termination argument, the loop invariant (`Sound`) and the cost-order
  invariant.
- `pathfinding.dfy` (module `Pathfinding`): the three entry points as
  methods and functions, each proved against `Run`, `SortBy` and `Filter`.

Modelling choices:

- Departure and arrival times are integer seconds (`Timestamp`). The date
  of a flight is the value of a parameter `day` at its departure time, so
  `get_dep_time(f).date() == date` becomes `day(f.dep) == date`.
- A missing `from` or `to` is the empty string. `build_graph` drops a
  record when either field is missing or empty (`not a or not b`).
- The float layover test `secs / 60 < min_conn` is the exact integer test
  `secs < 60 * min_conn` (likewise for `max_conn`).
- The heap is a sequence. `heappop` removes an entry that is least in the
  lexicographic order on `(cost, counter)`. Counters are distinct
  (`Search.DistinctCounters`), so this entry is unique and the comparison
  never reaches the location or the path.
- Segment values are compared by value in `seg in path`, as Python compares
  dictionaries.
- The loop body is shared between the two searches as `SearchTurn`. The
  seeding loop is `SeedQueue` and the inner loop over outgoing segments is
  `PushExtensions`. The `while` loop of `find_connected` is
  `ConnectedLoop`, and that of `best_a_star` is `ConnectedSearch`. `best_a_star` inlines these loops with the constants
  3, 30 and 480, which the model passes as `DefaultLimits`.
- Termination uses the measure `(number of visited keys still possible,
  heap size)`, ordered lexicographically. A turn either visits a new key
  from the finite set of keys the graph allows, or pops a known key and
  shrinks the heap.

## Model

| member | source | states |
|---|---|---|
| Graph.BuildGraph | testing.py:53-60 | the loop over the records builds exactly `GraphOf(fs)`, the declarative adjacency map |
| Graph.GraphOfEdges | testing.py:53-60 | every pair `(b, f)` under `a` has `f.from == a` and `f.to == b`; a flight is listed under its origin iff it is in the input and names both endpoints (others are dropped); no list is longer than the input |
| Graph.DeparturesCount | testing.py:53-60 | each complete record leaving `a` occurs in `a`'s list exactly as often as in the input; nothing else occurs there |
| Graph.DeparturesAppend | testing.py:55-59 | input order: the list for the records `fs1 + fs2` is the list for `fs1` followed by the list for `fs2` |
| Graph.GraphOfSnoc | testing.py:56-59 | one more record appends one edge to its origin's list if it names both endpoints, and changes nothing otherwise |
| Graph.DeparturesSound | testing.py:56-59 | every edge listed under `a` is a complete input record leaving `a`, keyed by its own destination |
| Seqs.Filter | testing.py:103 | the comprehension keeps exactly the elements satisfying the condition and is no longer than its input |
| Seqs.FilterCount | testing.py:135 | each kept element occurs as often as in the input, a dropped one never |
| Seqs.SortBy | testing.py:132 | `sorted` returns a permutation of its input (same multiset, same length) in non-decreasing key order |
| Seqs.SortByStable | testing.py:136 | `sorted` is stable: the elements with any given key keep their relative input order |
| Seqs.SortBySorted | testing.py:132 | sorting a list that is already in key order returns it unchanged |
| Seqs.SortByDistinctBy | testing.py:132 | sorting keeps pairwise-distinct keys (here visited keys) pairwise distinct |
| Search.Heuristic | testing.py:99-100 | the estimate is never negative |
| Search.HeuristicAdmissible | testing.py:99-100 | the zero estimate never exceeds the remaining time of a chained continuation to the goal whose legs and layovers take non-negative time |
| Search.MinIndex | testing.py:112 | `heappop` takes an entry no other entry precedes in `(cost, counter)` order |
| Search.PushesShape | testing.py:123-131 | the k-th entry pushed while scanning the outgoing segments extends the path by one connectable segment of the list (not on the path, layover within the window), has cost = arrival of that segment minus the path's first departure + heuristic, and carries counter `c + k` |
| Search.PushesComplete | testing.py:123-131 | conversely, every scanned segment that is not on the path and whose layover lies in the window is pushed, as the path extended by that segment |
| Search.StepProgress | testing.py:111-131 | each turn keeps every entry a path of 1 to `max_legs` graph edges and either visits a new possible key or shrinks the heap: the loop terminates |
| Search.StepOncePerKey | testing.py:113-116 | one turn never removes a visited key; if it records a result or pushes an extension (the results or the counter change), the popped key was not visited before and the turn adds exactly that key |
| Search.StartSound | testing.py:106-109 | the initial heap holds one sound one-leg entry per segment leaving `start`, numbered 0, 1, ... |
| Search.StepSound | testing.py:111-131 | each turn keeps the loop invariant: heap entries are partial routes from `start` with distinct counters below the next one; results are recorded itineraries whose keys are visited and pairwise distinct |
| Search.RunSound | testing.py:111-131 | every result is a 2..`max_legs`-leg itinerary from start to goal over graph edges, chained, with no repeated segment and every layover in the window, whose cost is its elapsed time; no two results share a visited key; at most `quota` results |
| Search.RunExtends | testing.py:118 | results are only appended: those already recorded remain a prefix |
| Search.RunQuota | testing.py:111-119 | a search with a smaller quota records the first results of the same search with a larger one |
| Search.RunInCostOrder | testing.py:111-131 | when no flight lands before it leaves and the minimum connection is not negative, results are recorded in non-decreasing cost order |
| Pathfinding.SeedQueue | testing.py:106-109 | the initial pushes are exactly one entry per segment leaving `start`, in list order, priced by flight time (plus the heuristic in `best_a_star`), with counters 0, 1, ...; the next counter is the number of such segments |
| Pathfinding.PushExtensions | testing.py:122-131 | the inner loop appends exactly the entries the search's specification pushes for the popped path and advances the counter by their number |
| Pathfinding.SearchTurn | testing.py:112-131 | one pass of the loop body updates heap, visited set, results and counter exactly as one step of the search's specification |
| Pathfinding.ConnectedLoop | testing.py:105-131 | the seeded `while pq and len(results) < max_results` loop returns exactly the records of the search's specification with quota `max_results`, in the order they are recorded |
| Pathfinding.SortedConnectionsSound | testing.py:132 | sorting the records by cost keeps every property of each result, orders them by non-decreasing cost and keeps their visited keys distinct |
| Pathfinding.FindConnected | testing.py:102-132 | returns the search's records sorted by cost; each is a chained itinerary from start to end over flights of that date, with 2 to `max_legs` legs, no repeated segment, every layover within `[min_conn, max_conn]` minutes inclusive, and cost = last arrival minus first departure; the list is non-decreasing in cost, has no two results with the same visited key, has at most `max_results` entries (none when `max_results <= 0`) and is empty when `max_legs <= 1` |
| Pathfinding.ConnectionsSound | testing.py:102-132 | the same properties for the records before sorting, each leg being a record of the requested date that names both endpoints |
| Pathfinding.ConnectionsInCostOrder | testing.py:111-132 | when flight times and the minimum connection are non-negative, the records are already in cost order and the final sort leaves them unchanged |
| Pathfinding.FindDirect | testing.py:134-136 | returns exactly the flights with `from == start`, `to == end` and the requested date, each as often as in the input, in non-decreasing order of `arr - dep` |
| Pathfinding.FindDirectStable | testing.py:136 | flights of equal duration keep their input order |
| Pathfinding.DirectHead | testing.py:169-171 | the head of the direct search is absent exactly when no flight matches; otherwise it is a matching flight of least duration |
| Pathfinding.ConnectedSearch | testing.py:143-168 | the connected branch returns the first path the search records with quota one, `DefaultLimits` and the heuristic, or None when it records nothing |
| Pathfinding.FirstRecordIsFirst | testing.py:138-168 | on any well-formed graph, the quota-one search with the heuristic answers the first record of the default multi-result search, and None exactly when that records nothing |
| Pathfinding.AStarFindsFirstConnection | testing.py:138-168 | `best_a_star(connected=True)` returns the first path `find_connected` with default constraints records, and None exactly when that records nothing |
| Pathfinding.AStarIsCheapest | testing.py:138-168 | when no flight of the date lands before it leaves, the connected answer is the head of `find_connected`'s sorted results, which costs no more than any of them |
| Pathfinding.FirstConnectionSound | testing.py:138-168 | the connected answer is None iff the default multi-result search records nothing; otherwise it is a 2- or 3-leg itinerary from start to end over flights of the date, chained, without repeated segment, every layover within [30, 480] minutes |
| Pathfinding.BestAStar | testing.py:138-171 | connected mode: the answer above; direct mode: the first flight of `find_direct`, None exactly when no flight matches, and otherwise a matching flight of least duration |

## Left out

- Loading the JSON cache, the hard-coded file path and the collection of airports and carriers in the main block: file I/O and orchestration.
- Interactive prompting, input validation and retry loops: console I/O.
- `display_itinerary`, `travel_duration`, `format_dur`, the airline-name table and `airline_name`: presentation only.
- ISO-8601 parsing and the key fall-backs of `get_dep_time`/`get_arr_time`: timestamps are given integers, and the date of a departure is the parameter `day`.
- Float arithmetic on seconds and minutes: replaced by exact integer comparisons. Rounding of very large float values is not modelled.
- The binary-heap layout of `heapq`: the model keeps the heap as a sequence and extracts a least `(cost, counter)` entry. Counters are distinct, so the popped entry is the same.
- Dictionary keys beyond `from`, `to`, the two times, price, carrier and flight number: two records that differ only in such other keys are equal segments in the model, while `seg in path` would tell them apart.
- Pathfinding.FindDirect: a record without a `from` key (or a matching record without a `to` key) makes the source raise `KeyError`; the model reads the missing field as the empty string and simply does not match it (unless `start` or `end` is itself empty).
- Search.RunInCostOrder: cost order is proved when every flight of the date takes non-negative time and `min_conn >= 0`; with a flight that lands before it leaves, a later record can cost less, so the docstring's "Finds shortest-duration route" (testing.py:5) is proved for the first result only under those premises. Completeness (that every valid itinerary is found) is not claimed, because the visited set deliberately merges paths with the same location and origins.
