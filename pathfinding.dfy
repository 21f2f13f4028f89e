/**
 * The search entry points: `find_connected` (multi-result priority-first
 * search), `find_direct` (filter and sort) and `best_a_star` (the
 * single-result search in connected mode, the head of the direct search
 * otherwise). The date of a timestamp is an uninterpreted function `day`.
 */
module Pathfinding {
  import opened Flights
  import opened Seqs
  import opened Graph
  import opened Search

  /** What `best_a_star` returns: None, one segment (direct mode) or a path (connected mode). */
  datatype Answer = NotFound | Leg(flight: Flight) | Route(legs: seq<Flight>)

  /** The flights departing on the given date. */
  function OnDate(flights: seq<Flight>, day: Timestamp -> int, date: int): seq<Flight> {
    Filter(flights, (f: Flight) => day(f.dep) == date)
  }

  /** A segment of the direct search: exact origin, destination and date. */
  predicate IsDirect(f: Flight, start: string, goal: string, date: int, day: Timestamp -> int) {
    f.origin == start && f.dest == goal && day(f.dep) == date
  }

  function Directs(flights: seq<Flight>, start: string, goal: string, date: int, day: Timestamp -> int): seq<Flight> {
    Filter(flights, (f: Flight) => IsDirect(f, start, goal, date, day))
  }

  /**
   * `find_direct`: the matching flights, each as often as in the input and
   * nothing else, ordered by non-decreasing flight time.
   */
  function FindDirect(flights: seq<Flight>, start: string, goal: string, date: int, day: Timestamp -> int): (r: seq<Flight>)
    ensures forall f :: multiset(r)[f] == if IsDirect(f, start, goal, date, day) then multiset(flights)[f] else 0
    ensures forall f :: f in r <==> f in flights && IsDirect(f, start, goal, date, day)
    ensures SortedBy(r, Duration)
  {
    var directs := Directs(flights, start, goal, date, day);
    FilterCounts(flights, (f: Flight) => IsDirect(f, start, goal, date, day));
    SortBy(directs, Duration)
  }

  /** Flights of equal duration keep their input order (`sorted` is stable). */
  lemma FindDirectStable(flights: seq<Flight>, start: string, goal: string, date: int, day: Timestamp -> int, d: int)
    ensures WithKey(FindDirect(flights, start, goal, date, day), Duration, d)
         == WithKey(Directs(flights, start, goal, date, day), Duration, d)
  {
    SortByStable(Directs(flights, start, goal, date, day), Duration, d);
  }

  /** What the multi-result search records on a graph, in the order it records them. */
  function Records(g: FlightGraph, start: string, goal: string, lim: Limits, quota: int): seq<Itinerary>
    requires WellFormed(g)
  {
    StartSound(g, start, goal, lim, false);
    Run(g, goal, lim, quota, Start(g, start, goal, false))
  }

  /** The results `find_connected` records, in the order it records them (before sorting). */
  function Connections(flights: seq<Flight>, start: string, goal: string, date: int, day: Timestamp -> int,
                       lim: Limits, quota: int): seq<Itinerary>
  {
    GraphOfEdges(OnDate(flights, day, date));
    Records(GraphOf(OnDate(flights, day, date)), start, goal, lim, quota)
  }

  /** A leg of a result is a record of the requested date that names both endpoints. */
  predicate LegsOnDate(legs: seq<Flight>, flights: seq<Flight>, date: int, day: Timestamp -> int) {
    forall k :: 0 <= k < |legs| ==> legs[k] in flights && day(legs[k].dep) == date && HasEndpoints(legs[k])
  }

  /** A result of the connected search, as `find_connected` promises it. */
  predicate Connection(it: Itinerary, flights: seq<Flight>, start: string, goal: string, date: int,
                       day: Timestamp -> int, lim: Limits)
  {
    && IsItinerary(it.legs, start, goal, lim)
    && it.cost == Elapsed(it.legs)
    && LegsOnDate(it.legs, flights, date, day)
  }

  /**
   * Every recorded result is a chained, non-repeating path of 2 to maxLegs
   * flights of that date from start to goal with every layover in the
   * window, its cost is its elapsed time, no two results share a visited
   * key, and there are at most quota of them.
   */
  lemma ConnectionsSound(flights: seq<Flight>, start: string, goal: string, date: int, day: Timestamp -> int,
                         lim: Limits, quota: int)
    ensures var r := Connections(flights, start, goal, date, day, lim, quota);
      && (forall it :: it in r ==> Connection(it, flights, start, goal, date, day, lim))
      && DistinctBy(r, RouteOrigins)
      && |r| <= (if quota < 0 then 0 else quota)
      && (lim.maxLegs <= 1 ==> r == [])
  {
    var flts := OnDate(flights, day, date);
    var g := GraphOf(flts);
    GraphOfEdges(flts);
    StartSound(g, start, goal, lim, false);
    var s := Start(g, start, goal, false);
    RunSound(g, start, goal, lim, quota, s);
    var r := Run(g, goal, lim, quota, s);
    forall it | it in r ensures Connection(it, flights, start, goal, date, day, lim) {
      assert Recorded(g, start, goal, lim, it);
      forall k | 0 <= k < |it.legs| ensures it.legs[k] in flights && day(it.legs[k].dep) == date && HasEndpoints(it.legs[k]) {
        assert IsEdge(g, it.legs[k]);
      }
    }
    if quota < 0 {
      assert r == [];
    }
    if r != [] {
      assert r[0] in r;
      assert lim.maxLegs >= 2;
    }
  }

  /** Sorting by cost keeps every property of the records and orders them by cost. */
  lemma SortedConnectionsSound(flights: seq<Flight>, start: string, goal: string, date: int, day: Timestamp -> int,
                               lim: Limits, quota: int)
    ensures var r := SortBy(Connections(flights, start, goal, date, day, lim, quota), CostOf);
      && (forall it :: it in r ==> Connection(it, flights, start, goal, date, day, lim))
      && SortedBy(r, CostOf)
      && DistinctBy(r, RouteOrigins)
      && |r| <= (if quota < 0 then 0 else quota)
      && (lim.maxLegs <= 1 ==> r == [])
  {
    var c := Connections(flights, start, goal, date, day, lim, quota);
    ConnectionsSound(flights, start, goal, date, day, lim, quota);
    SortByDistinctBy(c, CostOf, RouteOrigins);
  }

  /**
   * When no flight of the date runs backwards in time and the minimum
   * connection is not negative, results are recorded cheapest first, so the
   * final sort changes nothing.
   */
  lemma ConnectionsInCostOrder(flights: seq<Flight>, start: string, goal: string, date: int, day: Timestamp -> int,
                               lim: Limits, quota: int)
    requires lim.minConn >= 0
    requires forall f :: f in flights && day(f.dep) == date ==> Duration(f) >= 0
    ensures SortedBy(Connections(flights, start, goal, date, day, lim, quota), CostOf)
    ensures SortBy(Connections(flights, start, goal, date, day, lim, quota), CostOf)
         == Connections(flights, start, goal, date, day, lim, quota)
  {
    var flts := OnDate(flights, day, date);
    var g := GraphOf(flts);
    GraphOfEdges(flts);
    forall a, ed: Edge | a in g && ed in g[a] ensures Duration(ed.flight) >= 0 {
      assert IsEdge(g, ed.flight);
    }
    StartSound(g, start, goal, lim, false);
    RunInCostOrder(g, start, goal, lim, quota, Start(g, start, goal, false));
    SortBySorted(Connections(flights, start, goal, date, day, lim, quota), CostOf);
  }

  /**
   * The initial pushes: one entry per segment leaving the start, its
   * priority the segment's flight time (plus the heuristic when asked for),
   * numbered in order.
   */
  method SeedQueue(first: seq<Edge>, goal: string, withHeuristic: bool) returns (pq: seq<Entry>, counter: nat)
    ensures pq == InitialQueue(first, goal, withHeuristic)
    ensures counter == |first|
  {
    pq := [];
    counter := 0;
    for k := 0 to |first|
      invariant pq == InitialQueue(first[..k], goal, withHeuristic)
      invariant counter == k
    {
      var seg := first[k].flight;
      var h := if withHeuristic then Heuristic(seg.dest, goal) else 0;
      pq := pq + [Entry(seg.arr - seg.dep + h, counter, seg.dest, [seg])];
      counter := counter + 1;
    }
    assert first[..|first|] == first;
  }

  /**
   * The inner loop over the segments leaving the popped location: each one
   * not already on the path whose layover lies in the inclusive window is
   * pushed as an extension of the path, numbered from counter on.
   */
  method PushExtensions(pq: seq<Entry>, counter: nat, path: seq<Flight>, out: seq<Edge>, goal: string, lim: Limits)
    returns (pq': seq<Entry>, counter': nat)
    requires |path| > 0
    ensures pq' == pq + Pushes(path, out, goal, lim, counter)
    ensures counter' == counter + |Pushes(path, out, goal, lim, counter)|
  {
    pq', counter' := pq, counter;
    var lastArr := path[|path| - 1].arr;
    for j := 0 to |out|
      invariant pq' == pq + Pushes(path, out[..j], goal, lim, counter)
      invariant counter' == counter + |Pushes(path, out[..j], goal, lim, counter)|
    {
      var seg := out[j].flight;
      assert out[..j + 1][..j] == out[..j];
      if seg !in path {
        var layover := seg.dep - lastArr;
        if !(layover < 60 * lim.minConn || layover > 60 * lim.maxConn) {
          var newTotal := seg.arr - path[0].dep + Heuristic(seg.dest, goal);
          pq' := pq' + [Entry(newTotal, counter', seg.dest, path + [seg])];
          counter' := counter' + 1;
        }
      }
    }
    assert out[..|out|] == out;
  }

  /**
   * One turn of the `while pq` loop: pop the entry of least (priority,
   * counter); skip it if its key was visited; otherwise mark the key, record
   * the path if it reaches the goal with at least two legs, drop it if it
   * has maxLegs legs, and push its extensions otherwise.
   */
  method SearchTurn(g: FlightGraph, goal: string, lim: Limits,
                    pq: seq<Entry>, visited: set<Key>, found: seq<Itinerary>, counter: nat)
    returns (pq': seq<Entry>, visited': set<Key>, found': seq<Itinerary>, counter': nat)
    requires |pq| > 0 && forall e :: e in pq ==> |e.path| > 0
    ensures SearchState(pq', visited', found', counter')
         == Step(g, goal, lim, SearchState(pq, visited, found, counter))
  {
    var i := MinIndex(pq);
    var entry := pq[i];
    pq', visited', found', counter' := RemoveAt(pq, i), visited, found, counter;
    var key := (entry.loc, Origins(entry.path));
    if key in visited {
      return;
    }
    visited' := visited + {key};
    if entry.loc == goal && |entry.path| > 1 {
      found' := found + [Itinerary(entry.cost, entry.path)];
      return;
    }
    if |entry.path| >= lim.maxLegs {
      return;
    }
    pq', counter' := PushExtensions(pq', counter, entry.path, Out(g, entry.loc), goal, lim);
  }

  /**
   * The search loop of `find_connected` on a built graph: it seeds the heap
   * with the segments leaving start and turns until the heap is empty or
   * maxResults paths are recorded, giving the records in record order.
   */
  method ConnectedLoop(g: FlightGraph, start: string, goal: string, lim: Limits, maxResults: int)
    returns (found: seq<Itinerary>)
    requires WellFormed(g)
    ensures found == Records(g, start, goal, lim, maxResults)
  {
    var pq, counter := SeedQueue(Out(g, start), goal, false);
    var visited: set<Key> := {};
    found := [];
    StartSound(g, start, goal, lim, false);
    ghost var init := SearchState(pq, visited, found, counter);
    assert init == Start(g, start, goal, false);
    while |pq| > 0 && |found| < maxResults
      invariant Bounded(g, lim, SearchState(pq, visited, found, counter))
      invariant Run(g, goal, lim, maxResults, SearchState(pq, visited, found, counter))
             == Run(g, goal, lim, maxResults, init)
      decreases |Universe(g, MaxLen(lim)) - visited|, |pq|
    {
      ghost var before := SearchState(pq, visited, found, counter);
      StepProgress(g, goal, lim, before);
      pq, visited, found, counter := SearchTurn(g, goal, lim, pq, visited, found, counter);
    }
    assert found == Run(g, goal, lim, maxResults, SearchState(pq, visited, found, counter));
  }

  /**
   * `find_connected`: the records of the search, sorted by elapsed time;
   * each is a valid connection, they are in non-decreasing cost order, no
   * two share a visited key, and there are at most maxResults of them.
   */
  method FindConnected(flights: seq<Flight>, start: string, goal: string, date: int, day: Timestamp -> int,
                       lim: Limits, maxResults: int) returns (results: seq<Itinerary>)
    ensures results == SortBy(Connections(flights, start, goal, date, day, lim, maxResults), CostOf)
    ensures forall it :: it in results ==> Connection(it, flights, start, goal, date, day, lim)
    ensures SortedBy(results, CostOf)
    ensures DistinctBy(results, RouteOrigins)
    ensures |results| <= (if maxResults < 0 then 0 else maxResults)
    ensures lim.maxLegs <= 1 ==> results == []
  {
    var flts := OnDate(flights, day, date);
    var g := BuildGraph(flts);
    GraphOfEdges(flts);
    var found := ConnectedLoop(g, start, goal, lim, maxResults);
    results := SortBy(found, CostOf);
    SortedConnectionsSound(flights, start, goal, date, day, lim, maxResults);
  }

  /** The single-result search on a graph: the first record of the search with quota one. */
  function FirstRecord(g: FlightGraph, start: string, goal: string): Answer
    requires WellFormed(g)
  {
    StartSound(g, start, goal, DefaultLimits, true);
    var r := Run(g, goal, DefaultLimits, 1, Start(g, start, goal, true));
    if r == [] then NotFound else Route(r[0].legs)
  }

  /** The single-result search in connected mode, on the graph of the date's flights. */
  function FirstConnection(flights: seq<Flight>, start: string, goal: string, date: int, day: Timestamp -> int): Answer {
    GraphOfEdges(OnDate(flights, day, date));
    FirstRecord(GraphOf(OnDate(flights, day, date)), start, goal)
  }

  /**
   * With the zero heuristic the single-result search pops and pushes
   * exactly as `find_connected` with its default constraints: it answers the
   * first path that search records, and nothing exactly when it records nothing.
   */
  lemma AStarFindsFirstConnection(flights: seq<Flight>, start: string, goal: string, date: int, day: Timestamp -> int)
    ensures var r := Connections(flights, start, goal, date, day, DefaultLimits, DefaultMaxResults);
      FirstConnection(flights, start, goal, date, day) == if r == [] then NotFound else Route(r[0].legs)
  {
    var flts := OnDate(flights, day, date);
    GraphOfEdges(flts);
    FirstRecordIsFirst(GraphOf(flts), start, goal);
  }

  /** The zero heuristic leaves every initial priority as it is. */
  lemma HeuristicFreeStart(g: FlightGraph, start: string, goal: string)
    ensures Start(g, start, goal, true) == Start(g, start, goal, false)
  {
    var out := Out(g, start);
    assert InitialQueue(out, goal, true) == InitialQueue(out, goal, false);
  }

  lemma FirstRecordIsFirst(g: FlightGraph, start: string, goal: string)
    requires WellFormed(g)
    ensures var r := Records(g, start, goal, DefaultLimits, DefaultMaxResults);
      FirstRecord(g, start, goal) == if r == [] then NotFound else Route(r[0].legs)
  {
    HeuristicFreeStart(g, start, goal);
    StartSound(g, start, goal, DefaultLimits, false);
    var s := Start(g, start, goal, false);
    RunQuota(g, goal, DefaultLimits, 1, DefaultMaxResults, s);
    var r := Run(g, goal, DefaultLimits, DefaultMaxResults, s);
    if r != [] {
      assert Take(r, 1)[0] == r[0];
    }
  }

  /**
   * When no flight of the date runs backwards in time, the single-result
   * search answers the first, hence cheapest, result of `find_connected`.
   */
  lemma AStarIsCheapest(flights: seq<Flight>, start: string, goal: string, date: int, day: Timestamp -> int)
    requires forall f :: f in flights && day(f.dep) == date ==> Duration(f) >= 0
    ensures var r := SortBy(Connections(flights, start, goal, date, day, DefaultLimits, DefaultMaxResults), CostOf);
      && FirstConnection(flights, start, goal, date, day) == (if r == [] then NotFound else Route(r[0].legs))
      && (r != [] ==> forall it :: it in r ==> r[0].cost <= it.cost)
  {
    AStarFindsFirstConnection(flights, start, goal, date, day);
    ConnectionsInCostOrder(flights, start, goal, date, day, DefaultLimits, DefaultMaxResults);
  }

  /**
   * The connected branch of `best_a_star`: the same loop as `find_connected`
   * with 3 legs, a [30, 480] minute window and the heuristic added to every
   * priority, returning the first path that reaches the goal.
   */
  method ConnectedSearch(g: FlightGraph, start: string, goal: string) returns (r: Answer)
    requires WellFormed(g)
    ensures r == FirstRecord(g, start, goal)
  {
    var pq, counter := SeedQueue(Out(g, start), goal, true);
    var visited: set<Key> := {};
    var found: seq<Itinerary> := [];
    StartSound(g, start, goal, DefaultLimits, true);
    ghost var init := SearchState(pq, visited, found, counter);
    assert init == Start(g, start, goal, true);
    while |pq| > 0
      invariant found == []
      invariant Bounded(g, DefaultLimits, SearchState(pq, visited, found, counter))
      invariant Run(g, goal, DefaultLimits, 1, SearchState(pq, visited, found, counter))
             == Run(g, goal, DefaultLimits, 1, init)
      decreases |Universe(g, MaxLen(DefaultLimits)) - visited|, |pq|
    {
      ghost var before := SearchState(pq, visited, found, counter);
      StepProgress(g, goal, DefaultLimits, before);
      pq, visited, found, counter := SearchTurn(g, goal, DefaultLimits, pq, visited, found, counter);
      if found != [] {
        assert Run(g, goal, DefaultLimits, 1, SearchState(pq, visited, found, counter)) == found;
        return Route(found[0].legs);
      }
    }
    assert Run(g, goal, DefaultLimits, 1, SearchState(pq, visited, found, counter)) == [];
    return NotFound;
  }

  /**
   * The connected answer is nothing exactly when the multi-result search
   * with its defaults records nothing; otherwise it is a connection of 2 or
   * 3 legs from start to goal with layovers in [30, 480] minutes.
   */
  lemma FirstConnectionSound(flights: seq<Flight>, start: string, goal: string, date: int, day: Timestamp -> int)
    ensures var a := FirstConnection(flights, start, goal, date, day);
      && (a == NotFound <==> Connections(flights, start, goal, date, day, DefaultLimits, DefaultMaxResults) == [])
      && !a.Leg?
      && (a.Route? ==> IsItinerary(a.legs, start, goal, DefaultLimits) && LegsOnDate(a.legs, flights, date, day))
  {
    AStarFindsFirstConnection(flights, start, goal, date, day);
    ConnectionsSound(flights, start, goal, date, day, DefaultLimits, DefaultMaxResults);
    var r := Connections(flights, start, goal, date, day, DefaultLimits, DefaultMaxResults);
    if r != [] {
      assert r[0] in r;
    }
  }

  /**
   * The head of the direct search: there is none exactly when no flight
   * matches, and otherwise it is a matching flight of least duration.
   */
  lemma DirectHead(flights: seq<Flight>, start: string, goal: string, date: int, day: Timestamp -> int)
    ensures var d := FindDirect(flights, start, goal, date, day);
      && (d == [] <==> forall f :: f in flights ==> !IsDirect(f, start, goal, date, day))
      && (d != [] ==> d[0] in flights && IsDirect(d[0], start, goal, date, day)
                      && forall f :: f in flights && IsDirect(f, start, goal, date, day) ==> Duration(d[0]) <= Duration(f))
  {
    var d := FindDirect(flights, start, goal, date, day);
    if d != [] {
      assert d[0] in d;
      forall f | f in flights && IsDirect(f, start, goal, date, day) ensures Duration(d[0]) <= Duration(f) {
        assert f in d;
        var j :| 0 <= j < |d| && d[j] == f;
      }
    } else {
      forall f | f in flights ensures !IsDirect(f, start, goal, date, day) {
        assert f !in d;
      }
    }
  }

  /**
   * `best_a_star`: in connected mode the first record of the search with
   * 3 legs and a [30, 480] minute window, a connection from start to goal;
   * in direct mode the first flight `find_direct` returns, a direct flight of
   * least duration; None exactly when there is nothing to return.
   */
  method BestAStar(flights: seq<Flight>, start: string, goal: string, date: int, day: Timestamp -> int,
                   connected: bool) returns (r: Answer)
    ensures connected ==> r == FirstConnection(flights, start, goal, date, day)
    ensures connected ==>
      (r == NotFound <==> Connections(flights, start, goal, date, day, DefaultLimits, DefaultMaxResults) == [])
    ensures r.Route? ==> connected && IsItinerary(r.legs, start, goal, DefaultLimits)
                                   && LegsOnDate(r.legs, flights, date, day)
    ensures !connected ==>
      r == (var d := FindDirect(flights, start, goal, date, day); if d == [] then NotFound else Leg(d[0]))
    ensures !connected ==>
      (r == NotFound <==> forall f :: f in flights ==> !IsDirect(f, start, goal, date, day))
    ensures r.Leg? ==> && !connected && r.flight in flights && IsDirect(r.flight, start, goal, date, day)
                       && forall f :: f in flights && IsDirect(f, start, goal, date, day) ==>
                            Duration(r.flight) <= Duration(f)
  {
    var flts := OnDate(flights, day, date);
    var g := BuildGraph(flts);
    GraphOfEdges(flts);
    if connected {
      FirstConnectionSound(flights, start, goal, date, day);
      r := ConnectedSearch(g, start, goal);
    } else {
      DirectHead(flights, start, goal, date, day);
      var directs := FindDirect(flights, start, goal, date, day);
      if |directs| > 0 {
        return Leg(directs[0]);
      }
      return NotFound;
    }
  }
}
