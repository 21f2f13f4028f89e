/**
 * The priority-first search shared by `find_connected` and `best_a_star`,
 * stated as a state machine: `Step` is one turn of their `while pq` loop
 * (pop the least `(cost, counter)` entry, skip it if its visited key is
 * known, record it if it reaches the goal with more than one leg, stop at
 * the leg cap, otherwise push every admissible extension) and `Run` repeats
 * it until the heap is empty or `quota` results are recorded.
 */
module Search {
  import opened Flights
  import opened Graph
  import opened Seqs

  /** A heap entry `(cost, counter, location, path)`. */
  datatype Entry = Entry(cost: int, seqNo: nat, loc: string, path: seq<Flight>)

  /** A recorded result `(total_sec, path)`. */
  datatype Itinerary = Itinerary(cost: int, legs: seq<Flight>)

  /** The visited key: the location and the tuple of origins along the path. */
  type Key = (string, seq<string>)

  /** The loop variables: heap, visited set, results so far and the next counter value. */
  datatype SearchState = SearchState(pq: seq<Entry>, visited: set<Key>, found: seq<Itinerary>, counter: nat)

  /**
   * The estimate of the remaining time from loc to goal. The source's estimate
   * is the constant zero, which never exceeds the remaining time of any
   * well-timed continuation (lemma HeuristicAdmissible).
   */
  function Heuristic(loc: string, goal: string): (h: int)
    ensures h >= 0
  {
    0
  }

  function Origins(p: seq<Flight>): seq<string> {
    seq(|p|, i requires 0 <= i < |p| => p[i].origin)
  }

  function KeyOf(e: Entry): Key {
    (e.loc, Origins(e.path))
  }

  function RouteOrigins(it: Itinerary): seq<string> {
    Origins(it.legs)
  }

  function CostOf(it: Itinerary): int {
    it.cost
  }

  /** The heap order: lexicographic on (cost, counter). */
  predicate Before(x: Entry, y: Entry) {
    x.cost < y.cost || (x.cost == y.cost && x.seqNo < y.seqNo)
  }

  /** Where `heappop` takes its entry from: a least entry of the heap. */
  function MinIndex(pq: seq<Entry>): (i: nat)
    requires |pq| > 0
    ensures i < |pq|
    ensures forall j :: 0 <= j < |pq| ==> !Before(pq[j], pq[i])
  {
    if |pq| == 1 then 0
    else
      var k := MinIndex(pq[..|pq| - 1]);
      if Before(pq[|pq| - 1], pq[k]) then |pq| - 1 else k
  }

  function RemoveAt(pq: seq<Entry>, i: nat): seq<Entry>
    requires i < |pq|
  {
    pq[..i] + pq[i + 1..]
  }

  /** A segment may follow the path: not yet used and inside the layover window. */
  predicate CanConnect(path: seq<Flight>, seg: Flight, lim: Limits)
    requires |path| > 0
  {
    seg !in path && 60 * lim.minConn <= seg.dep - Last(path).arr <= 60 * lim.maxConn
  }

  /** The entry pushed for path + [seg]: elapsed time plus the heuristic term. */
  function Extend(path: seq<Flight>, seg: Flight, goal: string, c: nat): Entry
    requires |path| > 0
  {
    Entry(seg.arr - path[0].dep + Heuristic(seg.dest, goal), c, seg.dest, path + [seg])
  }

  /** The entries pushed while scanning edges, in order, with counters from c on. */
  function Pushes(path: seq<Flight>, edges: seq<Edge>, goal: string, lim: Limits, c: nat): seq<Entry>
    requires |path| > 0
    decreases |edges|
  {
    if edges == [] then []
    else
      var prev := Pushes(path, edges[..|edges| - 1], goal, lim, c);
      var seg := edges[|edges| - 1].flight;
      if CanConnect(path, seg, lim) then prev + [Extend(path, seg, goal, c + |prev|)] else prev
  }

  /** The one-leg entry for the k-th edge out of the start. */
  function FirstLeg(f: Flight, goal: string, withHeuristic: bool, k: nat): Entry {
    Entry(Duration(f) + (if withHeuristic then Heuristic(f.dest, goal) else 0), k, f.dest, [f])
  }

  function InitialQueue(edges: seq<Edge>, goal: string, withHeuristic: bool): seq<Entry> {
    seq(|edges|, k requires 0 <= k < |edges| => FirstLeg(edges[k].flight, goal, withHeuristic, k))
  }

  /** The state before the loop: one entry per segment leaving start. */
  function Start(g: FlightGraph, start: string, goal: string, withHeuristic: bool): SearchState {
    SearchState(InitialQueue(Out(g, start), goal, withHeuristic), {}, [], |Out(g, start)|)
  }

  /** One turn of the `while pq` loop. */
  function Step(g: FlightGraph, goal: string, lim: Limits, s: SearchState): SearchState
    requires |s.pq| > 0
    requires forall e :: e in s.pq ==> |e.path| > 0
  {
    var i := MinIndex(s.pq);
    var e := s.pq[i];
    var rest := RemoveAt(s.pq, i);
    var key := KeyOf(e);
    if key in s.visited then s.(pq := rest)
    else if e.loc == goal && |e.path| > 1 then
      SearchState(rest, s.visited + {key}, s.found + [Itinerary(e.cost, e.path)], s.counter)
    else if |e.path| >= lim.maxLegs then
      SearchState(rest, s.visited + {key}, s.found, s.counter)
    else
      var pushed := Pushes(e.path, Out(g, e.loc), goal, lim, s.counter);
      SearchState(rest + pushed, s.visited + {key}, s.found, s.counter + |pushed|)
  }

  /** The longest path an entry can hold: the cap, or the one leg every entry starts with. */
  function MaxLen(lim: Limits): nat {
    if lim.maxLegs < 1 then 1 else lim.maxLegs
  }

  ghost function Dests(g: FlightGraph): set<string> {
    set a, e | a in g && e in g[a] :: e.dest
  }

  /** All words of length at most n over the alphabet. */
  ghost function Words(alphabet: set<string>, n: nat): set<seq<string>> {
    if n == 0 then {[]}
    else {[]} + set a, w | a in alphabet && w in Words(alphabet, n - 1) :: [a] + w
  }

  /** Every visited key the search can ever form in g. */
  ghost function Universe(g: FlightGraph, n: nat): set<Key> {
    set l, w | l in Dests(g) && w in Words(g.Keys, n) :: (l, w)
  }

  /** An entry's path is 1 to n edges of g, and it sits where its last leg lands. */
  predicate EntryBounded(g: FlightGraph, n: nat, e: Entry) {
    && 1 <= |e.path| <= n
    && e.loc == Last(e.path).dest
    && forall k :: 0 <= k < |e.path| ==> IsEdge(g, e.path[k])
  }

  /** What termination rests on: entries are bounded and visited keys are possible keys. */
  ghost predicate Bounded(g: FlightGraph, lim: Limits, s: SearchState) {
    && (forall e :: e in s.pq ==> EntryBounded(g, MaxLen(lim), e))
    && s.visited <= Universe(g, MaxLen(lim))
  }

  /** Loops until the heap is empty or quota results are recorded; gives the results in record order. */
  function Run(g: FlightGraph, goal: string, lim: Limits, quota: int, s: SearchState): seq<Itinerary>
    requires WellFormed(g) && Bounded(g, lim, s)
    decreases |Universe(g, MaxLen(lim)) - s.visited|, |s.pq|
  {
    if |s.pq| == 0 || |s.found| >= quota then s.found
    else
      StepProgress(g, goal, lim, s);
      Run(g, goal, lim, quota, Step(g, goal, lim, s))
  }

  // ---------------------------------------------------------------------
  // Termination
  // ---------------------------------------------------------------------

  lemma {:induction false} WordsContain(alphabet: set<string>, n: nat, w: seq<string>)
    requires |w| <= n
    requires forall i :: 0 <= i < |w| ==> w[i] in alphabet
    ensures w in Words(alphabet, n)
  {
    if w != [] {
      WordsContain(alphabet, n - 1, w[1..]);
      assert w == [w[0]] + w[1..];
    }
  }

  lemma KeyInUniverse(g: FlightGraph, n: nat, e: Entry)
    requires EntryBounded(g, n, e)
    ensures KeyOf(e) in Universe(g, n)
  {
    var f := Last(e.path);
    assert IsEdge(g, f);
    assert e.loc in Dests(g);
    WordsContain(g.Keys, n, Origins(e.path));
  }

  lemma ShrinkUniverse(u: set<Key>, v: set<Key>, k: Key)
    requires k in u && k !in v
    ensures |u - (v + {k})| < |u - v|
  {
    assert u - v == (u - (v + {k})) + {k};
  }

  lemma RemoveAtElements(pq: seq<Entry>, i: nat)
    requires i < |pq|
    ensures |RemoveAt(pq, i)| == |pq| - 1
    ensures forall a :: 0 <= a < |pq| - 1 ==> RemoveAt(pq, i)[a] == pq[if a < i then a else a + 1]
    ensures forall x :: x in RemoveAt(pq, i) ==> x in pq
  {
  }

  /** x extends path by a connectable segment of one of the edges, with counter c. */
  predicate PushedFrom(path: seq<Flight>, edges: seq<Edge>, goal: string, lim: Limits, c: nat, x: Entry)
    requires |path| > 0
  {
    && |x.path| == |path| + 1
    && x == Extend(path, Last(x.path), goal, c)
    && CanConnect(path, Last(x.path), lim)
    && Edge(Last(x.path).dest, Last(x.path)) in edges
  }

  /**
   * What Pushes produces: the k-th pushed entry carries counter c + k and
   * extends the path by a connectable segment of one of the scanned edges.
   */
  lemma {:induction false} PushesShape(path: seq<Flight>, edges: seq<Edge>, goal: string, lim: Limits, c: nat)
    requires |path| > 0
    requires forall ed :: ed in edges ==> ed.dest == ed.flight.dest
    ensures forall k :: 0 <= k < |Pushes(path, edges, goal, lim, c)| ==>
      PushedFrom(path, edges, goal, lim, c + k, Pushes(path, edges, goal, lim, c)[k])
    decreases |edges|
  {
    if edges != [] {
      var init := edges[..|edges| - 1];
      var ed := edges[|edges| - 1];
      assert forall x :: x in init ==> x in edges;
      PushesShape(path, init, goal, lim, c);
      var prev := Pushes(path, init, goal, lim, c);
      var ps := Pushes(path, edges, goal, lim, c);
      forall k | 0 <= k < |prev| ensures PushedFrom(path, edges, goal, lim, c + k, prev[k]) {
        assert PushedFrom(path, init, goal, lim, c + k, prev[k]);
      }
      if CanConnect(path, ed.flight, lim) {
        var x := Extend(path, ed.flight, goal, c + |prev|);
        assert Last(x.path) == ed.flight;
        assert ed == Edge(ed.flight.dest, ed.flight);
        assert ps == prev + [x];
        assert PushedFrom(path, edges, goal, lim, c + |prev|, x);
        forall k | 0 <= k < |ps| ensures PushedFrom(path, edges, goal, lim, c + k, ps[k]) {
          if k < |prev| {
            assert ps[k] == prev[k];
          }
        }
      } else {
        assert ps == prev;
      }
    }
  }

  /** Some entry pushed while scanning edges extends path by seg. */
  predicate IsPushed(path: seq<Flight>, edges: seq<Edge>, goal: string, lim: Limits, c: nat, seg: Flight)
    requires |path| > 0
  {
    exists x :: x in Pushes(path, edges, goal, lim, c) && x.path == path + [seg]
  }

  /**
   * The converse of PushesShape: every scanned segment that can be connected
   * is pushed, as the path extended by that segment.
   */
  lemma {:induction false} PushesComplete(path: seq<Flight>, edges: seq<Edge>, goal: string, lim: Limits, c: nat)
    requires |path| > 0
    ensures forall i :: 0 <= i < |edges| && CanConnect(path, edges[i].flight, lim) ==>
      IsPushed(path, edges, goal, lim, c, edges[i].flight)
    decreases |edges|
  {
    if edges != [] {
      var init := edges[..|edges| - 1];
      var ed := edges[|edges| - 1];
      PushesComplete(path, init, goal, lim, c);
      var prev := Pushes(path, init, goal, lim, c);
      var ps := Pushes(path, edges, goal, lim, c);
      assert forall x :: x in prev ==> x in ps;
      forall i | 0 <= i < |edges| && CanConnect(path, edges[i].flight, lim)
        ensures IsPushed(path, edges, goal, lim, c, edges[i].flight)
      {
        if i < |edges| - 1 {
          assert edges[i] == init[i];
          assert IsPushed(path, init, goal, lim, c, init[i].flight);
          var x :| x in prev && x.path == path + [init[i].flight];
          assert x in ps;
        } else {
          var x := Extend(path, ed.flight, goal, c + |prev|);
          assert ps == prev + [x];
          assert x in ps && x.path == path + [edges[i].flight];
        }
      }
    }
  }

  /** Each turn either visits a new possible key or shrinks the heap, and keeps entries bounded. */
  lemma StepProgress(g: FlightGraph, goal: string, lim: Limits, s: SearchState)
    requires WellFormed(g) && Bounded(g, lim, s) && |s.pq| > 0
    ensures Bounded(g, lim, Step(g, goal, lim, s))
    ensures var s' := Step(g, goal, lim, s);
      || |Universe(g, MaxLen(lim)) - s'.visited| < |Universe(g, MaxLen(lim)) - s.visited|
      || (s'.visited == s.visited && |s'.pq| < |s.pq|)
  {
    var n := MaxLen(lim);
    var i := MinIndex(s.pq);
    var e := s.pq[i];
    var rest := RemoveAt(s.pq, i);
    RemoveAtElements(s.pq, i);
    var key := KeyOf(e);
    if key !in s.visited {
      KeyInUniverse(g, n, e);
      ShrinkUniverse(Universe(g, n), s.visited, key);
      if !(e.loc == goal && |e.path| > 1) && |e.path| < lim.maxLegs {
        PushesBounded(g, goal, lim, e, s.counter);
      }
    }
  }

  lemma PushesBounded(g: FlightGraph, goal: string, lim: Limits, e: Entry, c: nat)
    requires WellFormed(g) && EntryBounded(g, MaxLen(lim), e) && |e.path| < lim.maxLegs
    ensures forall x :: x in Pushes(e.path, Out(g, e.loc), goal, lim, c) ==> EntryBounded(g, MaxLen(lim), x)
  {
    var n := MaxLen(lim);
    var out := Out(g, e.loc);
    assert forall ed :: ed in out ==> ed.dest == ed.flight.dest && ed.flight.origin == e.loc;
    PushesShape(e.path, out, goal, lim, c);
    var ps := Pushes(e.path, out, goal, lim, c);
    forall x | x in ps ensures EntryBounded(g, n, x) {
      var k :| 0 <= k < |ps| && ps[k] == x;
      assert PushedFrom(e.path, out, goal, lim, c + k, x);
      var seg := Last(x.path);
      assert x.path == e.path + [seg];
      assert IsEdge(g, seg);
      forall m | 0 <= m < |x.path| ensures IsEdge(g, x.path[m]) {
        if m < |e.path| {
          assert x.path[m] == e.path[m];
        }
      }
    }
  }

  // ---------------------------------------------------------------------
  // Soundness: what every entry and every recorded result satisfies
  // ---------------------------------------------------------------------

  /** An entry's path leaves start, chains, repeats no segment and keeps the layover window. */
  predicate PartialRoute(start: string, lim: Limits, e: Entry) {
    && |e.path| >= 1
    && e.path[0].origin == start
    && Chained(e.path)
    && NoRepeats(e.path)
    && LayoversWithin(e.path, lim.minConn, lim.maxConn)
    && (|e.path| == 1 || |e.path| <= lim.maxLegs)
    && e.cost == Elapsed(e.path)
  }

  /** A recorded result is an itinerary of edges of g whose cost is its elapsed time. */
  predicate Recorded(g: FlightGraph, start: string, goal: string, lim: Limits, it: Itinerary) {
    && IsItinerary(it.legs, start, goal, lim)
    && it.cost == Elapsed(it.legs)
    && forall k :: 0 <= k < |it.legs| ==> IsEdge(g, it.legs[k])
  }

  /** The loop invariant of both searches. */
  ghost predicate Sound(g: FlightGraph, start: string, goal: string, lim: Limits, s: SearchState) {
    && (forall e :: e in s.pq ==> PartialRoute(start, lim, e) && e.seqNo < s.counter)
    && DistinctCounters(s.pq)
    && (forall it :: it in s.found ==> Recorded(g, start, goal, lim, it) && (goal, Origins(it.legs)) in s.visited)
    && DistinctBy(s.found, RouteOrigins)
  }

  /** Extending a partial route by a connectable segment that leaves its end gives a partial route. */
  lemma ExtendSound(start: string, goal: string, lim: Limits, e: Entry, seg: Flight, c: nat)
    requires PartialRoute(start, lim, e)
    requires seg.origin == Last(e.path).dest
    requires CanConnect(e.path, seg, lim)
    requires |e.path| < lim.maxLegs
    ensures PartialRoute(start, lim, Extend(e.path, seg, goal, c))
  {
    var p := e.path + [seg];
    assert forall i :: 0 <= i < |e.path| ==> p[i] == e.path[i];
    assert Chained(p);
    assert LayoversWithin(p, lim.minConn, lim.maxConn) by {
      forall i | 0 <= i < |p| - 1 ensures 60 * lim.minConn <= Layover(p, i) <= 60 * lim.maxConn {
        if i < |e.path| - 1 {
          assert Layover(p, i) == Layover(e.path, i);
        }
      }
    }
  }

  lemma StartSound(g: FlightGraph, start: string, goal: string, lim: Limits, withHeuristic: bool)
    requires WellFormed(g)
    ensures Bounded(g, lim, Start(g, start, goal, withHeuristic))
    ensures Sound(g, start, goal, lim, Start(g, start, goal, withHeuristic))
  {
    var s := Start(g, start, goal, withHeuristic);
    var out := Out(g, start);
    forall e | e in s.pq
      ensures EntryBounded(g, MaxLen(lim), e) && PartialRoute(start, lim, e) && e.seqNo < s.counter
    {
      var k :| 0 <= k < |out| && e == FirstLeg(out[k].flight, goal, withHeuristic, k);
      assert out[k] in g[start];
    }
  }

  /** No two heap entries carry the same counter value: the heap order is total. */
  predicate DistinctCounters(pq: seq<Entry>) {
    forall i, j :: 0 <= i < j < |pq| ==> pq[i].seqNo != pq[j].seqNo
  }

  lemma RemoveAtDistinct(pq: seq<Entry>, i: nat)
    requires i < |pq| && DistinctCounters(pq)
    ensures DistinctCounters(RemoveAt(pq, i))
  {
    var rest := RemoveAt(pq, i);
    RemoveAtElements(pq, i);
    forall a, b | 0 <= a < b < |rest| ensures rest[a].seqNo != rest[b].seqNo {
      var a', b' := if a < i then a else a + 1, if b < i then b else b + 1;
      assert rest[a] == pq[a'] && rest[b] == pq[b'];
    }
  }

  /** Recording a goal entry whose key is new keeps the results sound and their keys distinct. */
  lemma RecordSound(g: FlightGraph, start: string, goal: string, lim: Limits, s: SearchState, e: Entry, rest: seq<Entry>)
    requires Sound(g, start, goal, lim, s)
    requires e in s.pq && EntryBounded(g, MaxLen(lim), e)
    requires e.loc == goal && |e.path| > 1 && KeyOf(e) !in s.visited
    requires DistinctCounters(rest) && forall x :: x in rest ==> x in s.pq
    ensures Sound(g, start, goal, lim,
      SearchState(rest, s.visited + {KeyOf(e)}, s.found + [Itinerary(e.cost, e.path)], s.counter))
  {
    var it := Itinerary(e.cost, e.path);
    assert Recorded(g, start, goal, lim, it);
    assert RouteOrigins(it) == Origins(e.path);
    forall a | 0 <= a < |s.found| ensures RouteOrigins(s.found[a]) != RouteOrigins(it) {
      assert s.found[a] in s.found;
    }
  }

  /** Expanding an entry below the leg cap pushes sound entries with fresh counters. */
  lemma ExpandSound(g: FlightGraph, start: string, goal: string, lim: Limits, s: SearchState, e: Entry, rest: seq<Entry>)
    requires WellFormed(g) && Sound(g, start, goal, lim, s)
    requires e in s.pq && EntryBounded(g, MaxLen(lim), e)
    requires |e.path| < lim.maxLegs && KeyOf(e) !in s.visited
    requires DistinctCounters(rest) && forall x :: x in rest ==> x in s.pq
    ensures var ps := Pushes(e.path, Out(g, e.loc), goal, lim, s.counter);
      Sound(g, start, goal, lim, SearchState(rest + ps, s.visited + {KeyOf(e)}, s.found, s.counter + |ps|))
  {
    var out := Out(g, e.loc);
    assert forall ed :: ed in out ==> ed.dest == ed.flight.dest && ed.flight.origin == e.loc;
    PushesShape(e.path, out, goal, lim, s.counter);
    var ps := Pushes(e.path, out, goal, lim, s.counter);
    var pq' := rest + ps;
    var counter' := s.counter + |ps|;
    forall x | x in ps ensures PartialRoute(start, lim, x) && x.seqNo < counter' {
      var k :| 0 <= k < |ps| && ps[k] == x;
      assert PushedFrom(e.path, out, goal, lim, s.counter + k, x);
      ExtendSound(start, goal, lim, e, Last(x.path), s.counter + k);
    }
    forall a, b | 0 <= a < b < |pq'| ensures pq'[a].seqNo != pq'[b].seqNo {
      if a >= |rest| {
        assert PushedFrom(e.path, out, goal, lim, s.counter + (a - |rest|), ps[a - |rest|]);
        assert PushedFrom(e.path, out, goal, lim, s.counter + (b - |rest|), ps[b - |rest|]);
      } else if b >= |rest| {
        assert pq'[a] == rest[a] && rest[a] in s.pq;
        assert PushedFrom(e.path, out, goal, lim, s.counter + (b - |rest|), ps[b - |rest|]);
      } else {
        assert pq'[a] == rest[a] && pq'[b] == rest[b];
      }
    }
  }

  /** Each turn keeps the loop invariant. */
  lemma StepSound(g: FlightGraph, start: string, goal: string, lim: Limits, s: SearchState)
    requires WellFormed(g) && Bounded(g, lim, s) && Sound(g, start, goal, lim, s) && |s.pq| > 0
    ensures Sound(g, start, goal, lim, Step(g, goal, lim, s))
  {
    var i := MinIndex(s.pq);
    var e := s.pq[i];
    var rest := RemoveAt(s.pq, i);
    RemoveAtElements(s.pq, i);
    RemoveAtDistinct(s.pq, i);
    if KeyOf(e) in s.visited {
    } else if e.loc == goal && |e.path| > 1 {
      RecordSound(g, start, goal, lim, s, e, rest);
    } else if |e.path| >= lim.maxLegs {
    } else {
      ExpandSound(g, start, goal, lim, s, e, rest);
    }
  }

  /**
   * A key is processed at most once: a turn that records a result or pushes
   * an entry does so for a popped entry whose key was not visited before,
   * and adds exactly that key to the visited set.
   */
  lemma StepOncePerKey(g: FlightGraph, goal: string, lim: Limits, s: SearchState)
    requires |s.pq| > 0 && forall e :: e in s.pq ==> |e.path| > 0
    ensures var s' := Step(g, goal, lim, s);
      var e := s.pq[MinIndex(s.pq)];
      && s.visited <= s'.visited
      && (s'.found != s.found || s'.counter != s.counter ==>
            KeyOf(e) !in s.visited && s'.visited == s.visited + {KeyOf(e)})
  {
  }

  // ---------------------------------------------------------------------
  // Properties of Run
  // ---------------------------------------------------------------------

  /** Every recorded result is an itinerary, no two share a visited key, and the quota holds. */
  lemma {:induction false} RunSound(g: FlightGraph, start: string, goal: string, lim: Limits, quota: int, s: SearchState)
    requires WellFormed(g) && Bounded(g, lim, s) && Sound(g, start, goal, lim, s)
    ensures var r := Run(g, goal, lim, quota, s);
      && (forall it :: it in r ==> Recorded(g, start, goal, lim, it))
      && DistinctBy(r, RouteOrigins)
      && (|s.found| <= quota ==> |r| <= quota)
    decreases |Universe(g, MaxLen(lim)) - s.visited|, |s.pq|
  {
    if |s.pq| > 0 && |s.found| < quota {
      StepProgress(g, goal, lim, s);
      StepSound(g, start, goal, lim, s);
      RunSound(g, start, goal, lim, quota, Step(g, goal, lim, s));
    }
  }

  /** A turn keeps the results so far and records at most one more. */
  lemma StepFound(g: FlightGraph, goal: string, lim: Limits, s: SearchState)
    requires |s.pq| > 0 && forall e :: e in s.pq ==> |e.path| > 0
    ensures s.found <= Step(g, goal, lim, s).found
    ensures |Step(g, goal, lim, s).found| <= |s.found| + 1
  {
  }

  /** Results are only ever appended: the ones already recorded stay a prefix. */
  lemma {:induction false} RunExtends(g: FlightGraph, goal: string, lim: Limits, quota: int, s: SearchState)
    requires WellFormed(g) && Bounded(g, lim, s)
    ensures s.found <= Run(g, goal, lim, quota, s)
    decreases |Universe(g, MaxLen(lim)) - s.visited|, |s.pq|
  {
    if |s.pq| > 0 && |s.found| < quota {
      StepProgress(g, goal, lim, s);
      StepFound(g, goal, lim, s);
      RunExtends(g, goal, lim, quota, Step(g, goal, lim, s));
    }
  }

  function Take(r: seq<Itinerary>, n: nat): seq<Itinerary> {
    if |r| <= n then r else r[..n]
  }

  /**
   * The quota only decides where the search stops: a search with a smaller
   * quota records the first results of one with a larger quota.
   */
  lemma {:induction false} RunQuota(g: FlightGraph, goal: string, lim: Limits, q1: nat, q2: int, s: SearchState)
    requires WellFormed(g) && Bounded(g, lim, s)
    requires |s.found| <= q1 <= q2
    ensures Run(g, goal, lim, q1, s) == Take(Run(g, goal, lim, q2, s), q1)
    decreases |Universe(g, MaxLen(lim)) - s.visited|, |s.pq|
  {
    if |s.pq| == 0 {
    } else if |s.found| == q1 {
      RunExtends(g, goal, lim, q2, s);
      var r := Run(g, goal, lim, q2, s);
      assert Take(r, q1) == s.found;
    } else {
      StepProgress(g, goal, lim, s);
      var s' := Step(g, goal, lim, s);
      StepFound(g, goal, lim, s);
      RunQuota(g, goal, lim, q1, q2, s');
    }
  }

  // ---------------------------------------------------------------------
  // The heuristic, and the order in which results are recorded
  // ---------------------------------------------------------------------

  /** A path whose legs and layovers all take non-negative time never lands before it leaves. */
  lemma {:induction false} ElapsedNonNegative(p: seq<Flight>)
    requires |p| > 0
    requires forall i :: 0 <= i < |p| ==> Duration(p[i]) >= 0
    requires forall i :: 0 <= i < |p| - 1 ==> Layover(p, i) >= 0
    ensures Elapsed(p) >= 0
  {
    if |p| > 1 {
      var init := p[..|p| - 1];
      assert forall i :: 0 <= i < |init| - 1 ==> Layover(init, i) == Layover(p, i);
      ElapsedNonNegative(init);
      assert Layover(p, |p| - 2) >= 0;
    }
  }

  /**
   * Admissibility: from loc, reached at time t, the estimate never exceeds the
   * remaining time of a well-timed continuation that reaches goal.
   */
  lemma HeuristicAdmissible(loc: string, goal: string, t: Timestamp, p: seq<Flight>)
    requires |p| > 0 && p[0].origin == loc && Last(p).dest == goal && Chained(p)
    requires t <= p[0].dep
    requires forall i :: 0 <= i < |p| ==> Duration(p[i]) >= 0
    requires forall i :: 0 <= i < |p| - 1 ==> Layover(p, i) >= 0
    ensures 0 <= Heuristic(loc, goal) <= Last(p).arr - t
  {
    ElapsedNonNegative(p);
  }

  /** Every edge of g takes non-negative time. */
  predicate ForwardInTime(g: FlightGraph) {
    forall a, ed: Edge :: a in g && ed in g[a] ==> Duration(ed.flight) >= 0
  }

  /** Results so far are in cost order and cost no more than anything still queued. */
  ghost predicate InCostOrder(s: SearchState) {
    && SortedBy(s.found, CostOf)
    && forall it, e :: it in s.found && e in s.pq ==> it.cost <= e.cost
  }

  /** Extensions cost at least as much as the entry they extend. */
  lemma PushesNotCheaper(g: FlightGraph, start: string, goal: string, lim: Limits, e: Entry, c: nat)
    requires WellFormed(g) && ForwardInTime(g) && lim.minConn >= 0
    requires EntryBounded(g, MaxLen(lim), e) && PartialRoute(start, lim, e)
    ensures forall x :: x in Pushes(e.path, Out(g, e.loc), goal, lim, c) ==> e.cost <= x.cost
  {
    var out := Out(g, e.loc);
    assert forall ed :: ed in out ==> ed.dest == ed.flight.dest && ed.flight.origin == e.loc;
    PushesShape(e.path, out, goal, lim, c);
    var ps := Pushes(e.path, out, goal, lim, c);
    forall x | x in ps ensures e.cost <= x.cost {
      var k :| 0 <= k < |ps| && ps[k] == x;
      assert PushedFrom(e.path, out, goal, lim, c + k, x);
      var seg := Last(x.path);
      assert Edge(seg.dest, seg) in g[e.loc];
      assert Duration(seg) >= 0;
    }
  }

  lemma StepInCostOrder(g: FlightGraph, start: string, goal: string, lim: Limits, s: SearchState)
    requires WellFormed(g) && ForwardInTime(g) && lim.minConn >= 0
    requires Bounded(g, lim, s) && Sound(g, start, goal, lim, s) && InCostOrder(s) && |s.pq| > 0
    ensures InCostOrder(Step(g, goal, lim, s))
  {
    var i := MinIndex(s.pq);
    var e := s.pq[i];
    var rest := RemoveAt(s.pq, i);
    RemoveAtElements(s.pq, i);
    assert forall x :: x in s.pq ==> e.cost <= x.cost;
    var s' := Step(g, goal, lim, s);
    if KeyOf(e) in s.visited {
      assert s' == s.(pq := rest);
    } else if e.loc == goal && |e.path| > 1 {
      var it := Itinerary(e.cost, e.path);
      assert s'.found == s.found + [it] && s'.pq == rest;
      assert forall j :: 0 <= j < |s.found| ==> s.found[j] in s.found;
    } else if |e.path| >= lim.maxLegs {
      assert s'.found == s.found && s'.pq == rest;
    } else {
      PushesNotCheaper(g, start, goal, lim, e, s.counter);
      var ps := Pushes(e.path, Out(g, e.loc), goal, lim, s.counter);
      assert s'.found == s.found && s'.pq == rest + ps;
    }
  }

  /**
   * When no leg and no layover runs backwards in time, results are recorded
   * in non-decreasing cost order: the first recorded is a cheapest one.
   */
  lemma {:induction false} RunInCostOrder(g: FlightGraph, start: string, goal: string, lim: Limits, quota: int, s: SearchState)
    requires WellFormed(g) && ForwardInTime(g) && lim.minConn >= 0
    requires Bounded(g, lim, s) && Sound(g, start, goal, lim, s) && InCostOrder(s)
    ensures SortedBy(Run(g, goal, lim, quota, s), CostOf)
    decreases |Universe(g, MaxLen(lim)) - s.visited|, |s.pq|
  {
    if |s.pq| > 0 && |s.found| < quota {
      StepProgress(g, goal, lim, s);
      StepSound(g, start, goal, lim, s);
      StepInCostOrder(g, start, goal, lim, s);
      RunInCostOrder(g, start, goal, lim, quota, Step(g, goal, lim, s));
    }
  }
}
