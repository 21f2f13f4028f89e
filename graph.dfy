/**
 * The graph builder: an adjacency map from each origin to the list of
 * (destination, segment) pairs that leave it, in input order.
 */
module Graph {
  import opened Flights

  /** One `(destination, segment)` pair of an adjacency list. */
  datatype Edge = Edge(dest: string, flight: Flight)

  type FlightGraph = map<string, seq<Edge>>

  /** `g.get(a, [])` */
  function Out(g: FlightGraph, a: string): seq<Edge> {
    if a in g then g[a] else []
  }

  /** The edges leaving a, in input order: the reference for g[a]. */
  function Departures(fs: seq<Flight>, a: string): seq<Edge>
    decreases |fs|
  {
    if fs == [] then []
    else
      var f := Last(fs);
      Departures(fs[..|fs| - 1], a) + (if HasEndpoints(f) && f.origin == a then [Edge(f.dest, f)] else [])
  }

  /** The origins of the records that name both endpoints. */
  function Sources(fs: seq<Flight>): set<string> {
    set f | f in fs && HasEndpoints(f) :: f.origin
  }

  /** The graph `build_graph` is meant to produce, stated declaratively. */
  function GraphOf(fs: seq<Flight>): FlightGraph {
    map a | a in Sources(fs) :: Departures(fs, a)
  }

  /** Every pair (b, f) in g[a] has f.from == a and f.to == b. */
  predicate WellFormed(g: FlightGraph) {
    forall a, e: Edge :: a in g && e in g[a] ==> e.flight.origin == a && e.dest == e.flight.dest
  }

  /** f is listed under its own origin. */
  predicate IsEdge(g: FlightGraph, f: Flight) {
    f.origin in g && Edge(f.dest, f) in g[f.origin]
  }

  /** `build_graph`: one pass over the records, appending to the origin's list. */
  method BuildGraph(fs: seq<Flight>) returns (g: FlightGraph)
    ensures g == GraphOf(fs)
  {
    g := map[];
    for i := 0 to |fs|
      invariant g == GraphOf(fs[..i])
    {
      var f := fs[i];
      var a, b := f.origin, f.dest;
      assert fs[..i + 1] == fs[..i] + [f];
      GraphOfSnoc(fs[..i], f);
      if a != "" && b != "" {
        g := g[a := Out(g, a) + [Edge(b, f)]];
      }
    }
    assert fs[..|fs|] == fs;
  }

  /** The edges listed under a are exactly the complete records leaving a. */
  lemma {:induction false} DeparturesSound(fs: seq<Flight>, a: string)
    ensures forall e :: e in Departures(fs, a) ==>
      e.flight in fs && HasEndpoints(e.flight) && e.flight.origin == a && e.dest == e.flight.dest
  {
    if fs != [] {
      DeparturesSound(fs[..|fs| - 1], a);
      assert forall f :: f in fs[..|fs| - 1] ==> f in fs;
    }
  }

  lemma DeparturesOnlyFromSources(fs: seq<Flight>, a: string)
    ensures Departures(fs, a) != [] ==> a in Sources(fs)
  {
    DeparturesSound(fs, a);
    if Departures(fs, a) != [] {
      var e := Departures(fs, a)[0];
      assert e.flight.origin in Sources(fs);
    }
  }

  /** Appending a record appends at most one edge, under its origin. */
  lemma GraphOfSnoc(fs: seq<Flight>, f: Flight)
    ensures GraphOf(fs + [f])
         == if HasEndpoints(f) then GraphOf(fs)[f.origin := Out(GraphOf(fs), f.origin) + [Edge(f.dest, f)]]
            else GraphOf(fs)
  {
    var fs' := fs + [f];
    var g, g' := GraphOf(fs), GraphOf(fs');
    assert fs'[..|fs'| - 1] == fs;
    assert Sources(fs') == if HasEndpoints(f) then Sources(fs) + {f.origin} else Sources(fs);
    DeparturesOnlyFromSources(fs, f.origin);
    assert Departures(fs, f.origin) == Out(g, f.origin);
    if HasEndpoints(f) {
      var h := g[f.origin := Out(g, f.origin) + [Edge(f.dest, f)]];
      assert g'.Keys == h.Keys;
      forall a | a in g' ensures g'[a] == h[a] {
        assert g'[a] == Departures(fs, a) + (if f.origin == a then [Edge(f.dest, f)] else []);
        if a != f.origin {
          assert h[a] == g[a] == Departures(fs, a);
        }
      }
      assert g' == h;
    } else {
      assert g'.Keys == g.Keys;
      forall a | a in g' ensures g'[a] == g[a] {
        assert g'[a] == Departures(fs, a);
      }
      assert g' == g;
    }
  }

  /** Input order: the list for a is built from the records in the order they come. */
  lemma {:induction false} DeparturesAppend(fs1: seq<Flight>, fs2: seq<Flight>, a: string)
    ensures Departures(fs1 + fs2, a) == Departures(fs1, a) + Departures(fs2, a)
    decreases |fs2|
  {
    if fs2 == [] {
      assert fs1 + fs2 == fs1;
    } else {
      var init := fs2[..|fs2| - 1];
      assert (fs1 + fs2)[..|fs1 + fs2| - 1] == fs1 + init;
      DeparturesAppend(fs1, init, a);
    }
  }

  /**
   * Exactly once: an edge (f.to, f) occurs under a as often as f occurs in
   * the input if f is complete and leaves a, and never otherwise.
   */
  lemma {:induction false} DeparturesCount(fs: seq<Flight>, a: string, f: Flight)
    ensures multiset(Departures(fs, a))[Edge(f.dest, f)]
         == if HasEndpoints(f) && f.origin == a then multiset(fs)[f] else 0
  {
    if fs != [] {
      var init := fs[..|fs| - 1];
      DeparturesCount(init, a, f);
      assert fs == init + [Last(fs)];
    }
  }

  /** The built graph is well formed, and its edges are exactly the complete records. */
  lemma GraphOfEdges(fs: seq<Flight>)
    ensures WellFormed(GraphOf(fs))
    ensures forall f :: IsEdge(GraphOf(fs), f) <==> f in fs && HasEndpoints(f)
    ensures forall a :: |Out(GraphOf(fs), a)| <= |fs|
  {
    var g := GraphOf(fs);
    forall a | a in g
      ensures forall e: Edge :: e in g[a] ==> e.flight.origin == a && e.dest == e.flight.dest
    {
      DeparturesSound(fs, a);
    }
    forall f | f in fs && HasEndpoints(f) ensures IsEdge(g, f) {
      DeparturesCount(fs, f.origin, f);
      assert f.origin in Sources(fs);
    }
    forall f | IsEdge(g, f) ensures f in fs && HasEndpoints(f) {
      DeparturesSound(fs, f.origin);
    }
    forall a ensures |Out(g, a)| <= |fs| {
      DeparturesLength(fs, a);
    }
  }

  lemma {:induction false} DeparturesLength(fs: seq<Flight>, a: string)
    ensures |Departures(fs, a)| <= |fs|
  {
    if fs != [] {
      DeparturesLength(fs[..|fs| - 1], a);
    }
  }
}
