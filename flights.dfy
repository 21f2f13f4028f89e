/**
 * The data model shared by the graph builder and the searches: a flight
 * segment, the itinerary constraints, and the predicates that say when a
 * sequence of segments is a valid connecting itinerary.
 */
module Flights {

  /** Seconds since an arbitrary epoch; the source's datetimes, made exact. */
  type Timestamp = int

  /**
   * One scheduled flight leg. Segments are compared by value, as the source
   * compares its dictionaries; a missing `from` or `to` is the empty string.
   */
  datatype Flight = Flight(
    origin: string,
    dest: string,
    dep: Timestamp,
    arr: Timestamp,
    price: real,
    carrier: string,
    number: string)

  /** The itinerary constraints of the connected search. */
  datatype Limits = Limits(maxLegs: int, minConn: int, maxConn: int)

  /** The defaults of the multi-result search, hard-coded in the single-result one. */
  const DefaultLimits := Limits(3, 30, 480)
  const DefaultMaxResults := 6

  /** A record is usable for the graph only if it names both endpoints. */
  predicate HasEndpoints(f: Flight) {
    f.origin != "" && f.dest != ""
  }

  /** Flight time of one leg, the sort key of the direct search. */
  function Duration(f: Flight): int {
    f.arr - f.dep
  }

  function Last(p: seq<Flight>): Flight
    requires |p| > 0
  {
    p[|p| - 1]
  }

  /** Elapsed time of a path, layovers included: first departure to last arrival. */
  function Elapsed(p: seq<Flight>): int
    requires |p| > 0
  {
    Last(p).arr - p[0].dep
  }

  /** Each leg leaves from where the previous one landed. */
  predicate Chained(p: seq<Flight>) {
    forall i :: 0 <= i < |p| - 1 ==> p[i].dest == p[i + 1].origin
  }

  /** No segment value occurs twice. */
  predicate NoRepeats(p: seq<Flight>) {
    forall i, j :: 0 <= i < j < |p| ==> p[i] != p[j]
  }

  /** Seconds between landing with leg i and taking off with leg i + 1. */
  function Layover(p: seq<Flight>, i: int): int
    requires 0 <= i < |p| - 1
  {
    p[i + 1].dep - p[i].arr
  }

  /** Every layover lies in the inclusive window [minConn, maxConn] minutes. */
  predicate LayoversWithin(p: seq<Flight>, minConn: int, maxConn: int) {
    forall i :: 0 <= i < |p| - 1 ==> 60 * minConn <= Layover(p, i) <= 60 * maxConn
  }

  /** A connecting itinerary from start to goal under the given limits. */
  predicate IsItinerary(p: seq<Flight>, start: string, goal: string, lim: Limits) {
    && 2 <= |p| <= lim.maxLegs
    && p[0].origin == start
    && Last(p).dest == goal
    && Chained(p)
    && NoRepeats(p)
    && LayoversWithin(p, lim.minConn, lim.maxConn)
  }
}
