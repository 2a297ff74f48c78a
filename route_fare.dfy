/**
 * The route surcharge step of the fare pipeline: the running fare plus the
 * highest per-line surcharge among the sections of the shortest path. The
 * path itself is an input here, as the list of its sections' per-line
 * surcharges.
 */
module RouteFare {

  function Max(a: int, b: int): int
  {
    if a < b then b else a
  }

  /** The surcharges folded from the left with max, starting from `seed`. */
  function MaxFrom(seed: int, fares: seq<int>): (m: int)
    ensures seed <= m
    ensures forall i :: 0 <= i < |fares| ==> fares[i] <= m
    ensures m == seed || m in fares
    decreases |fares|
  {
    if fares == [] then seed
    else MaxFrom(Max(seed, fares[0]), fares[1..])
  }

  /** The highest per-line surcharge on the path, or 0 for a path with no sections. */
  function HighestFareOfLine(fares: seq<int>): (m: int)
    ensures 0 <= m
    ensures forall i :: 0 <= i < |fares| ==> fares[i] <= m
    ensures m == 0 || m in fares
  {
    MaxFrom(0, fares)
  }

  /** The running fare plus the highest per-line surcharge on the path. */
  function CalculateFare(fare: int, fares: seq<int>): (r: int)
    ensures fare <= r
    ensures fares == [] ==> r == fare
    ensures forall i :: 0 <= i < |fares| ==> fare + fares[i] <= r
    ensures r == fare || r - fare in fares
  {
    fare + HighestFareOfLine(fares)
  }

  /** Only the set of surcharges matters, not the order the path visits the lines in. */
  lemma HighestFareOfLineIgnoresOrder(fares: seq<int>, reordered: seq<int>)
    requires multiset(fares) == multiset(reordered)
    ensures HighestFareOfLine(fares) == HighestFareOfLine(reordered)
  {
    var m, n := HighestFareOfLine(fares), HighestFareOfLine(reordered);
    BoundsSurcharge(fares, reordered, m);
    BoundsSurcharge(reordered, fares, n);
  }

  /** An upper bound of one list's surcharges bounds the other's highest surcharge too. */
  lemma BoundsSurcharge(fares: seq<int>, reordered: seq<int>, bound: int)
    requires multiset(fares) == multiset(reordered)
    requires 0 <= bound && forall i :: 0 <= i < |fares| ==> fares[i] <= bound
    ensures HighestFareOfLine(reordered) <= bound
  {
    var n := HighestFareOfLine(reordered);
    if n != 0 {
      assert n in multiset(reordered);
      assert n in fares;
    }
  }
}
