/**
 * Stations and sections of one subway line, as values, and the shape a
 * line's section list is meant to keep: consecutive sections chain, and a
 * non-empty list ends with a terminator section (tail, TERMINAL, 0).
 */
module SectionModel {

  /** A station is known by its identity; Terminal is the reserved sentinel
      that stands after the last real station of a line. */
  datatype Station = Station(id: int) | Terminal

  /** A directed adjacency upward -> downward on one line. */
  datatype Section = Section(upward: Station, downward: Station, distance: int)

  /** The section that closes a line after its tail station. */
  function Terminator(tail: Station): Section
  {
    Section(tail, Terminal, 0)
  }

  predicate IsTerminator(x: Section)
  {
    x.downward == Terminal && x.distance == 0
  }

  /** The index a position lookup answers when no section starts at the station. */
  const NotExist: int := -1

  /** The position of the first section whose upward station is `station`,
      or NotExist when there is none. */
  function PositionOf(s: seq<Section>, station: Station): (r: int)
    ensures NotExist <= r < |s|
    ensures r == NotExist <==> forall i :: 0 <= i < |s| ==> s[i].upward != station
    ensures r != NotExist ==> s[r].upward == station
    ensures forall i :: 0 <= i < r ==> s[i].upward != station
  {
    if s == [] then NotExist
    else if s[0].upward == station then 0
    else
      var p := PositionOf(s[1..], station);
      if p == NotExist then NotExist else p + 1
  }

  /** Any first match is the position a lookup reports. */
  lemma PositionOfFirst(s: seq<Section>, station: Station, i: int)
    requires 0 <= i < |s| && s[i].upward == station
    requires forall j :: 0 <= j < i ==> s[j].upward != station
    ensures PositionOf(s, station) == i
  {
    var p := PositionOf(s, station);
    assert p != NotExist;
    assert !(p < i) && !(i < p);
  }

  /** The stations of a line in travel order: the upward station of every
      section (on a terminated line the terminator's upward is the tail). */
  function Stations(s: seq<Section>): seq<Station>
  {
    seq(|s|, i requires 0 <= i < |s| => s[i].upward)
  }

  /** A lookup finds a station exactly when the station is on the line. */
  lemma PositionOfOnLine(s: seq<Section>, station: Station)
    ensures PositionOf(s, station) != NotExist <==> station in Stations(s)
  {
    if station in Stations(s) {
      var i :| 0 <= i < |s| && Stations(s)[i] == station;
      assert s[i].upward == station;
    }
    var p := PositionOf(s, station);
    if p != NotExist {
      assert Stations(s)[p] == station;
    }
  }

  /** Every listed station is found no later than its place in the list,
      and exactly at its place when no station is listed twice. */
  lemma StationsFound(s: seq<Section>)
    ensures forall i :: 0 <= i < |s| ==> 0 <= PositionOf(s, Stations(s)[i]) <= i
    ensures Distinct(Stations(s)) ==> forall i :: 0 <= i < |s| ==> PositionOf(s, Stations(s)[i]) == i
  {
    var st := Stations(s);
    forall i | 0 <= i < |s| && Distinct(st)
      ensures PositionOf(s, st[i]) == i
    {
      var p := PositionOf(s, st[i]);
      assert st[p] == s[p].upward == st[i];
    }
  }

  /** The lookup finds exactly the stations on the line. */
  lemma PositionsOnLine(s: seq<Section>)
    ensures forall x :: x in Stations(s) <==> PositionOf(s, x) != NotExist
  {
    forall x
      ensures x in Stations(s) <==> PositionOf(s, x) != NotExist
    {
      PositionOfOnLine(s, x);
    }
  }

  /** Replacing the section at `t` by `mid` replaces its station by those of `mid`. */
  lemma StationsReplace(s: seq<Section>, t: int, mid: seq<Section>)
    requires 0 <= t < |s|
    ensures Stations(s[..t] + mid + s[t + 1..]) == Stations(s)[..t] + Stations(mid) + Stations(s)[t + 1..]
  {
  }

  /** Replacing the section at `t` by two sections that start at the same
      station and at `x` puts `x` into the station list right after it. */
  lemma StationsSplit(s: seq<Section>, t: int, mid: seq<Section>, x: Station)
    requires 0 <= t < |s| && |mid| == 2
    requires mid[0].upward == s[t].upward && mid[1].upward == x
    ensures Stations(s[..t] + mid + s[t + 1..]) == Stations(s)[..t + 1] + [x] + Stations(s)[t + 1..]
  {
    var st := Stations(s);
    StationsReplace(s, t, mid);
    assert Stations(mid) == [st[t], x];
    assert st[..t] + [st[t]] == st[..t + 1];
  }

  /** Replacing the section at `t` by `mid` changes the total by the difference. */
  lemma TotalDistanceReplace(s: seq<Section>, t: int, mid: seq<Section>)
    requires 0 <= t < |s|
    ensures TotalDistance(s[..t] + mid + s[t + 1..]) == TotalDistance(s) - s[t].distance + TotalDistance(mid)
  {
    assert s == s[..t] + [s[t]] + s[t + 1..];
    TotalDistanceAppend(s[..t] + [s[t]], s[t + 1..]);
    TotalDistanceAppend(s[..t], [s[t]]);
    TotalDistanceAppend(s[..t] + mid, s[t + 1..]);
    TotalDistanceAppend(s[..t], mid);
  }

  /** Replacing a section by a chained run that connects to both neighbours keeps the list chained. */
  lemma ChainedReplace(s: seq<Section>, t: int, mid: seq<Section>)
    requires Chained(s) && Chained(mid) && 0 <= t < |s| && mid != []
    requires t > 0 ==> s[t - 1].downward == mid[0].upward
    requires t < |s| - 1 ==> mid[|mid| - 1].downward == s[t + 1].upward
    ensures Chained(s[..t] + mid + s[t + 1..])
  {
    var r := s[..t] + mid + s[t + 1..];
    forall i | 0 <= i < |r| - 1
      ensures r[i].downward == r[i + 1].upward
    {
      if i < t - 1 {
        assert r[i] == s[i] && r[i + 1] == s[i + 1];
      } else if i == t - 1 {
        assert r[i] == s[t - 1] && r[i + 1] == mid[0];
      } else if i < t + |mid| - 1 {
        assert r[i] == mid[i - t] && r[i + 1] == mid[i - t + 1];
      } else if i == t + |mid| - 1 {
        assert r[i] == mid[|mid| - 1] && r[i + 1] == s[t + 1];
      } else {
        assert r[i] == s[i - |mid| + 1] && r[i + 1] == s[i - |mid| + 2];
      }
    }
  }

  /** Replacing one section of a valid line by two connected sections that
      attach to its neighbours, the second of them a terminator when it
      replaces the last section, keeps the line valid. */
  lemma ReplacementKeepsLine(s: seq<Section>, t: int, mid: seq<Section>)
    requires ValidLine(s) && 0 <= t < |s| && |mid| == 2
    requires mid[0].downward == mid[1].upward
    requires t == 0 || mid[0].upward == s[t].upward
    requires t == |s| - 1 || mid[1].downward == s[t].downward || mid[1].downward == s[t + 1].upward
    requires t < |s| - 1 || IsTerminator(mid[1])
    ensures ValidLine(s[..t] + mid + s[t + 1..])
  {
    var r := s[..t] + mid + s[t + 1..];
    ChainedReplace(s, t, mid);
    assert r[|r| - 1] == if t < |s| - 1 then s[|s| - 1] else mid[1];
  }

  /** Replacing a section by a run of positive sections (the last of which
      may be a new terminator when it replaces the last section) keeps every
      real section positive. */
  lemma PositiveReplace(s: seq<Section>, t: int, mid: seq<Section>)
    requires PositiveDistances(s) && 0 <= t < |s| && mid != []
    requires forall i :: 0 <= i < |mid| - 1 ==> mid[i].distance > 0
    requires t < |s| - 1 ==> mid[|mid| - 1].distance > 0
    ensures PositiveDistances(s[..t] + mid + s[t + 1..])
  {
    var r := s[..t] + mid + s[t + 1..];
    forall i | 0 <= i < |r| - 1
      ensures r[i].distance > 0
    {
      if i < t {
        assert r[i] == s[i];
      } else if i < t + |mid| {
        assert r[i] == mid[i - t];
      } else {
        assert r[i] == s[i - |mid| + 1];
      }
    }
  }

  /** The sum of the distances of all sections. */
  function TotalDistance(s: seq<Section>): int
  {
    if s == [] then 0 else s[0].distance + TotalDistance(s[1..])
  }

  lemma {:induction false} TotalDistanceAppend(a: seq<Section>, b: seq<Section>)
    ensures TotalDistance(a + b) == TotalDistance(a) + TotalDistance(b)
  {
    if a == [] {
      assert a + b == b;
    } else {
      assert (a + b)[1..] == a[1..] + b;
      TotalDistanceAppend(a[1..], b);
    }
  }

  /** Each section ends where the next one starts. */
  ghost predicate Chained(s: seq<Section>)
  {
    forall i :: 0 <= i < |s| - 1 ==> s[i].downward == s[i + 1].upward
  }

  /** A non-empty list ends with a terminator. */
  ghost predicate Terminated(s: seq<Section>)
  {
    s != [] ==> IsTerminator(s[|s| - 1])
  }

  ghost predicate ValidLine(s: seq<Section>)
  {
    Chained(s) && Terminated(s)
  }

  /** No station occurs twice in a list of stations. */
  ghost predicate Distinct(xs: seq<Station>)
  {
    forall i, j :: 0 <= i < j < |xs| ==> xs[i] != xs[j]
  }

  /** No station starts two sections. */
  ghost predicate DistinctStations(s: seq<Section>)
  {
    Distinct(Stations(s))
  }

  /** The sentinel never starts a section. */
  ghost predicate RealStations(s: seq<Section>)
  {
    Terminal !in Stations(s)
  }

  /** Putting a station that is not in a list into it keeps the list free of repeats. */
  lemma DistinctInsert(xs: seq<Station>, k: int, x: Station)
    requires Distinct(xs) && x !in xs && 0 <= k <= |xs|
    ensures Distinct(xs[..k] + [x] + xs[k..])
  {
    var r := xs[..k] + [x] + xs[k..];
    forall i, j | 0 <= i < j < |r|
      ensures r[i] != r[j]
    {
      if j < k {
        assert r[i] == xs[i] && r[j] == xs[j];
      } else if j == k {
        assert r[j] == x && r[i] == xs[i];
      } else if i < k {
        assert r[i] == xs[i] && r[j] == xs[j - 1];
      } else if i == k {
        assert r[i] == x && r[j] == xs[j - 1];
      } else {
        assert r[i] == xs[i - 1] && r[j] == xs[j - 1];
      }
    }
  }

  /** Every section but the terminator has a positive distance. */
  ghost predicate PositiveDistances(s: seq<Section>)
  {
    forall i :: 0 <= i < |s| - 1 ==> s[i].distance > 0
  }

  /** Everything a line's section list keeps between operations. */
  ghost predicate WellFormed(s: seq<Section>)
  {
    ValidLine(s) && DistinctStations(s) && RealStations(s) && PositiveDistances(s)
  }
}
