/**
 * What one insertion does to a line, stated over the specification Added
 * that Line.AddSection is proved to follow: the outcome of each row of the
 * decision table, the shape a line keeps, the station list it produces and
 * the total distance it conserves.
 */
module LineProperties {
  import opened SectionModel
  import opened LineModel

  // ----- the decision table, row by row -----

  /** The first section of a line brings its terminator with it. */
  lemma AddToEmptyLine(upward: Station, downward: Station, distance: int)
    ensures Added([], upward, downward, distance) ==
            Attempt(Done, [Section(upward, downward, distance), Section(downward, Terminal, 0)])
    ensures Stations(Added([], upward, downward, distance).sections) == [upward, downward]
  {
  }

  /** Both stations on the line: refused before anything changes. */
  lemma BothStationsRefused(s: seq<Section>, upward: Station, downward: Station, distance: int)
    requires s != [] && upward in Stations(s) && downward in Stations(s)
    ensures Added(s, upward, downward, distance) == Attempt(Failed(BothStationsExist), s)
  {
    PositionOfOnLine(s, upward);
    PositionOfOnLine(s, downward);
  }

  /** Neither station on the line: refused, nothing changes. */
  lemma NeitherStationRefused(s: seq<Section>, upward: Station, downward: Station, distance: int)
    requires s != [] && upward !in Stations(s) && downward !in Stations(s)
    ensures Added(s, upward, downward, distance) == Attempt(Failed(NoStationToConnect), s)
  {
    PositionOfOnLine(s, upward);
    PositionOfOnLine(s, downward);
  }

  /** A new station before the head: one new first section, every old
      section moves up by one position. */
  lemma NewHeadPrepended(s: seq<Section>, upward: Station, downward: Station, distance: int)
    requires s != [] && upward !in Stations(s) && s[0].upward == downward
    ensures var r := Added(s, upward, downward, distance);
            && r.outcome == Done
            && |r.sections| == |s| + 1
            && r.sections[0] == Section(upward, downward, distance)
            && forall i :: 0 <= i < |s| ==> r.sections[i + 1] == s[i]
  {
    PositionOfOnLine(s, upward);
    PositionOfFirst(s, downward, 0);
  }

  /** A new station just before `downward` (not the head) splits the section
      that ends at `downward`: its two parts add up to the old distance and
      every other section stays where it was. When the new distance is not
      shorter the insertion is refused, and the old section is gone already. */
  lemma SplitBeforeDownward(s: seq<Section>, upward: Station, downward: Station, distance: int)
    requires ValidLine(s) && upward !in Stations(s)
    requires downward in Stations(s) && downward != s[0].upward
    ensures var p := PositionOf(s, downward);
            var r := Added(s, upward, downward, distance);
            && 0 < p < |s|
            && s[p - 1].downward == downward
            && (if distance < s[p - 1].distance then
                  && r.outcome == Done
                  && |r.sections| == |s| + 1
                  && r.sections[..p - 1] == s[..p - 1]
                  && r.sections[p - 1] == Section(s[p - 1].upward, upward, s[p - 1].distance - distance)
                  && r.sections[p] == Section(upward, downward, distance)
                  && r.sections[p + 1..] == s[p..]
                  && r.sections[p - 1].distance + r.sections[p].distance == s[p - 1].distance
                else
                  r == Attempt(Failed(DistanceNotShorter), s[..p - 1] + s[p..]))
  {
    PositionOfOnLine(s, upward);
    PositionOfOnLine(s, downward);
    var p := PositionOf(s, downward);
    assert p != 0;
  }

  /** A new station just after `upward` (not the tail) splits the section
      that starts at `upward`, symmetrically. */
  lemma SplitAfterUpward(s: seq<Section>, upward: Station, downward: Station, distance: int)
    requires ValidLine(s) && downward !in Stations(s)
    requires upward in Stations(s) && PositionOf(s, upward) != |s| - 1
    ensures var p := PositionOf(s, upward);
            var r := Added(s, upward, downward, distance);
            && 0 <= p < |s| - 1
            && (if distance < s[p].distance then
                  && r.outcome == Done
                  && |r.sections| == |s| + 1
                  && r.sections[..p] == s[..p]
                  && r.sections[p] == Section(upward, downward, distance)
                  && r.sections[p + 1] == Section(downward, s[p].downward, s[p].distance - distance)
                  && r.sections[p + 2..] == s[p + 1..]
                  && r.sections[p].distance + r.sections[p + 1].distance == s[p].distance
                else
                  r == Attempt(Failed(DistanceNotShorter), s[..p] + s[p + 1..]))
  {
    PositionOfOnLine(s, upward);
    PositionOfOnLine(s, downward);
  }

  /** A new station after the tail: the terminator becomes a real section to
      the new station, and a new terminator follows it. */
  lemma NewTailAppended(s: seq<Section>, upward: Station, downward: Station, distance: int)
    requires s != [] && downward !in Stations(s) && PositionOf(s, upward) == |s| - 1
    ensures Added(s, upward, downward, distance) ==
            Attempt(Done, s[..|s| - 1] + [Section(upward, downward, distance), Terminator(downward)])
  {
    PositionOfOnLine(s, downward);
  }

  /** A refused split leaves the line one section short: the section it was
      to split has been deleted, and nothing was put in its place. */
  lemma RejectedSplitDropsSection(s: seq<Section>, upward: Station, downward: Station, distance: int)
    requires Added(s, upward, downward, distance).outcome == Failed(DistanceNotShorter)
    ensures exists t :: 0 <= t < |s| && s[t].distance <= distance &&
                        Added(s, upward, downward, distance).sections == s[..t] + s[t + 1..]
    ensures |Added(s, upward, downward, distance).sections| == |s| - 1
  {
    var up, dp := PositionOf(s, upward), PositionOf(s, downward);
    if up == NotExist {
      assert s[dp - 1].distance <= distance;
    } else {
      assert s[up].distance <= distance;
    }
  }

  /** A refused split can break the chain: on A-10-B-5-C, putting X 5 after B
      removes (B, C, 5) and leaves (A, B, 10) followed by C's terminator. */
  lemma RejectedSplitBreaksChain()
    ensures var s := [Section(Station(1), Station(2), 10), Section(Station(2), Station(3), 5),
                      Terminator(Station(3))];
            && ValidLine(s)
            && Added(s, Station(2), Station(4), 5) ==
               Attempt(Failed(DistanceNotShorter), [Section(Station(1), Station(2), 10), Terminator(Station(3))])
            && !Chained(Added(s, Station(2), Station(4), 5).sections)
  {
    var s := [Section(Station(1), Station(2), 10), Section(Station(2), Station(3), 5),
              Terminator(Station(3))];
    PositionOfFirst(s, Station(2), 1);
    assert Stations(s) == [Station(1), Station(2), Station(3)];
    PositionOfOnLine(s, Station(4));
    assert Added(s, Station(2), Station(4), 5) == SplitAfter(s, Station(2), Station(4), 5, 1);
    var r := s[..1] + s[2..];
    assert r == [Section(Station(1), Station(2), 10), Terminator(Station(3))];
    assert r[0].downward != r[1].upward;
  }

  // ----- what every successful insertion keeps -----

  /** An insertion into a non-empty line succeeds only when exactly one of
      its stations is on the line already. */
  lemma AddedNeedsOneStation(s: seq<Section>, upward: Station, downward: Station, distance: int)
    requires s != [] && Added(s, upward, downward, distance).outcome == Done
    ensures (upward in Stations(s)) != (downward in Stations(s))
    ensures (PositionOf(s, upward) == NotExist) != (PositionOf(s, downward) == NotExist)
  {
    PositionOfOnLine(s, upward);
    PositionOfOnLine(s, downward);
  }

  /** Every successful insertion into a non-empty list replaces the one
      section at `t` by the two sections `mid`: the new section and the
      part of the old one it does not cover (a terminator after a new tail,
      or the old head itself when the new section goes in front of it). */
  lemma Replacement(s: seq<Section>, upward: Station, downward: Station, distance: int)
      returns (t: int, mid: seq<Section>)
    requires s != [] && Added(s, upward, downward, distance).outcome == Done
    ensures 0 <= t < |s| && |mid| == 2
    ensures Added(s, upward, downward, distance).sections == s[..t] + mid + s[t + 1..]
    ensures Section(upward, downward, distance) in mid
    ensures Terminated(s) ==>
              mid[0].distance + mid[1].distance ==
              s[t].distance + (if ExtendsLine(s, upward, downward) then distance else 0)
    ensures distance > 0 && PositiveDistances(s) ==>
              mid[0].distance > 0 && (mid[1].distance > 0 || t == |s| - 1)
    ensures mid[0].downward == mid[1].upward
    ensures t == 0 || mid[0].upward == s[t].upward
    ensures t == |s| - 1 || mid[1].downward == s[t].downward || mid[1].downward == s[t + 1].upward
    ensures t < |s| - 1 || mid[1] == Terminator(downward) || mid[1] == s[t]
  {
    var a := Added(s, upward, downward, distance);
    var up, dp := PositionOf(s, upward), PositionOf(s, downward);
    assert a == AddedAt(s, upward, downward, distance, up, dp);
    var x := Section(upward, downward, distance);
    if up == NotExist {
      if dp == 0 {
        t, mid := 0, [x, s[0]];
        assert a.sections == s[..0] + mid + s[1..];
      } else {
        t := dp - 1;
        mid := [Section(s[t].upward, upward, s[t].distance - distance), x];
        assert a == SplitBefore(s, upward, downward, distance, t);
      }
    } else if up == |s| - 1 {
      t, mid := up, [x, Terminator(downward)];
    } else {
      t := up;
      mid := [x, Section(downward, s[up].downward, s[up].distance - distance)];
      assert a == SplitAfter(s, upward, downward, distance, up);
    }
  }

  /** A successful insertion keeps the list chained and terminated, and adds
      exactly one section (two on an empty line, with the terminator). */
  lemma AddedPreservesLine(s: seq<Section>, upward: Station, downward: Station, distance: int)
    requires ValidLine(s) && Added(s, upward, downward, distance).outcome == Done
    ensures ValidLine(Added(s, upward, downward, distance).sections)
    ensures |Added(s, upward, downward, distance).sections| == if s == [] then 2 else |s| + 1
  {
    var r := Added(s, upward, downward, distance).sections;
    if s == [] {
      assert r == [Section(upward, downward, distance), Terminator(downward)];
      return;
    }
    var t, mid := Replacement(s, upward, downward, distance);
    assert t < |s| - 1 || IsTerminator(mid[1]);
    ReplacementKeepsLine(s, t, mid);
  }

  /** Inserting a new `upward` puts it into the station list right before
      `downward`; every other station keeps its order. */
  lemma AddedStationBefore(s: seq<Section>, upward: Station, downward: Station, distance: int)
    requires s != [] && upward !in Stations(s) && Added(s, upward, downward, distance).outcome == Done
    ensures var st, k := Stations(s), PositionOf(s, downward);
            && 0 <= k < |st| && st[k] == downward
            && Stations(Added(s, upward, downward, distance).sections) == st[..k] + [upward] + st[k..]
  {
    PositionOfOnLine(s, upward);
    var dp := PositionOf(s, downward);
    assert Added(s, upward, downward, distance) == AddedAt(s, upward, downward, distance, NotExist, dp);
    StationBeforeAt(s, upward, downward, distance, dp);
  }

  /** AddedStationBefore, once the position `dp` of `downward` is known. */
  lemma StationBeforeAt(s: seq<Section>, upward: Station, downward: Station, distance: int, dp: int)
    requires s != [] && NotExist <= dp < |s|
    requires AddedAt(s, upward, downward, distance, NotExist, dp).outcome == Done
    ensures 0 <= dp
    ensures Stations(AddedAt(s, upward, downward, distance, NotExist, dp).sections) ==
            Stations(s)[..dp] + [upward] + Stations(s)[dp..]
  {
    var a := AddedAt(s, upward, downward, distance, NotExist, dp);
    if dp == 0 {
      assert a.sections == [Section(upward, downward, distance)] + s;
      assert Stations(a.sections) == [upward] + Stations(s);
    } else {
      var t := dp - 1;
      var mid := [Section(s[t].upward, upward, s[t].distance - distance), Section(upward, downward, distance)];
      assert a == SplitBefore(s, upward, downward, distance, t);
      assert a.sections == s[..t] + mid + s[t + 1..];
      StationsSplit(s, t, mid, upward);
    }
  }

  /** Inserting a new `downward` puts it into the station list right after
      `upward`; every other station keeps its order. */
  lemma AddedStationAfter(s: seq<Section>, upward: Station, downward: Station, distance: int)
    requires s != [] && downward !in Stations(s) && Added(s, upward, downward, distance).outcome == Done
    ensures var st, k := Stations(s), PositionOf(s, upward) + 1;
            && 0 < k <= |st| && st[k - 1] == upward
            && Stations(Added(s, upward, downward, distance).sections) == st[..k] + [downward] + st[k..]
  {
    PositionOfOnLine(s, downward);
    var st := Stations(s);
    var a := Added(s, upward, downward, distance);
    var up := PositionOf(s, upward);
    assert a == AddedAt(s, upward, downward, distance, up, NotExist);
    var x := Section(upward, downward, distance);
    var mid := if up == |s| - 1 then [x, Terminator(downward)]
               else [x, Section(downward, s[up].downward, s[up].distance - distance)];
    assert a.sections == s[..up] + mid + s[up + 1..];
    StationsSplit(s, up, mid, downward);
  }

  /** A successful insertion of a real station keeps every station on the line once. */
  lemma AddedKeepsStationsDistinct(s: seq<Section>, upward: Station, downward: Station, distance: int)
    requires DistinctStations(s) && RealStations(s)
    requires s != [] || upward != downward
    requires upward != Terminal && downward != Terminal
    requires Added(s, upward, downward, distance).outcome == Done
    ensures DistinctStations(Added(s, upward, downward, distance).sections)
    ensures RealStations(Added(s, upward, downward, distance).sections)
  {
    var r := Added(s, upward, downward, distance).sections;
    if s == [] {
      assert Stations(r) == [upward, downward];
      return;
    }
    var st := Stations(s);
    var up, dp := PositionOf(s, upward), PositionOf(s, downward);
    AddedNeedsOneStation(s, upward, downward, distance);
    PositionOfOnLine(s, upward);
    PositionOfOnLine(s, downward);
    if up == NotExist {
      AddedStationBefore(s, upward, downward, distance);
      DistinctInsert(st, dp, upward);
      assert Stations(r) == st[..dp] + [upward] + st[dp..];
    } else {
      AddedStationAfter(s, upward, downward, distance);
      DistinctInsert(st, up + 1, downward);
      assert Stations(r) == st[..up + 1] + [downward] + st[up + 1..];
    }
  }

  /** The one insertion that repeats a station: nothing stops the first
      section of a line from starting and ending at the same station, and the
      line then lists that station twice. */
  lemma SameStationOnEmptyLine()
    ensures var r := Added([], Station(1), Station(1), 5);
            && r.outcome == Done
            && ValidLine(r.sections) && PositiveDistances(r.sections) && RealStations(r.sections)
            && !DistinctStations(r.sections)
  {
    var r := Added([], Station(1), Station(1), 5).sections;
    assert r == [Section(Station(1), Station(1), 5), Terminator(Station(1))];
    assert Stations(r) == [Station(1), Station(1)];
    assert Stations(r)[0] == Stations(r)[1];
  }

  /** A successful insertion with a positive distance keeps every real
      section's distance positive. */
  lemma AddedKeepsDistancesPositive(s: seq<Section>, upward: Station, downward: Station, distance: int)
    requires PositiveDistances(s) && distance > 0
    requires Added(s, upward, downward, distance).outcome == Done
    ensures PositiveDistances(Added(s, upward, downward, distance).sections)
  {
    if s == [] {
      return;
    }
    var t, mid := Replacement(s, upward, downward, distance);
    PositiveReplace(s, t, mid);
  }

  /** Every successful insertion of a new real station, at a positive
      distance, keeps a well-formed line well-formed and one section longer. */
  lemma AddedPreservesWellFormed(s: seq<Section>, upward: Station, downward: Station, distance: int)
    requires WellFormed(s)
    requires s != [] || upward != downward
    requires upward != Terminal && downward != Terminal && distance > 0
    requires Added(s, upward, downward, distance).outcome == Done
    ensures WellFormed(Added(s, upward, downward, distance).sections)
    ensures |Added(s, upward, downward, distance).sections| == if s == [] then 2 else |s| + 1
  {
    AddedPreservesLine(s, upward, downward, distance);
    AddedKeepsStationsDistinct(s, upward, downward, distance);
    AddedKeepsDistancesPositive(s, upward, downward, distance);
  }

  // ----- distance -----

  /** The insertion lengthens the line: onto an empty line, before the head or after the tail. */
  ghost predicate ExtendsLine(s: seq<Section>, upward: Station, downward: Station)
  {
    s == [] || PositionOf(s, downward) == 0 || PositionOf(s, upward) == |s| - 1
  }

  /** A split conserves the line's total distance; an insertion that
      lengthens the line adds exactly the new section's distance. */
  lemma AddedDistance(s: seq<Section>, upward: Station, downward: Station, distance: int)
    requires Terminated(s) && Added(s, upward, downward, distance).outcome == Done
    ensures TotalDistance(Added(s, upward, downward, distance).sections) ==
            TotalDistance(s) + (if ExtendsLine(s, upward, downward) then distance else 0)
  {
    var r := Added(s, upward, downward, distance).sections;
    if s == [] {
      assert r == [Section(upward, downward, distance), Terminator(downward)];
      assert r[1..] == [Terminator(downward)] && r[1..][1..] == [];
      assert TotalDistance(r) == r[0].distance + TotalDistance(r[1..]);
      assert TotalDistance(r[1..]) == 0 + TotalDistance(r[1..][1..]);
      return;
    }
    var t, mid := Replacement(s, upward, downward, distance);
    TotalDistanceReplace(s, t, mid);
    assert TotalDistance(mid) == mid[0].distance + TotalDistance(mid[1..]);
    assert TotalDistance(mid[1..]) == mid[1].distance + TotalDistance([]);
  }

  // ----- a scenario from the repository's tests -----

  /** Jamsil -10- Jamsil-saenae, then Sports Complex 3 after Jamsil: the
      line lists Jamsil, Sports Complex, Jamsil-saenae, with 3 and 7. */
  lemma InsertBetweenScenario()
    ensures var jamsil, complex, saenae := Station(1), Station(2), Station(3);
            var s := [Section(jamsil, saenae, 10), Terminator(saenae)];
            var r := Added(s, jamsil, complex, 3);
            && r == Attempt(Done, [Section(jamsil, complex, 3), Section(complex, saenae, 7), Terminator(saenae)])
            && Stations(r.sections) == [jamsil, complex, saenae]
  {
    var jamsil, complex, saenae := Station(1), Station(2), Station(3);
    var s := [Section(jamsil, saenae, 10), Terminator(saenae)];
    PositionOfFirst(s, jamsil, 0);
    assert Stations(s) == [jamsil, saenae];
    PositionOfOnLine(s, complex);
    var r := Added(s, jamsil, complex, 3).sections;
    assert r == [Section(jamsil, complex, 3), Section(complex, saenae, 7), Terminator(saenae)];
  }
}
