/**
 * The ordered container of one line's sections. It is a typed list with
 * positional lookups; keeping the list a well-formed line is the job of
 * its owner, Line.
 */
module SectionList {
  import opened SectionModel

  class Sections {
    var items: seq<Section>

    constructor (initial: seq<Section>)
      ensures items == initial
    {
      items := initial;
    }

    function IsEmpty(): (r: bool)
      reads this
      ensures r <==> items == []
    {
      |items| == 0
    }

    function Size(): (r: nat)
      reads this
      ensures r == 0 <==> IsEmpty()
      ensures r == |Stations(items)|
    {
      |items|
    }

    function FindSectionByPosition(index: int): (r: Section)
      reads this
      requires 0 <= index < |items|
      ensures r in items
      ensures r.upward == Stations(items)[index]
    {
      items[index]
    }

    /** The upward station of every section, in order. */
    function GetUpwards(): (r: seq<Station>)
      reads this
      ensures |r| == |items|
      ensures forall x :: x in r <==> PositionOf(items, x) != NotExist
      ensures forall i :: 0 <= i < |r| ==> 0 <= PositionOf(items, r[i]) <= i
      ensures DistinctStations(items) ==> forall i :: 0 <= i < |r| ==> PositionOf(items, r[i]) == i
      ensures Chained(items) ==> forall i :: 0 < i < |r| ==> r[i] == items[i - 1].downward
    {
      PositionsOnLine(items);
      StationsFound(items);
      Stations(items)
    }

    /** Appends a section at the end. */
    method Add(section: Section)
      modifies this
      ensures items == old(items) + [section]
    {
      items := items + [section];
    }

    /** Inserts a section so that it ends up at `index`; later sections move up by one. */
    method Insert(index: int, section: Section)
      requires 0 <= index <= |items|
      modifies this
      ensures items == old(items)[..index] + [section] + old(items)[index..]
    {
      items := items[..index] + [section] + items[index..];
    }

    /** Removes the section at `index`; later sections move down by one. */
    method DeleteByPosition(index: int)
      requires 0 <= index < |items|
      modifies this
      ensures items == old(items)[..index] + old(items)[index + 1..]
    {
      items := items[..index] + items[index + 1..];
    }

    /** Linear search for the first section that starts at `station`. */
    method FindPosition(station: Station) returns (position: int)
      ensures position == PositionOf(items, station)
      ensures position == NotExist <==> station !in Stations(items)
    {
      var i := 0;
      while i < |items|
        invariant 0 <= i <= |items|
        invariant forall j :: 0 <= j < i ==> items[j].upward != station
      {
        if items[i].upward == station {
          PositionOfFirst(items, station, i);
          assert Stations(items)[i] == station;
          return i;
        }
        i := i + 1;
      }
      return NotExist;
    }
  }
}
