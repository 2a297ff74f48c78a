/**
 * A subway line and the insertion of a section into it. Added states, on
 * plain sequences, what one insertion does to the list of sections; the
 * class Line performs the same insertion in place, through the deletes and
 * inserts of its Sections container, and is proved to agree with Added.
 */
module LineModel {
  import opened SectionModel
  import opened SectionList

  /** Why an insertion is refused. The first two are raised as an invalid
      section, the last as an invalid distance. */
  datatype LineError = BothStationsExist | NoStationToConnect | DistanceNotShorter
  {
    function Message(): string
    {
      match this
      case BothStationsExist => "두 역이 이미 노선에 존재합니다."
      case NoStationToConnect => "연결할 역 정보가 없습니다."
      case DistanceNotShorter => "추가될 역의 거리는 추가될 위치의 두 역사이의 거리보다 작아야합니다."
    }
  }

  /** Each refusal is told apart by its message alone. */
  lemma MessageIdentifiesError(e: LineError, f: LineError)
    ensures e.Message() == f.Message() <==> e == f
  {
    if e != f {
      assert e.Message()[0] != f.Message()[0];
    }
  }

  /** Normal completion, or the exception an operation throws. */
  datatype Outcome = Done | Failed(error: LineError)

  /** What an operation reports, and the section list it leaves behind. */
  datatype Attempt = Attempt(outcome: Outcome, sections: seq<Section>)

  /** The position a lookup of a station that is not yet on the line yields. */
  const AdditionalIndex: int := -1

  /** Inserting (upward, downward, distance) into the section list `s`:
      - into an empty list: the section and a terminator after `downward`;
      - when both stations, or neither, start a section: refused, `s` kept;
      - a new `upward` before the head `downward`: a new first section;
      - a new `upward` before any other `downward`: the section (A, downward, l)
        becomes (A, upward, l - distance), (upward, downward, distance);
      - a new `downward` after the tail `upward`: the terminator becomes
        (upward, downward, distance) and a new terminator follows;
      - a new `downward` after any other `upward`: the section (upward, B, l)
        becomes (upward, downward, distance), (downward, B, l - distance).
      A split with distance >= l is refused after the split section has
      already been taken out of the list. */
  function Added(s: seq<Section>, upward: Station, downward: Station, distance: int): (r: Attempt)
    ensures |r.sections| == if s == [] then 2 else |s| + Growth(r.outcome)
    ensures s != [] || r.outcome == Done
  {
    if s == [] then
      Attempt(Done, [Section(upward, downward, distance), Terminator(downward)])
    else
      AddedAt(s, upward, downward, distance, PositionOf(s, upward), PositionOf(s, downward))
  }

  /** How many sections an insertion with this outcome leaves the list
      longer: one on success, none when refused up front, and one fewer when
      a split is refused after its section was taken out. */
  function Growth(outcome: Outcome): int
  {
    match outcome
    case Done => 1
    case Failed(DistanceNotShorter) => -1
    case Failed(_) => 0
  }

  /** Added on a non-empty list, given the positions `up` of `upward` and
      `dp` of `downward` found in it. */
  function AddedAt(s: seq<Section>, upward: Station, downward: Station, distance: int,
                   up: int, dp: int): (r: Attempt)
    requires s != []
    requires NotExist <= up < |s| && NotExist <= dp < |s|
    ensures |r.sections| == |s| + Growth(r.outcome)
    ensures r.outcome == Failed(BothStationsExist) <==> up != NotExist && dp != NotExist
    ensures r.outcome == Failed(NoStationToConnect) <==> up == NotExist && dp == NotExist
  {
    var checked := ValidateForAddSection(up, dp);
    if checked.Failed? then
      Attempt(checked, s)
    else if ShouldAddUpward(up) then
      if dp == 0 then Attempt(Done, [Section(upward, downward, distance)] + s)
      else SplitBefore(s, upward, downward, distance, dp - 1)
    else if up == |s| - 1 then
      Attempt(Done, s[..up] + [Section(upward, downward, distance), Terminator(downward)])
    else
      SplitAfter(s, upward, downward, distance, up)
  }

  /** A new `upward` goes into the section at `t`, which ends at `downward`.
      The section is taken out first; the two parts that replace it go in
      only when the new distance is shorter. */
  function SplitBefore(s: seq<Section>, upward: Station, downward: Station, distance: int, t: int): (r: Attempt)
    requires 0 <= t < |s|
    ensures r.outcome == Done <==> distance < s[t].distance
    ensures r.outcome == Done || r.outcome == Failed(DistanceNotShorter)
    ensures |r.sections| == |s| + Growth(r.outcome)
  {
    var checked := ValidateDistance(s[t].distance, distance);
    if checked.Failed? then
      Attempt(checked, s[..t] + s[t + 1..])
    else
      Attempt(Done, s[..t] + [Section(s[t].upward, upward, s[t].distance - distance),
                              Section(upward, downward, distance)] + s[t + 1..])
  }

  /** A new `downward` goes into the section at `up`, which starts at `upward`,
      in the same delete-then-check order. */
  function SplitAfter(s: seq<Section>, upward: Station, downward: Station, distance: int, up: int): (r: Attempt)
    requires 0 <= up < |s|
    ensures r.outcome == Done <==> distance < s[up].distance
    ensures r.outcome == Done || r.outcome == Failed(DistanceNotShorter)
    ensures |r.sections| == |s| + Growth(r.outcome)
  {
    var checked := ValidateDistance(s[up].distance, distance);
    if checked.Failed? then
      Attempt(checked, s[..up] + s[up + 1..])
    else
      Attempt(Done, s[..up] + [Section(upward, downward, distance),
                               Section(downward, s[up].downward, s[up].distance - distance)] + s[up + 1..])
  }

  /** Refuses an insertion whose stations are both, or neither, on the line. */
  function ValidateForAddSection(upwardPosition: int, downwardPosition: int): (r: Outcome)
    ensures r == Done <==> (upwardPosition == NotExist) != (downwardPosition == NotExist)
    ensures r == Failed(BothStationsExist) <==> upwardPosition != NotExist && downwardPosition != NotExist
    ensures r == Failed(NoStationToConnect) <==> upwardPosition == NotExist && downwardPosition == NotExist
  {
    if upwardPosition != NotExist && downwardPosition != NotExist then Failed(BothStationsExist)
    else if upwardPosition == NotExist && downwardPosition == NotExist then Failed(NoStationToConnect)
    else Done
  }

  /** A split must leave the rest of the old section a positive distance. */
  function ValidateDistance(oldDistance: int, inputDistance: int): (r: Outcome)
    ensures r == Done <==> inputDistance < oldDistance
    ensures r == Done || r == Failed(DistanceNotShorter)
  {
    if oldDistance <= inputDistance then Failed(DistanceNotShorter) else Done
  }

  /** The marker for "add on the upward side" is the lookup's not-found answer:
      the upward station is the new one exactly when its lookup failed. */
  function ShouldAddUpward(upwardPosition: int): (r: bool)
    ensures r <==> upwardPosition == NotExist
  {
    upwardPosition == AdditionalIndex
  }

  class Line {
    const sections: Sections

    /** A line with no sections yet. */
    constructor Empty()
      ensures fresh(sections) && sections.items == []
    {
      sections := new Sections([]);
    }

    /** A line over sections already put in travel order. */
    constructor (initial: seq<Section>)
      ensures fresh(sections) && sections.items == initial
    {
      sections := new Sections(initial);
    }

    /** The line's stations in travel order. */
    function Show(): (r: seq<Station>)
      reads this, sections
      ensures |r| == |sections.items|
      ensures forall i :: 0 <= i < |r| ==> 0 <= PositionOf(sections.items, r[i]) <= i
      ensures DistinctStations(sections.items) ==>
                forall i :: 0 <= i < |r| ==> PositionOf(sections.items, r[i]) == i
      ensures Chained(sections.items) ==>
                forall i :: 0 < i < |r| ==> r[i] == sections.items[i - 1].downward
    {
      sections.GetUpwards()
    }

    method AddSection(upward: Station, downward: Station, distance: int) returns (outcome: Outcome)
      modifies sections
      ensures Attempt(outcome, sections.items) == Added(old(sections.items), upward, downward, distance)
    {
      if sections.IsEmpty() {
        AddInitialSection(upward, downward, distance);
        return Done;
      }

      ghost var s := sections.items;
      var upwardPosition := sections.FindPosition(upward);
      var downwardPosition := sections.FindPosition(downward);
      ghost var expected := AddedAt(s, upward, downward, distance, upwardPosition, downwardPosition);
      assert Added(s, upward, downward, distance) == expected;
      outcome := ValidateForAddSection(upwardPosition, downwardPosition);
      if outcome.Failed? {
        assert expected == Attempt(outcome, s);
        return;
      }

      if ShouldAddUpward(upwardPosition) {
        assert 0 <= downwardPosition < |s|;
        if downwardPosition == 0 {  // the downward station heads the line
          sections.Insert(0, Section(upward, downward, distance));
          assert sections.items == [Section(upward, downward, distance)] + s;
          assert expected == Attempt(Done, [Section(upward, downward, distance)] + s);
          return;
        }
        outcome := AddUpwardSectionBetweenStations(upward, downward, distance, downwardPosition);
        assert expected == SplitBefore(s, upward, downward, distance, downwardPosition - 1);
        return;
      }

      assert 0 <= upwardPosition < |s|;
      if sections.Size() - 1 == upwardPosition {  // the upward station is the tail
        AddDownwardSectionInLast(upward, downward, distance);
        assert expected == Attempt(Done, s[..upwardPosition] + [Section(upward, downward, distance), Terminator(downward)]);
        return;
      }
      outcome := AddDownwardSectionBetweenStations(upward, downward, distance, upwardPosition);
      assert expected == SplitAfter(s, upward, downward, distance, upwardPosition);
    }

    method AddInitialSection(upward: Station, downward: Station, distance: int)
      modifies sections
      ensures sections.items == old(sections.items) + [Section(upward, downward, distance), Terminator(downward)]
    {
      sections.Add(Section(upward, downward, distance));
      sections.Add(Section(downward, Terminal, 0));
    }

    /** Splits the section that ends at `downward`, found just before `downwardPosition`. */
    method AddUpwardSectionBetweenStations(upward: Station, downward: Station, distance: int,
                                           downwardPosition: int) returns (outcome: Outcome)
      requires 0 < downwardPosition < |sections.items|
      modifies sections
      ensures Attempt(outcome, sections.items) ==
              SplitBefore(old(sections.items), upward, downward, distance, downwardPosition - 1)
    {
      ghost var s := sections.items;
      var targetPosition := downwardPosition - 1;
      var section := sections.FindSectionByPosition(targetPosition);
      sections.DeleteByPosition(targetPosition);
      outcome := ValidateDistance(section.distance, distance);
      if outcome.Failed? {
        return;
      }
      ghost var rest := sections.items;
      assert rest[..targetPosition] == s[..targetPosition];
      assert rest[targetPosition..] == s[targetPosition + 1..];
      sections.Insert(targetPosition, Section(upward, downward, distance));
      ghost var mid := sections.items;
      assert mid[..targetPosition] == s[..targetPosition];
      assert mid[targetPosition..] == [Section(upward, downward, distance)] + s[targetPosition + 1..];
      sections.Insert(targetPosition, Section(section.upward, upward, section.distance - distance));
      assert sections.items == s[..targetPosition] + [Section(section.upward, upward, section.distance - distance),
                                                      Section(upward, downward, distance)] + s[targetPosition + 1..];
    }

    /** Replaces the terminator with the new last section and a new terminator. */
    method AddDownwardSectionInLast(upward: Station, downward: Station, distance: int)
      requires |sections.items| > 0
      modifies sections
      ensures var s := old(sections.items);
              sections.items == s[..|s| - 1] + [Section(upward, downward, distance), Terminator(downward)]
    {
      sections.DeleteByPosition(sections.Size() - 1);
      sections.Insert(sections.Size(), Section(upward, downward, distance));
      sections.Insert(sections.Size(), Section(downward, Terminal, 0));
    }

    /** Splits the section that starts at `upward`, found at `upwardPosition`. */
    method AddDownwardSectionBetweenStations(upward: Station, downward: Station, distance: int,
                                             upwardPosition: int) returns (outcome: Outcome)
      requires 0 <= upwardPosition < |sections.items|
      modifies sections
      ensures Attempt(outcome, sections.items) ==
              SplitAfter(old(sections.items), upward, downward, distance, upwardPosition)
    {
      ghost var s := sections.items;
      var section := sections.FindSectionByPosition(upwardPosition);
      sections.DeleteByPosition(upwardPosition);
      outcome := ValidateDistance(section.distance, distance);
      if outcome.Failed? {
        return;
      }
      ghost var rest := sections.items;
      assert rest[..upwardPosition] == s[..upwardPosition];
      assert rest[upwardPosition..] == s[upwardPosition + 1..];
      sections.Insert(upwardPosition, Section(downward, section.downward, section.distance - distance));
      ghost var mid := sections.items;
      assert mid[..upwardPosition] == s[..upwardPosition];
      assert mid[upwardPosition..] ==
             [Section(downward, section.downward, section.distance - distance)] + s[upwardPosition + 1..];
      sections.Insert(upwardPosition, Section(upward, downward, distance));
      assert sections.items == s[..upwardPosition] + [Section(upward, downward, distance),
                                                      Section(downward, section.downward, section.distance - distance)]
                                                   + s[upwardPosition + 1..];
    }
  }
}
