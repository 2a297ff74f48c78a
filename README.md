# Subway line sections and the route surcharge, in Dafny

This project models two parts of a subway route service.

The first is how a **line** keeps its stations. A line holds an ordered list of
**sections** `(upward, downward, distance)`. The list is closed by a terminator
section `(tail, TERMINAL, 0)`. `Line.addSection` puts a new station into the
line in one of these ways:
- it starts an empty line;
- it puts the station before the head;
- it splits an existing section from either end;
- it puts the station after the tail.

It refuses the insertion when both stations are already on the line, when
neither is, or when a split would leave the rest of the old section no positive distance.

The second is the **route surcharge** step of the fare calculation. It adds to
the running fare the highest per-line surcharge among the sections of the
path.

Layout:
- `section.dfy` (module `SectionModel`) holds stations, sections and the
  first-match position lookup. It also holds the shape a line keeps: chained,
  terminated, each station once, and positive distances.
- `sections.dfy` (module `SectionList`) holds the `Sections` container as a
  class over a `seq<Section>`, with positional add, delete and lookup.
- `line.dfy` (module `LineModel`) holds the specification function `Added`,
  which gives the outcome and the resulting list of one insertion. It also
  holds the class `Line`, whose `AddSection` works in place through its
  `Sections` and is proved to agree with `Added`.
- `line_properties.dfy` (module `LineProperties`) holds lemmas about `Added`:
  - each row of the decision table;
  - the refused split, which drops a section;
  - preservation of the line's shape;
  - where the new station lands in the station list;
  - total distance;
  - the insertion scenario of the repository's tests.
- `route_fare.dfy` (module `RouteFare`) holds the surcharge as a fold with max
  over the surcharges of the path's sections.

Exceptions become `Outcome` values: `Done`, or `Failed` with the reason. The
reasons carry the messages the code throws. A failed `AddSection` still
reports the list it leaves behind. That matters, because the code deletes the
section to split **before** it checks the distance. A refused split therefore
leaves the line one section short, and may leave it broken, as
`RejectedSplitDropsSection` and `RejectedSplitBreaksChain` state. A caller
cannot rely on a refused split leaving the line unchanged.

## Model

| member | source | states |
|---|---|---|
| SectionModel.PositionOf | src/main/java/subway/domain/line/Line.java:36-37 | The lookup answers NotExist (-1) exactly when no section starts at the station. Otherwise it answers an index whose section starts there, and no earlier section does. |
| SectionModel.PositionOfFirst | src/main/java/subway/domain/line/Line.java:36-37 | Any first section that starts at the station is the position the lookup reports. |
| SectionModel.PositionOfOnLine | src/main/java/subway/domain/line/Line.java:36-38 | A position is found exactly when the station is among the line's stations. |
| SectionModel.DistinctInsert | src/main/java/subway/domain/line/Line.java:40-53 | Putting a station that is not in a list of stations into it, at any place, keeps the list free of repeats. |
| SectionModel.ChainedReplace | src/main/java/subway/domain/line/Line.java:80-107 | Replacing one section by a chained run that connects to both neighbours keeps every section ending where the next one starts. |
| SectionModel.TotalDistanceReplace | src/main/java/subway/domain/line/Line.java:80-107 | Replacing one section changes the line's total distance by the replacement's total minus the old section's distance. |
| SectionModel.StationsFound | src/main/java/subway/domain/line/Line.java:115-117 | Every station in the station list is found by the lookup, no later than its place. When no station is listed twice, it is found exactly at its place. |
| SectionModel.PositionsOnLine | src/main/java/subway/domain/line/Line.java:36-37 | The lookup finds a station exactly when the station is in the station list, for every station at once. |
| SectionModel.ReplacementKeepsLine | src/main/java/subway/domain/line/Line.java:80-107 | Replacing one section of a valid line by two connected sections that attach to its neighbours keeps it chained and terminated. When the last section is replaced, the second new section must be a terminator. |
| SectionList.Sections.IsEmpty | src/main/java/subway/domain/line/Line.java:31 | The container is empty exactly when it holds no sections. |
| SectionList.Sections.Size | src/main/java/subway/domain/line/Line.java:91 | The size is zero exactly when the container is empty, and it equals the number of listed stations. |
| SectionList.Sections.FindSectionByPosition | src/main/java/subway/domain/line/Line.java:83 | Reading an index gives a section of the line that starts at the station listed at that index. |
| SectionList.Sections.GetUpwards | src/main/java/subway/domain/line/Line.java:116 | Lists one station per section, and a station is listed exactly when the lookup finds it. Each listed station is found no later than its place, and exactly at its place when no station repeats. On a chained line, every listed station after the first is where the previous section ends, so the list follows travel order. |
| SectionList.Sections.constructor | src/main/java/subway/domain/line/Line.java:27 | The container holds exactly the given sections, in order. |
| SectionList.Sections.Add | src/main/java/subway/domain/line/Line.java:57-58 | Appending leaves the old sections in place and the new one last. |
| SectionList.Sections.Insert | src/main/java/subway/domain/line/Line.java:42 | Adding at an index puts the section exactly there. The sections before it stay, and the ones from that index on move up by one. |
| SectionList.Sections.DeleteByPosition | src/main/java/subway/domain/line/Line.java:84 | Deleting at an index removes exactly that section. The ones after it move down by one. |
| SectionList.Sections.FindPosition | src/main/java/subway/domain/line/Line.java:36-37 | The linear search returns the first-match position PositionOf. It returns NotExist exactly when the station is not on the line. |
| LineModel.MessageIdentifiesError | src/main/java/subway/domain/line/Line.java:61-113 | The three refusal messages thrown by the validators are pairwise different, so a message identifies its error. |
| LineModel.ShouldAddUpward | src/main/java/subway/domain/line/Line.java:72-74 | The "add upward" marker is the lookup's not-found answer: the check holds exactly when the upward station's lookup failed. |
| LineModel.Added | src/main/java/subway/domain/line/Line.java:30-54 | An insertion onto an empty line always succeeds, with two sections. Otherwise the list grows by one on success, stays the same length when refused up front, and shrinks by one when a split is refused. |
| LineModel.AddedAt | src/main/java/subway/domain/line/Line.java:36-53 | Given the two lookup results, the insertion is refused as "both exist" exactly when both were found, and as "no station to connect" exactly when neither was. The length changes as for Added. |
| LineModel.SplitBefore | src/main/java/subway/domain/line/Line.java:80-88 | Splitting the section before the downward station succeeds exactly when the new distance is shorter than the section's. Otherwise it fails with the distance error. The list grows by one on success and shrinks by one on failure. |
| LineModel.SplitAfter | src/main/java/subway/domain/line/Line.java:100-107 | Splitting the section after the upward station succeeds exactly when the new distance is shorter than the section's. Otherwise it fails with the distance error. The list grows by one on success and shrinks by one on failure. |
| LineModel.ValidateForAddSection | src/main/java/subway/domain/line/Line.java:61-70 | Refuses with "both stations exist" exactly when both positions are found. Refuses with "no station to connect" exactly when neither is found. Passes exactly when one is found. |
| LineModel.ValidateDistance | src/main/java/subway/domain/line/Line.java:109-113 | Passes exactly when the new distance is strictly shorter than the old one. Otherwise it refuses with the distance error. |
| LineModel.Line.Empty | src/main/java/subway/domain/line/Line.java:19-21 | A line built without sections starts with a fresh, empty container. |
| LineModel.Line.constructor | src/main/java/subway/domain/line/Line.java:23-28 | A line built from sections holds exactly those sections in a fresh container. |
| LineModel.Line.Show | src/main/java/subway/domain/line/Line.java:115-117 | Lists one station per section. Each listed station is found by the lookup, no later than its place. When no station is listed twice, the lookup finds each one exactly at its place. On a chained line, every listed station after the first is where the previous section ends. |
| LineModel.Line.AddSection | src/main/java/subway/domain/line/Line.java:30-54 | The outcome and the new list of sections are exactly those `Added` gives for the old list, on every branch. This includes the refused branches and the partial deletion. |
| LineModel.Line.AddInitialSection | src/main/java/subway/domain/line/Line.java:56-59 | Appends the new section and then the terminator after its downward station. |
| LineModel.Line.AddUpwardSectionBetweenStations | src/main/java/subway/domain/line/Line.java:80-88 | Follows `SplitBefore`. The section that ends at `downward` is deleted first. If the distance is too long the method stops there. Otherwise the two parts go back in its place. |
| LineModel.Line.AddDownwardSectionInLast | src/main/java/subway/domain/line/Line.java:94-98 | Replaces the terminator by the new section and a new terminator after its downward station. |
| LineModel.Line.AddDownwardSectionBetweenStations | src/main/java/subway/domain/line/Line.java:100-107 | Follows `SplitAfter`. The section that starts at `upward` is deleted first. If the distance is too long the method stops there. Otherwise the two parts go back in its place. |
| LineProperties.AddToEmptyLine | src/main/java/subway/domain/line/Line.java:31-34 | On an empty line the insertion succeeds with the section and its terminator. The stations are then exactly upward, downward. |
| LineProperties.BothStationsRefused | src/main/java/subway/domain/line/Line.java:62-65 | With both stations on the line the insertion is refused and the list is unchanged. |
| LineProperties.NeitherStationRefused | src/main/java/subway/domain/line/Line.java:66-69 | With neither station on the line the insertion is refused and the list is unchanged. |
| LineProperties.NewHeadPrepended | src/main/java/subway/domain/line/Line.java:40-43 | A new upward before the head gives one new first section. Every old section moves up by one. |
| LineProperties.SplitBeforeDownward | src/main/java/subway/domain/line/Line.java:80-88 | A new upward before a non-head station splits the section that ends there. The two parts add up to its distance and the other sections keep their places. A distance that is not shorter is refused, with that section already removed. |
| LineProperties.SplitAfterUpward | src/main/java/subway/domain/line/Line.java:100-107 | A new downward after a non-tail station splits the section that starts there. The two parts add up to its distance and the other sections keep their places. A distance that is not shorter is refused, with that section already removed. |
| LineProperties.NewTailAppended | src/main/java/subway/domain/line/Line.java:49-51 | When the upward station's lookup lands on the last section and the downward station is new, the insertion replaces that section by the new section and a new terminator. |
| LineProperties.RejectedSplitDropsSection | src/main/java/subway/domain/line/Line.java:83-85 | A split refused for its distance leaves the list without one section: a section at least as short as the new distance. The list is one shorter. |
| LineProperties.RejectedSplitBreaksChain | src/main/java/subway/domain/line/Line.java:102-104 | On a concrete valid line, a refused split leaves a list whose sections no longer chain. |
| LineProperties.AddedNeedsOneStation | src/main/java/subway/domain/line/Line.java:38 | A successful insertion into a non-empty line has exactly one of its two stations on the line already. |
| LineProperties.Replacement | src/main/java/subway/domain/line/Line.java:40-53 | Every successful insertion into a non-empty line replaces one section by two: the new section and the rest of the old one. They connect to each other and to their neighbours. Their distances add up to the old one, plus the new distance when the line grows at an end. |
| LineProperties.AddedPreservesLine | src/main/java/subway/domain/line/Line.java:30-54 | A successful insertion keeps the list chained and terminated. It adds one section, or two on an empty line. |
| LineProperties.AddedStationBefore | src/main/java/subway/domain/line/Line.java:40-46 | A new upward lands in the station list right before `downward`. Every other station keeps its order. |
| LineProperties.AddedStationAfter | src/main/java/subway/domain/line/Line.java:49-53 | A new downward lands in the station list right after `upward`. Every other station keeps its order. |
| LineProperties.AddedKeepsStationsDistinct | src/main/java/subway/domain/line/Line.java:30-54 | A successful insertion of real stations keeps each station on the line once, provided the two stations differ when the line is empty. It never puts the terminal sentinel into the station list. |
| LineProperties.SameStationOnEmptyLine | src/main/java/subway/domain/line/Line.java:31-33 | An empty line accepts a first section from a station to itself. The result is chained, terminated and positive, but lists that station twice. |
| LineProperties.AddedKeepsDistancesPositive | src/main/java/subway/domain/line/Line.java:80-107 | A successful insertion at a positive distance keeps every section but the terminator at a positive distance. |
| LineProperties.AddedPreservesWellFormed | src/main/java/subway/domain/line/Line.java:30-54 | A successful insertion of real stations at a positive distance keeps a well-formed line well-formed, provided the two stations differ when the line is empty. Well-formed means chained, terminated, each station once, no sentinel station and positive distances. |
| LineProperties.AddedDistance | src/main/java/subway/domain/line/Line.java:80-107 | A split keeps the line's total distance. An insertion at either end, or onto an empty line, adds exactly the new distance. |
| LineProperties.InsertBetweenScenario | src/test/java/subway/repository/LineRepositoryTest.java:141-155 | Inserting Sports Complex 3 after Jamsil on Jamsil -10- Jamsil-saenae gives the sections (Jamsil, Complex, 3), (Complex, Saenae, 7) and the terminator. The stations are Jamsil, Sports Complex, Jamsil-saenae. |
| RouteFare.MaxFrom | src/main/java/subway/domain/fare/RouteFareStrategy.java:18-20 | The max-fold is at least its seed and at least every surcharge. It is the seed or one of the surcharges. |
| RouteFare.HighestFareOfLine | src/main/java/subway/domain/fare/RouteFareStrategy.java:17-21 | The highest surcharge is non-negative and bounds every surcharge. It is 0 or one of the surcharges. |
| RouteFare.CalculateFare | src/main/java/subway/domain/fare/RouteFareStrategy.java:11-15 | The fare never goes down. It is unchanged for a path without sections. It covers the fare plus any one line's surcharge, and it adds exactly one of the surcharges or nothing. |
| RouteFare.HighestFareOfLineIgnoresOrder | src/main/java/subway/domain/fare/RouteFareStrategy.java:17-21 | Any reordering of the path's surcharges gives the same highest surcharge. |

## Left out

- `deleteStation`, `Line.of`, `getSections`, `getStations`, the line's id, name and color, and the name and color validation are not modelled. They are not part of the line code modelled here.
- `Sections.java`, `Section.java` and `Station.java` are not part of this model. The container is modelled from its use in `Line.java`:
  - a plain list;
  - first-match lookup of a section's upward station, or -1;
  - add at an index;
  - delete at an index;
  - read at an index.

  Stations are compared by identity, and `TERMINAL` is a separate constructor. Any validation those classes perform (station names, positive distances) is outside the model. That is why the invariant lemmas take a positive distance and real stations as preconditions.
- LineProperties.AddedKeepsStationsDistinct: holds only when an insertion onto an empty line uses two different stations. `Line.addSection` does not check this, and `SameStationOnEmptyLine` shows the line it then builds, which lists one station twice. On a non-empty line the code refuses such an insertion anyway: both stations are found, or neither is. Whether `Section.java` refuses a section from a station to itself is not part of this model.
- LineProperties.AddedPreservesWellFormed: carries the same condition, for the same reason.
- `LineModel.Line.Show`: `getUpwards` is modelled as the upward station of every section, terminator included. On a terminated line that is the travel order ending at the tail.
- `LineModel.Line.AddSection`: distances are unbounded integers. Java's 32-bit `int` subtraction `old - distance` is not modelled. It wraps only for a negative input distance with `old - distance > 2147483647`, for example old 2147483647 and distance -1. The distance check at `Line.java:110` lets that through, because it compares only old and input, so a zero or negative input distance passes.
- `RouteFare.CalculateFare`: the fare and surcharges are unbounded integers. The 64-bit `long` addition is not modelled for overflow.
- Finding the shortest path and the passenger's start and end stations are left out. The path is an input, given as the surcharges of its sections. The other fare strategies, the repositories, DAOs and DTOs are also left out.
