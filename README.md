# Subway line sections, modelled in Dafny

This project models the section topology of a subway line from the
`nextstep.subway.section.domain` package. A **section** is a directed edge
from an up station to a down station with a positive distance. A line's
**sections** are kept in a list in insertion order. Three things happen to
that list:

- `add` inserts a section. On a non-empty line it finds the first section
  the new one is *connectable* to: exactly one endpoint of that section is
  an endpoint of the new one. That host section *relocates* to make room.
  On the head side (same up station) the host is cut short and the new
  section is moved to cover the rest. On the tail side (same down station)
  only the host is cut short. The new section is then appended.
- `merge` extends a section over its neighbour and adds the distances.
- `getStations` rebuilds the station order. It builds an up-to-down map,
  finds the head (an up station that is never a down station), and walks
  the map.

Files:

- `wrappers.dfy`: `Option`, `Result` and `Outcome`.
- `section.dfy` (module `SectionDomain`): `Station`; `Span`, the value of a
  section's endpoint and distance fields; the pure rules over spans
  (`Connectable`, `SplitKind`, `Relocated`, `Merged`); and the class
  `Section`. Its methods change `up`, `down`, `dist` and `lineId` in place
  and are proved against those rules.
- `sections.dfy` (module `SectionsDomain`): the class `Sections` over a
  `seq<Section>`; the specification of `add` on values (`Added`); the
  head search; the up-to-down map; and the simple-path predicate `Chain`,
  with the theorems about it.
- `scenarios.dfy` (module `Scenarios`): the acceptance scenarios on
  concrete stations, counterexamples showing that `add` can branch a line
  or close a cycle, and a client that drives both classes.

`Station` is an identity compared by equality. A `Distance` is an `int`
that `Section.Valid()` keeps positive.

## Model

| member | source | states |
|---|---|---|
| SectionDomain.Connectable | src/main/java/nextstep/subway/section/domain/Section.java:42-50 | `isConnectable(Section)`, the exclusive-or of two calls to the private overload `isConnectable(Station, Section)` (modelled as `Touches`); a host whose two endpoints are the same station connects to nothing |
| SectionDomain.ConnectableIffShareOne | src/main/java/nextstep/subway/section/domain/Section.java:42-50 | For a section with two different endpoints, `isConnectable` holds iff the two sections' endpoint sets share exactly one station |
| SectionDomain.ConnectableRejects | src/main/java/nextstep/subway/section/domain/Section.java:42-46 | A section with the same endpoints (in either order) is not connectable, and neither is one that shares no station |
| SectionDomain.ConnectableSymmetric | src/main/java/nextstep/subway/section/domain/Section.java:42-50 | Between sections whose endpoints differ, connectability is symmetric |
| SectionDomain.SplitKind | src/main/java/nextstep/subway/section/domain/Section.java:52-60 | The two tests of `relocate`. For a host with two different endpoints, a split only happens to a connectable section. A connectable section that causes no split is attached end to end: it starts where the host ends or ends where the host starts |
| SectionDomain.Relocated | src/main/java/nextstep/subway/section/domain/Section.java:52-73 | After a split the host keeps its up station and ends where the moved section starts; the moved section ends at the host's old down station; the two distances add up to the old one and the incoming distance is kept. On the head side the host ends at the incoming down station; on the tail side it ends at the incoming up station and the incoming section is untouched. Without a split nothing changes |
| SectionDomain.Merged | src/main/java/nextstep/subway/section/domain/Section.java:83-86 | The merged section runs from the host's up station to the neighbour's down station and is longer than either part |
| SectionDomain.MergeUndoesSplit | src/main/java/nextstep/subway/section/domain/Section.java:62-86 | Merging the two halves of a split (head- or tail-side) gives back the section that was split |
| SectionDomain.Section.constructor | src/main/java/nextstep/subway/section/domain/Section.java:29-33 | A new section has the given endpoints and distance, a positive distance and no line |
| SectionDomain.Section.BindLine | src/main/java/nextstep/subway/section/domain/Section.java:38-40 | Sets the line id and changes no other field |
| SectionDomain.Section.Relocate | src/main/java/nextstep/subway/section/domain/Section.java:52-60 | The new values of both objects are `Relocated` of the old ones; it fails and changes nothing when the host would not keep a positive distance; both distances stay positive and both line ids are kept |
| SectionDomain.Section.RelocateUpStation | src/main/java/nextstep/subway/section/domain/Section.java:62-68 | The host becomes (up, incoming down, old distance minus incoming distance). The incoming section becomes (its old down, the host's old down) and keeps its distance |
| SectionDomain.Section.RelocateDownStation | src/main/java/nextstep/subway/section/domain/Section.java:70-73 | The host's down station becomes the incoming up station and its distance drops by the incoming distance; the incoming section is untouched |
| SectionDomain.Section.Merge | src/main/java/nextstep/subway/section/domain/Section.java:83-86 | This section takes the neighbour's down station and the sum of both distances; its up station, its line id and the neighbour are unchanged |
| SectionsDomain.FirstConnectable | src/main/java/nextstep/subway/section/domain/Sections.java:37-42 | Returns the index of the first section in list order that is connectable (none before it is), or None exactly when no section is connectable |
| SectionsDomain.Added | src/main/java/nextstep/subway/section/domain/Sections.java:28-35 | `add` on values: it fails only on a non-empty line, and a successful add grows the list by exactly one section |
| SectionsDomain.AddedShape | src/main/java/nextstep/subway/section/domain/Sections.java:28-35 | `add` on an empty list takes the section as it is. It fails when no section is connectable. A successful add grows the list by one, keeps every section except the first connectable one, appends a section with the incoming distance, and keeps all distances positive |
| SectionsDomain.AddedTotal | src/main/java/nextstep/subway/section/domain/Sections.java:30-34 | A successful add keeps the total distance when the host was split and adds the incoming distance when relocate left the host as it was |
| SectionsDomain.FirstUpOutside | src/main/java/nextstep/subway/section/domain/Sections.java:68-71 | Returns an up station outside the excluded set, or None exactly when every up station is excluded |
| SectionsDomain.FindHead | src/main/java/nextstep/subway/section/domain/Sections.java:61-72 | The head found is an up station and no down station; the search fails exactly when every up station is also a down station, which includes the empty list |
| SectionsDomain.NextStation | src/main/java/nextstep/subway/section/domain/Sections.java:49-50 | The up-to-down map of `Collectors.toMap`, defined when up stations are unique; its keys are exactly the up stations |
| SectionsDomain.NextStationMaps | src/main/java/nextstep/subway/section/domain/Sections.java:49-50 | With unique up stations, the map sends every section's up station to its down station |
| SectionsDomain.ChainHead | src/main/java/nextstep/subway/section/domain/Sections.java:51 | On a non-empty simple path, the head found is the first station of the path |
| SectionsDomain.ChainWalkStep | src/main/java/nextstep/subway/section/domain/Sections.java:53-55 | From a station of the path that is in the map, the map leads to the next station of the path |
| SectionsDomain.ChainWalkEnd | src/main/java/nextstep/subway/section/domain/Sections.java:53-57 | The walk stops only at the last station of the path |
| SectionsDomain.ChainShape | src/main/java/nextstep/subway/section/domain/Sections.java:48-59 | For n >= 1 sections forming a path, the path has n + 1 stations. It starts at an up station that is no down station. Each consecutive pair is some section's (up, down). It ends at a station that is no up station |
| SectionsDomain.ChainUnique | src/main/java/nextstep/subway/section/domain/Sections.java:44-59 | Non-empty sections form at most one path, so two reads of an unchanged line return the same order |
| SectionsDomain.AddSplitKeepsPath | src/main/java/nextstep/subway/section/domain/Sections.java:28-35 | When the first connectable section is split and the new station is off the path, add succeeds. Up stations stay unique, and the result is the old path with the new station inserted after the host's up station |
| SectionsDomain.AddAtTailKeepsPath | src/main/java/nextstep/subway/section/domain/Sections.java:28-35 | Adding a section from the last station to a new station appends it unchanged and extends the path at its tail |
| SectionsDomain.AddAtHeadKeepsPath | src/main/java/nextstep/subway/section/domain/Sections.java:28-35 | Adding a section from a new station to the first station appends it unchanged and extends the path at its head |
| SectionsDomain.Sections.constructor | src/main/java/nextstep/subway/section/domain/Sections.java:25-26 | A new line has no sections |
| SectionsDomain.Sections.FromList | src/main/java/nextstep/subway/section/domain/Sections.java:21-23 | A line over a loaded list holds exactly that list |
| SectionsDomain.Sections.Add | src/main/java/nextstep/subway/section/domain/Sections.java:28-35 | Succeeds exactly when `Added` does; then the list is the old list plus the new object and its values are `Added`'s result. On failure the list, every section and the incoming section are unchanged. Every section other than the first connectable one is unchanged in every field, and no section's line id changes, the incoming one's included |
| SectionsDomain.Sections.RelocateAt | src/main/java/nextstep/subway/section/domain/Sections.java:31-32 | Relocating the listed host changes the list's values only at the host's index, and the incoming section as `Relocated` says; every other listed section is unchanged and both line ids are kept |
| SectionsDomain.Sections.Append | src/main/java/nextstep/subway/section/domain/Sections.java:34 | The new section is appended last and the earlier sections keep their order |
| SectionsDomain.Sections.GetStations | src/main/java/nextstep/subway/section/domain/Sections.java:44-59 | With unique up stations: fails when there is no head; otherwise returns exactly the path the sections form. It changes nothing |
| Scenarios.HeadSplitScenario | src/test/java/nextstep/subway/acceptanceTest/line/LineAcceptanceTest.java:238-250 | Adding Gangnam -> Yeoksam (d) to Gangnam -> Seolleung (10) gives Gangnam -> Yeoksam (10 - d) and Yeoksam -> Seolleung (d), which form the path Gangnam, Yeoksam, Seolleung |
| Scenarios.HeadSplitDistancesDifferFromTest | src/test/java/nextstep/subway/acceptanceTest/line/LineAcceptanceTest.java:249-250 | With d = 4 the section starting at Gangnam has 6 and the one starting at Yeoksam has 4, the reverse of what the test expects |
| Scenarios.RemoveMiddleScenario | src/test/java/nextstep/subway/acceptanceTest/line/LineAcceptanceTest.java:283-293 | Merging the two halves back gives Gangnam -> Seolleung with distance 10 |
| Scenarios.AddCanBranch | src/main/java/nextstep/subway/section/domain/Sections.java:28-35 | Inserting B -> D into the path A -> B -> C attaches to A -> B, leaves it unchanged, and leaves B with two outgoing sections |
| Scenarios.AddCanCycle | src/main/java/nextstep/subway/section/domain/Sections.java:28-59 | Inserting A -> C (2) into the path A -> B -> C succeeds with A -> C (3), B -> C (5), C -> B (2). Up stations stay unique and A is still the head, but the map sends B to C and C to B, so the walk from A never ends, and these sections form no path |
| Scenarios.BuildSplitLine | src/test/java/nextstep/subway/acceptanceTest/line/LineAcceptanceTest.java:238-250 | Through the classes: loading Gangnam -> Seolleung (10) and adding Gangnam -> Yeoksam (4) leaves the values (Gangnam, Yeoksam, 6) and (Yeoksam, Seolleung, 4) |
| Scenarios.SplitAndReadScenario | src/test/java/nextstep/subway/acceptanceTest/line/LineAcceptanceTest.java:216-228 | Through the classes: reading the stations of the line `BuildSplitLine` builds gives Gangnam, Yeoksam, Seolleung, head first, the order the test expects (the test inserts with distance 9, the scenario with 4) |

## Code and tests disagree

- Head-side split distances. `relocateUpStation`
  (`Section.java:62-68`) subtracts the incoming distance from the host.
  The host becomes (A, C) with `d0 - d1`. The incoming object becomes
  (C, B) and keeps `d1`. So adding Gangnam -> Yeoksam (4) to
  Gangnam -> Seolleung (10) leaves Gangnam -> Yeoksam with 6 and
  Yeoksam -> Seolleung with 4. The acceptance test at
  `LineAcceptanceTest.java:249-250` expects 4 and 6. The model follows the
  code. `Scenarios.HeadSplitDistancesDifferFromTest` states the difference.
- Three more behaviours of the code a reader may not expect:
  - On a head-side split the code rewrites the incoming section, not only
    the host.
  - A split keeps the total distance. Only an `add` whose relocate changed
    nothing adds the incoming distance (`SectionsDomain.AddedTotal`).
  - `add` does not check that the line stays a simple path. It can create
    a branch (`Scenarios.AddCanBranch`). It can also close a cycle that
    the head reaches (`Scenarios.AddCanCycle`); after that the walk at
    `Sections.java:53` never ends. The path is kept only in the cases
    `AddSplitKeepsPath`, `AddAtTailKeepsPath` and `AddAtHeadKeepsPath`
    prove.

## Left out

- Station removal (finding the two adjacent sections, removing an end
  station, the minimum-section guard) is not in `Section.java` or
  `Sections.java`. Only `merge` is modelled.
- `Distance.java` is not part of this model. A distance is an `int` kept
  positive. The constructor requires a positive distance. `minus` is
  assumed to refuse a result that is not positive before anything
  changes. The model reports that refusal as `DistanceNotPositive` and
  leaves both sections unchanged.
- Null checks (`requireNonNull`) become non-null Dafny types.
- The getters of `Section` are plain field reads.
- Persistence: the JPA annotations, the `id` field, cascading and the join
  column. `lineId` is an `Option<int>`.
- The HTTP acceptance tests and the DTOs (`LineResponse`, `StationRequest`).
  The tests are used only as scenarios.
- `SectionsDomain.FindHead` takes the first qualifying up station in list
  order. The source takes the first one of a `HashSet`, whose order is
  unspecified. The two agree whenever the head is unique, which holds on a
  simple path (`ChainHead`).
- `SectionsDomain.Sections.GetStations` requires unique up stations. With a
  duplicate, `Collectors.toMap` throws, and that error is not modelled.
  When a head exists, it also requires the sections to form a simple path.
  On a cycle reachable from the head the source's loop does not end. On
  sections that are acyclic but not one path it returns a partial walk,
  which is not modelled.
- `SectionsDomain.Sections.Add` requires the incoming object not to be in
  the list already. The class invariant also requires every listed object
  to appear once. A list that contains the same object twice, or that
  aliases the incoming object, is not modelled.
- `SectionsDomain.Sections.FromList` requires the loaded sections to be
  distinct objects with positive distances. The source accepts any
  non-null list.
- `matchesUpStation` and `matchesDownStation` (`Section.java:75-81`) are
  modelled as `SectionDomain.Section.MatchesUpStation` and
  `MatchesDownStation`, plain comparisons with one field. Nothing in these
  two files calls them; their callers (station removal) are not part of
  this model, so no property about them is stated.
