/**
  Concrete lines from the acceptance scenarios, and the two places where the
  code does something other than what a reader of it would expect: the
  distances of a head-side split, and add creating a branch or a cycle.
*/
module Scenarios {
  import opened Wrappers
  import opened SectionDomain
  import opened SectionsDomain

  const Gangnam := Station("Gangnam")
  const Yeoksam := Station("Yeoksam")
  const Seolleung := Station("Seolleung")

  /** Stations of the counterexamples. */
  const A := Station("A")
  const B := Station("B")
  const C := Station("C")
  const D := Station("D")

  /** The line A -> B -> C, and the sections after inserting A -> C (2) into it. */
  const ABC := [Span(A, B, 5), Span(B, C, 5)]
  const Looped := [Span(A, C, 3), Span(B, C, 5), Span(C, B, 2)]

  lemma StationsDiffer()
    ensures Gangnam != Yeoksam && Yeoksam != Seolleung && Gangnam != Seolleung
    ensures A != B && B != C && A != C
  {
    assert Gangnam.name[0] != Yeoksam.name[0];
    assert Yeoksam.name[0] != Seolleung.name[0];
    assert Gangnam.name[0] != Seolleung.name[0];
    assert A.name[0] != B.name[0] && B.name[0] != C.name[0] && A.name[0] != C.name[0];
  }

  /**
    The line Gangnam -> Seolleung (10) with Gangnam -> Yeoksam (d) added:
    the old section becomes Gangnam -> Yeoksam with 10 - d, and the new one
    becomes Yeoksam -> Seolleung keeping d.
  */
  lemma HeadSplitScenario(d: int)
    requires 0 < d < 10
    ensures Added([Span(Gangnam, Seolleung, 10)], Span(Gangnam, Yeoksam, d))
      == Ok([Span(Gangnam, Yeoksam, 10 - d), Span(Yeoksam, Seolleung, d)])
    ensures Chain([Span(Gangnam, Yeoksam, 10 - d), Span(Yeoksam, Seolleung, d)], [Gangnam, Yeoksam, Seolleung])
  {
    var vals := [Span(Gangnam, Yeoksam, 10 - d), Span(Yeoksam, Seolleung, d)];
    var p := [Gangnam, Yeoksam, Seolleung];
    var host, incoming := Span(Gangnam, Seolleung, 10), Span(Gangnam, Yeoksam, d);
    StationsDiffer();
    assert Connectable(host, incoming);
    assert FirstConnectable([host], incoming) == Some(0);
    assert SplitKind(host, incoming) == HeadSide;
    assert Relocated(host, incoming) == (vals[0], vals[1]);
    assert [host][0 := vals[0]] + [vals[1]] == vals;
    assert Joins(vals, p, 0, 0) && Joins(vals, p, 1, 1);
    assert Placed(vals, p, 0) && Placed(vals, p, 1);
    assert Covered(vals, p, 0) && Covered(vals, p, 1);
  }

  /**
    With d = 4 the section starting at Gangnam ends up with distance 6 and
    the one starting at Yeoksam with 4: not the 4 and 6 the acceptance test
    expects of the same insertion.
  */
  lemma HeadSplitDistancesDifferFromTest()
    ensures var r := Added([Span(Gangnam, Seolleung, 10)], Span(Gangnam, Yeoksam, 4));
      && r.Ok?
      && (forall s | s in r.value && s.up == Gangnam :: s.dist == 6)
      && (forall s | s in r.value && s.up == Yeoksam :: s.dist == 4)
  {
    HeadSplitScenario(4);
  }

  /** Merging the two halves back, as removing Yeoksam does, restores the 10-long section. */
  lemma RemoveMiddleScenario(d: int)
    requires 0 < d < 10
    ensures Merged(Span(Gangnam, Yeoksam, 10 - d), Span(Yeoksam, Seolleung, d)) == Span(Gangnam, Seolleung, 10)
  {
    HeadSplitScenario(d);
    MergeUndoesSplit(Span(Gangnam, Seolleung, 10), Span(Gangnam, Yeoksam, d));
  }

  /**
    add does not keep the line a path: inserting B -> D into A -> B -> C
    connects to A -> B first (it shares B), relocate leaves it as it is,
    and the appended section gives B a second outgoing section.
  */
  lemma AddCanBranch()
    ensures UniqueUps(ABC) && Chain(ABC, [A, B, C])
    ensures Added(ABC, Span(B, D, 2)) == Ok(ABC + [Span(B, D, 2)])
    ensures !UniqueUps(ABC + [Span(B, D, 2)])
  {
    var p := [A, B, C];
    assert Joins(ABC, p, 0, 0) && Joins(ABC, p, 1, 1);
    assert Placed(ABC, p, 0) && Placed(ABC, p, 1);
    assert Covered(ABC, p, 0) && Covered(ABC, p, 1);
    assert FirstConnectable(ABC, Span(B, D, 2)) == Some(0);
    assert ABC[0 := ABC[0]] == ABC;
    var v := ABC + [Span(B, D, 2)];
    assert v[1].up == v[2].up;
  }

  /** Inserting A -> C (2) splits A -> B into A -> C (3) and C -> B (2). */
  lemma CycleAdded()
    ensures Chain(ABC, [A, B, C])
    ensures Added(ABC, Span(A, C, 2)) == Ok(Looped)
  {
    StationsDiffer();
    var q := [A, B, C];
    assert Joins(ABC, q, 0, 0) && Joins(ABC, q, 1, 1);
    assert Placed(ABC, q, 0) && Placed(ABC, q, 1);
    assert Covered(ABC, q, 0) && Covered(ABC, q, 1);
    var incoming := Span(A, C, 2);
    assert FirstConnectable(ABC, incoming) == Some(0);
    assert Relocated(ABC[0], incoming) == (Span(A, C, 3), Span(C, B, 2));
    assert ABC[0 := Span(A, C, 3)] + [Span(C, B, 2)] == Looped;
  }

  /** After it the up stations are still unique and the head is still A... */
  lemma CycleHead()
    ensures UniqueUps(Looped) && FindHead(Looped) == Some(A)
  {
    StationsDiffer();
    var v := Looped;
    assert A !in Downs(v);
    assert FirstUpOutside(v, Downs(v)) == Some(v[0].up);
  }

  /** ...but the map sends B to C and C back to B. */
  lemma CycleMap()
    ensures UniqueUps(Looped)
    ensures NextStation(Looped) == map[A := C, B := C, C := B]
  {
    CycleHead();
    var v := Looped;
    var m := NextStation(v);
    assert m.Keys == {A, B, C} by {
      assert v[0].up == A && v[1].up == B && v[2].up == C;
    }
    NextStationMaps(v, 0);
    NextStationMaps(v, 1);
    NextStationMaps(v, 2);
    assert m[A] == C && m[B] == C && m[C] == B;
  }

  /** So the sections after it form no path: a path would have to visit C twice. */
  lemma CycleHasNoPath(p: seq<Station>)
    ensures !Chain(Looped, p)
  {
    if Chain(Looped, p) {
      CycleHead();
      CycleMap();
      ChainHead(Looped, p);
      ChainNext(Looped, p, 0);
      ChainNext(Looped, p, 1);
      ChainNext(Looped, p, 2);
    }
  }

  /**
    add can also close a cycle: inserting A -> C (2) into the path
    A -> B -> C succeeds, the up stations stay unique and A is still the
    head, but the walk of getSectionsInOrder from A goes A, C, B, C, ...
    and never ends, and the sections form no path at all.
  */
  lemma AddCanCycle()
    ensures Chain(ABC, [A, B, C]) && Added(ABC, Span(A, C, 2)) == Ok(Looped)
    ensures UniqueUps(Looped) && FindHead(Looped) == Some(A)
    ensures NextStation(Looped) == map[A := C, B := C, C := B]
    ensures forall p :: !Chain(Looped, p)
  {
    CycleAdded();
    CycleHead();
    CycleMap();
    forall p {
      CycleHasNoPath(p);
    }
  }

  /**
    A client of the two classes: load the line Gangnam -> Seolleung (10)
    and insert Gangnam -> Yeoksam (4).
  */
  method BuildSplitLine() returns (line: Sections)
    ensures line.Valid()
    ensures line.Values() == [Span(Gangnam, Yeoksam, 6), Span(Yeoksam, Seolleung, 4)]
  {
    var first := new Section(Gangnam, Seolleung, 10);
    line := new Sections.FromList([first]);
    var inserted := new Section(Gangnam, Yeoksam, 4);
    HeadSplitScenario(4);
    ghost var before, incoming := line.Values(), inserted.Value();
    assert before == [Span(Gangnam, Seolleung, 10)];
    var r := line.Add(inserted);
  }

  /** Reading that line's stations gives them in order from the head. */
  method SplitAndReadScenario() returns (stations: Result<seq<Station>, LineError>)
    ensures stations == Ok([Gangnam, Yeoksam, Seolleung])
  {
    var line := BuildSplitLine();
    HeadSplitScenario(4);
    StationsDiffer();
    ghost var path := [Gangnam, Yeoksam, Seolleung];
    assert UniqueUps(line.Values());
    stations := line.GetStations(path);
    ChainHead(line.Values(), path);
  }
}
