/**
  One section of a subway line: a directed edge from an up station to a
  down station with a positive distance (Section.java).

  The pure part (which sections connect, how a split or a merge rearranges
  the two endpoints and the distances) is stated over `Span`, the value of a
  section's three fields; the class `Section` holds those fields, changes
  them in place, and each of its methods is proved against the function on
  `Span` that specifies it.
*/
module SectionDomain {
  import opened Wrappers

  /** A station is an identity; two stations are the same iff they are equal. */
  datatype Station = Station(name: string)

  /** The value of a section's endpoint and distance fields at one moment. */
  datatype Span = Span(up: Station, down: Station, dist: int)

  /** The set of the two endpoints of a span. */
  function Ends(s: Span): set<Station>
  {
    {s.up, s.down}
  }

  /** The private overload isConnectable(Station, Section): `station` is one of `other`'s endpoints. */
  function Touches(station: Station, other: Span): bool
  {
    station == other.up || station == other.down
  }

  /**
    isConnectable(Section): exactly one of the host's two endpoints is an
    endpoint of `other` (the exclusive-or over the two Touches tests).
    A host whose two endpoints are the same station connects to nothing.
  */
  function Connectable(host: Span, other: Span): (r: bool)
    ensures r ==> host.up != host.down
  {
    var upConnected := Touches(host.up, other);
    var downConnected := Touches(host.down, other);
    !((upConnected && downConnected) || (!upConnected && !downConnected))
  }

  /**
    A section with the same two endpoints as the host (in either order) is
    not connectable, and neither is one that shares no station with it.
  */
  lemma ConnectableRejects(host: Span, other: Span)
    ensures Ends(other) == Ends(host) ==> !Connectable(host, other)
    ensures Ends(other) !! Ends(host) ==> !Connectable(host, other)
  {
    if Ends(other) == Ends(host) {
      assert host.up in Ends(other) && host.down in Ends(other);
    }
  }

  /** For a host with two different endpoints, connectable means sharing exactly one station. */
  lemma ConnectableIffShareOne(host: Span, other: Span)
    requires host.up != host.down
    ensures Connectable(host, other) <==> |Ends(host) * Ends(other)| == 1
  {
    var common := Ends(host) * Ends(other);
    if Touches(host.up, other) && Touches(host.down, other) {
      assert common == {host.up, host.down};
      assert |common| == 2;
    } else if Touches(host.up, other) {
      assert common == {host.up};
    } else if Touches(host.down, other) {
      assert common == {host.down};
    } else {
      assert common == {};
    }
  }

  /** Between two sections whose endpoints differ, connectability is symmetric. */
  lemma ConnectableSymmetric(a: Span, b: Span)
    requires a.up != a.down && b.up != b.down
    ensures Connectable(a, b) == Connectable(b, a)
  {
    ConnectableIffShareOne(a, b);
    ConnectableIffShareOne(b, a);
    assert Ends(a) * Ends(b) == Ends(b) * Ends(a);
  }

  /** Which of the two branches of relocate applies to an incoming span. */
  datatype Split = HeadSide | TailSide | NoSplit

  /**
    The two tests of relocate. For a host with two different endpoints a
    split only happens to a connectable section, and a connectable section
    that causes no split is attached end to end: it starts where the host
    ends or ends where the host starts.
  */
  function SplitKind(host: Span, incoming: Span): (r: Split)
    ensures host.up != host.down && r != NoSplit ==> Connectable(host, incoming)
    ensures r == NoSplit && Connectable(host, incoming) ==>
      host.down == incoming.up || host.up == incoming.down
  {
    if host.up == incoming.up && host.down != incoming.down then HeadSide
    else if host.down == incoming.down && host.up != incoming.up then TailSide
    else NoSplit
  }

  /**
    Distance.minus must leave a positive distance: a split is possible only
    when the incoming section is strictly shorter than its host.
  */
  predicate Fits(host: Span, incoming: Span)
  {
    SplitKind(host, incoming) == NoSplit || incoming.dist < host.dist
  }

  /**
    The host and the incoming span after relocate. On the head side the host
    keeps its up station and ends where the incoming span ended, with the
    shortened distance, while the incoming span is moved to cover the rest
    of the old host and keeps its own distance. On the tail side only the
    host changes. Otherwise nothing changes.
  */
  function Relocated(host: Span, incoming: Span): (r: (Span, Span))
    requires Fits(host, incoming)
    ensures SplitKind(host, incoming) == NoSplit ==> r == (host, incoming)
    ensures SplitKind(host, incoming) != NoSplit ==>
      && r.0.up == host.up
      && r.0.down == r.1.up
      && r.1.down == host.down
      && r.0.dist + r.1.dist == host.dist
      && r.1.dist == incoming.dist
      && 0 < r.0.dist
    ensures SplitKind(host, incoming) == HeadSide ==> r.0.down == incoming.down
    ensures SplitKind(host, incoming) == TailSide ==> r.0.down == incoming.up && r.1 == incoming
  {
    match SplitKind(host, incoming)
    case HeadSide =>
      (Span(host.up, incoming.down, host.dist - incoming.dist), Span(incoming.down, host.down, incoming.dist))
    case TailSide =>
      (Span(host.up, incoming.up, host.dist - incoming.dist), incoming)
    case NoSplit =>
      (host, incoming)
  }

  /** merge: the host is extended over its neighbour and the distances add up. */
  function Merged(host: Span, next: Span): (r: Span)
    ensures r.up == host.up && r.down == next.down
    ensures 0 < host.dist && 0 < next.dist ==> host.dist < r.dist && next.dist < r.dist
  {
    Span(host.up, next.down, host.dist + next.dist)
  }

  /** Merging the two halves of a split gives back the section that was split. */
  lemma MergeUndoesSplit(host: Span, incoming: Span)
    requires Fits(host, incoming) && SplitKind(host, incoming) != NoSplit
    ensures Merged(Relocated(host, incoming).0, Relocated(host, incoming).1) == host
  {
    var r := Relocated(host, incoming);
    assert r.0.dist + r.1.dist == host.dist;
  }

  class Section {
    var up: Station
    var down: Station
    var dist: int
    var lineId: Option<int>

    /** A Distance is always positive. */
    ghost predicate Valid()
      reads this
    {
      0 < dist
    }

    function Value(): Span
      reads this
    {
      Span(up, down, dist)
    }

    constructor (upStation: Station, downStation: Station, distance: int)
      requires 0 < distance
      ensures Valid()
      ensures Value() == Span(upStation, downStation, distance)
      ensures lineId == None
    {
      up := upStation;
      down := downStation;
      dist := distance;
      lineId := None;
    }

    method BindLine(id: int)
      modifies this`lineId
      ensures lineId == Some(id)
    {
      lineId := Some(id);
    }

    predicate MatchesUpStation(station: Station)
      reads this
    {
      up == station
    }

    predicate MatchesDownStation(station: Station)
      reads this
    {
      down == station
    }

    /**
      relocate: make room in this section for `section`. Returns false, and
      changes nothing, when the distance left to this section would not be
      positive.
    */
    method Relocate(section: Section) returns (ok: bool)
      requires Valid() && section.Valid()
      modifies this, section
      ensures ok <==> Fits(old(Value()), old(section.Value()))
      ensures ok ==> (Value(), section.Value()) == Relocated(old(Value()), old(section.Value()))
      ensures !ok ==> Value() == old(Value()) && section.Value() == old(section.Value())
      ensures Valid() && section.Valid()
      ensures lineId == old(lineId) && section.lineId == old(section.lineId)
    {
      if up == section.up && down != section.down {
        ok := RelocateUpStation(section);
        return;
      }
      if down == section.down && up != section.up {
        ok := RelocateDownStation(section);
        return;
      }
      ok := true;
    }

    method RelocateUpStation(section: Section) returns (ok: bool)
      requires Valid() && section.Valid()
      requires up == section.up && down != section.down
      modifies this, section
      ensures ok <==> section.dist < old(dist)
      ensures ok ==> Value() == Span(old(up), old(section.down), old(dist) - section.dist)
      ensures ok ==> section.Value() == Span(old(section.down), old(down), old(section.dist))
      ensures !ok ==> Value() == old(Value()) && section.Value() == old(section.Value())
      ensures Valid() && section.Valid()
      ensures lineId == old(lineId) && section.lineId == old(section.lineId)
    {
      // Distance.minus refuses to leave a distance that is not positive.
      if dist <= section.dist {
        return false;
      }
      dist := dist - section.dist;
      var tempStation := down;
      down := section.down;
      section.up := down;
      section.down := tempStation;
      ok := true;
    }

    method RelocateDownStation(section: Section) returns (ok: bool)
      requires Valid() && section.Valid()
      requires down == section.down && up != section.up
      modifies this
      ensures ok <==> section.dist < old(dist)
      ensures ok ==> Value() == Span(old(up), section.up, old(dist) - section.dist)
      ensures !ok ==> Value() == old(Value())
      ensures Valid()
      ensures lineId == old(lineId)
    {
      if dist <= section.dist {
        return false;
      }
      dist := dist - section.dist;
      down := section.up;
      ok := true;
    }

    /** merge: extend this section over `section`, adding its distance. */
    method Merge(section: Section)
      requires Valid() && section.Valid()
      modifies this
      ensures Value() == Merged(old(Value()), old(section.Value()))
      ensures Valid()
      ensures lineId == old(lineId)
      ensures section != this ==> unchanged(section)
    {
      down := section.down;
      dist := dist + section.dist;
    }
  }
}
