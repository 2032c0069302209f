/**
  The sections of one subway line (Sections.java): adding a section, which
  finds the first section it connects to, lets that section make room and
  appends it; and reading the line's stations in order from the head.
*/
module SectionsDomain {
  import opened Wrappers
  import opened SectionDomain

  /** The failures of the line-level operations. */
  datatype LineError =
    | CanNotConnectSection   // no listed section is connectable to the new one
    | DistanceNotPositive    // the host of a split would be left with no positive distance
    | NoHeadStation          // every up station is also a down station (or the list is empty)

  /** Every section's distance is positive. */
  ghost predicate AllPositive(vals: seq<Span>)
  {
    forall i | 0 <= i < |vals| :: 0 < vals[i].dist
  }

  /** The sum of the distances of a list of sections. */
  function Total(vals: seq<Span>): int
  {
    if vals == [] then 0 else Total(vals[..|vals| - 1]) + vals[|vals| - 1].dist
  }

  lemma {:induction false} TotalAppend(vals: seq<Span>, s: Span)
    ensures Total(vals + [s]) == Total(vals) + s.dist
  {
    assert (vals + [s])[..|vals|] == vals;
  }

  /** Replacing one section changes the total by the difference of the two distances. */
  lemma {:induction false} TotalUpdate(vals: seq<Span>, k: nat, s: Span)
    requires k < |vals|
    ensures Total(vals[k := s]) == Total(vals) - vals[k].dist + s.dist
  {
    var n := |vals|;
    if k == n - 1 {
      assert vals[k := s][..n - 1] == vals[..n - 1];
    } else {
      TotalUpdate(vals[..n - 1], k, s);
      assert vals[k := s][..n - 1] == vals[..n - 1][k := s];
    }
  }

  /**
    getConnectableSection: the index of the first section, in list order,
    that is connectable to `incoming`; None when there is none.
  */
  function FirstConnectable(vals: seq<Span>, incoming: Span): (r: Option<nat>)
    ensures r.Some? ==> r.value < |vals| && Connectable(vals[r.value], incoming)
    ensures r.Some? ==> forall j | 0 <= j < r.value :: !Connectable(vals[j], incoming)
    ensures r.None? <==> forall j | 0 <= j < |vals| :: !Connectable(vals[j], incoming)
  {
    if vals == [] then None
    else if Connectable(vals[0], incoming) then Some(0)
    else match FirstConnectable(vals[1..], incoming)
      case None => None
      case Some(k) => Some(k + 1)
  }

  /**
    The list of sections after add: an empty list takes the new section as
    it is; otherwise the first connectable section is relocated around it
    and the (possibly rewritten) new section is appended.
  */
  function Added(vals: seq<Span>, incoming: Span): (r: Result<seq<Span>, LineError>)
    ensures r.Err? ==> vals != []
    ensures r.Ok? ==> |r.value| == |vals| + 1
  {
    if vals == [] then Ok([incoming])
    else match FirstConnectable(vals, incoming)
      case None => Err(CanNotConnectSection)
      case Some(k) =>
        if !Fits(vals[k], incoming) then Err(DistanceNotPositive)
        else
          var (host, moved) := Relocated(vals[k], incoming);
          Ok(vals[k := host] + [moved])
  }

  /** The four outcomes of Added, one per branch of add, for the class to use. */
  lemma AddedCases(vals: seq<Span>, incoming: Span)
    ensures vals == [] ==> Added(vals, incoming) == Ok([incoming])
    ensures vals != [] && FirstConnectable(vals, incoming).None? ==>
      Added(vals, incoming) == Err(CanNotConnectSection)
    ensures vals != [] && FirstConnectable(vals, incoming).Some? ==>
      var k := FirstConnectable(vals, incoming).value;
      Added(vals, incoming) ==
        if !Fits(vals[k], incoming) then Err(DistanceNotPositive)
        else Ok(vals[k := Relocated(vals[k], incoming).0] + [Relocated(vals[k], incoming).1])
  {
  }

  /**
    add on an empty list takes the new section as it is; add with no
    connectable section fails; a successful add keeps every section but
    the first connectable one, puts the new section last with its own
    distance, and keeps distances positive.
  */
  lemma AddedShape(vals: seq<Span>, incoming: Span)
    ensures var r := Added(vals, incoming);
      && (vals == [] ==> r == Ok([incoming]))
      && (vals != [] && (forall j | 0 <= j < |vals| :: !Connectable(vals[j], incoming)) ==>
          r == Err(CanNotConnectSection))
      && (r.Ok? ==> r.value[|vals|].dist == incoming.dist)
      && (r.Ok? ==> forall j | 0 <= j < |vals| && FirstConnectable(vals, incoming) != Some(j) ::
          r.value[j] == vals[j])
      && (r.Ok? && AllPositive(vals) && 0 < incoming.dist ==> AllPositive(r.value))
  {
  }

  /**
    A successful add keeps the total distance when the host was split, and
    adds the new section's distance when the host was left as it was.
  */
  lemma AddedTotal(vals: seq<Span>, incoming: Span)
    requires Added(vals, incoming).Ok?
    ensures var split := vals != [] && SplitKind(vals[FirstConnectable(vals, incoming).value], incoming) != NoSplit;
      Total(Added(vals, incoming).value) == Total(vals) + (if split then 0 else incoming.dist)
  {
    if vals == [] {
      TotalAppend([], incoming);
    } else {
      var k := FirstConnectable(vals, incoming).value;
      var (host, moved) := Relocated(vals[k], incoming);
      TotalAppend(vals[k := host], moved);
      TotalUpdate(vals, k, host);
    }
  }

  /** The set of up stations, and of down stations, of a list of sections. */
  function Ups(vals: seq<Span>): set<Station>
  {
    set k | 0 <= k < |vals| :: vals[k].up
  }

  function Downs(vals: seq<Span>): set<Station>
  {
    set k | 0 <= k < |vals| :: vals[k].down
  }

  /** No two sections share an up station (Collectors.toMap refuses duplicate keys). */
  predicate UniqueUps(vals: seq<Span>)
  {
    forall i, j | 0 <= i < j < |vals| :: vals[i].up != vals[j].up
  }

  /** The first up station, in list order, that is not in `excluded`. */
  function FirstUpOutside(vals: seq<Span>, excluded: set<Station>): (r: Option<Station>)
    ensures r.Some? ==> r.value !in excluded && exists k | 0 <= k < |vals| :: vals[k].up == r.value
    ensures r.None? <==> forall k | 0 <= k < |vals| :: vals[k].up in excluded
  {
    if vals == [] then None
    else if vals[0].up !in excluded then Some(vals[0].up)
    else
      var r := FirstUpOutside(vals[1..], excluded);
      assert r.Some? ==> exists k | 0 <= k < |vals| :: vals[k].up == r.value by {
        if r.Some? {
          var k :| 0 <= k < |vals[1..]| && vals[1..][k].up == r.value;
          assert vals[k + 1].up == r.value;
        }
      }
      assert r.None? ==> forall k | 0 <= k < |vals| :: vals[k].up in excluded by {
        if r.None? {
          forall k | 0 <= k < |vals| ensures vals[k].up in excluded {
            if k > 0 { assert vals[k] == vals[1..][k - 1]; }
          }
        }
      }
      r
  }

  /**
    findUpStationOfHeadSection: an up station that is no section's down
    station; None (IllegalArgumentException) when every up station is also
    a down station, which includes the empty list.
  */
  function FindHead(vals: seq<Span>): (r: Option<Station>)
    ensures r.Some? ==> r.value in Ups(vals) && r.value !in Downs(vals)
    ensures r.None? <==> Ups(vals) <= Downs(vals)
  {
    FirstUpOutside(vals, Downs(vals))
  }

  /** The up-to-down map built by Collectors.toMap in getSectionsInOrder; its keys are the up stations. */
  function NextStation(vals: seq<Span>): (r: map<Station, Station>)
    requires UniqueUps(vals)
    ensures r.Keys == Ups(vals)
  {
    if vals == [] then map[]
    else NextStation(vals[..|vals| - 1])[vals[|vals| - 1].up := vals[|vals| - 1].down]
  }

  /** Every section's up station is mapped to its down station. */
  lemma {:induction false} NextStationMaps(vals: seq<Span>, k: nat)
    requires UniqueUps(vals) && k < |vals|
    ensures vals[k].up in NextStation(vals) && NextStation(vals)[vals[k].up] == vals[k].down
  {
    var n := |vals| - 1;
    if k < n {
      NextStationMaps(vals[..n], k);
      assert vals[..n][k] == vals[k];
    }
  }

  /** The stations of `p` are pairwise different. */
  ghost predicate Distinct(p: seq<Station>)
  {
    forall i, j | 0 <= i < j < |p| :: p[i] != p[j]
  }

  /** Section `k` joins station `i` of `p` to station `i + 1`. */
  ghost predicate Joins(vals: seq<Span>, p: seq<Station>, k: int, i: int)
  {
    0 <= k < |vals| && 0 <= i < |p| - 1 && vals[k].up == p[i] && vals[k].down == p[i + 1]
  }

  /** Section `k` joins two consecutive stations of `p`. */
  ghost predicate Placed(vals: seq<Span>, p: seq<Station>, k: int)
  {
    exists i :: Joins(vals, p, k, i)
  }

  /** Stations `i` and `i + 1` of `p` are joined by some section. */
  ghost predicate Covered(vals: seq<Span>, p: seq<Station>, i: int)
  {
    exists k :: Joins(vals, p, k, i)
  }

  /**
    The sections form the simple path `p`, head first: every section joins
    two consecutive stations of `p`, and every two consecutive stations of
    `p` are joined by a section.
  */
  ghost predicate Chain(vals: seq<Span>, p: seq<Station>)
  {
    && |p| == |vals| + 1
    && Distinct(p)
    && (forall k | 0 <= k < |vals| :: Placed(vals, p, k))
    && (forall i | 0 <= i < |vals| :: Covered(vals, p, i))
  }

  /** On a path, the sections' up stations are the path without its last station. */
  lemma ChainUps(vals: seq<Span>, p: seq<Station>, x: Station)
    requires Chain(vals, p)
    ensures x in Ups(vals) <==> exists i | 0 <= i < |vals| :: p[i] == x
  {
    if x in Ups(vals) {
      var k :| 0 <= k < |vals| && vals[k].up == x;
      assert Placed(vals, p, k);
      var i :| Joins(vals, p, k, i);
      assert p[i] == x;
    }
    if i :| 0 <= i < |vals| && p[i] == x {
      assert Covered(vals, p, i);
      var k :| Joins(vals, p, k, i);
      assert vals[k].up == x;
    }
  }

  /** On a path, the sections' down stations are the path without its first station. */
  lemma ChainDowns(vals: seq<Span>, p: seq<Station>, x: Station)
    requires Chain(vals, p)
    ensures x in Downs(vals) <==> exists i | 1 <= i <= |vals| :: p[i] == x
  {
    if x in Downs(vals) {
      var k :| 0 <= k < |vals| && vals[k].down == x;
      assert Placed(vals, p, k);
      var i :| Joins(vals, p, k, i);
      assert p[i + 1] == x;
    }
    if i :| 1 <= i <= |vals| && p[i] == x {
      assert Covered(vals, p, i - 1);
      var k :| Joins(vals, p, k, i - 1);
      assert vals[k].down == x;
    }
  }

  /** On a non-empty path the head found is the path's first station. */
  lemma ChainHead(vals: seq<Span>, p: seq<Station>)
    requires Chain(vals, p) && vals != []
    ensures FindHead(vals) == Some(p[0])
  {
    ChainUps(vals, p, p[0]);
    ChainDowns(vals, p, p[0]);
    var h := FindHead(vals).value;
    ChainUps(vals, p, h);
    ChainDowns(vals, p, h);
    var i :| 0 <= i < |vals| && p[i] == h;
    assert i == 0;
  }

  /** Following the map from an inner station of the path leads to the next station. */
  lemma ChainNext(vals: seq<Span>, p: seq<Station>, i: nat)
    requires Chain(vals, p) && UniqueUps(vals) && i < |vals|
    ensures p[i] in NextStation(vals) && NextStation(vals)[p[i]] == p[i + 1]
  {
    assert Covered(vals, p, i);
    var k :| Joins(vals, p, k, i);
    NextStationMaps(vals, k);
  }

  /** The last station of the path is no section's up station. */
  lemma ChainTail(vals: seq<Span>, p: seq<Station>)
    requires Chain(vals, p) && UniqueUps(vals)
    ensures p[|vals|] !in NextStation(vals)
  {
    ChainUps(vals, p, p[|vals|]);
  }

  /** One step of the walk in getSectionsInOrder, from station `i` of the path. */
  lemma ChainWalkStep(vals: seq<Span>, p: seq<Station>, i: nat)
    requires Chain(vals, p) && UniqueUps(vals) && i < |p|
    requires p[i] in NextStation(vals)
    ensures i + 1 < |p| && NextStation(vals)[p[i]] == p[i + 1]
  {
    ChainTail(vals, p);
    ChainNext(vals, p, i);
  }

  lemma PrefixStep(p: seq<Station>, i: nat)
    requires i < |p|
    ensures p[..i + 1] == p[..i] + [p[i]]
  {
  }

  /** Where the walk stops, it has reached the last station of the path. */
  lemma ChainWalkEnd(vals: seq<Span>, p: seq<Station>, i: nat)
    requires Chain(vals, p) && UniqueUps(vals) && i < |p|
    requires p[i] !in NextStation(vals)
    ensures i == |p| - 1
  {
    if i < |vals| {
      ChainNext(vals, p, i);
    }
  }

  /** Two paths of the same sections agree station by station up to `i`. */
  lemma {:induction false} ChainAgreeUpTo(vals: seq<Span>, p: seq<Station>, q: seq<Station>, i: nat)
    requires Chain(vals, p) && Chain(vals, q) && vals != [] && i <= |vals|
    ensures p[..i + 1] == q[..i + 1]
  {
    if i == 0 {
      ChainHead(vals, p);
      ChainHead(vals, q);
    } else {
      ChainAgreeUpTo(vals, p, q, i - 1);
      assert p[i - 1] == q[i - 1] by { assert p[..i][i - 1] == q[..i][i - 1]; }
      assert Covered(vals, p, i - 1);
      var k :| Joins(vals, p, k, i - 1);
      assert Placed(vals, q, k);
      var j :| Joins(vals, q, k, j);
      assert j == i - 1;
      assert p[..i + 1] == p[..i] + [p[i]];
      assert q[..i + 1] == q[..i] + [q[i]];
    }
  }

  /**
    A set of sections forms at most one path, so reading the stations of an
    unchanged non-empty line twice gives the same order.
  */
  lemma ChainUnique(vals: seq<Span>, p: seq<Station>, q: seq<Station>)
    requires Chain(vals, p) && Chain(vals, q) && vals != []
    ensures p == q
  {
    ChainAgreeUpTo(vals, p, q, |vals|);
  }

  /** The (up, down) pairs of the sections. */
  function Pairs(vals: seq<Span>): set<(Station, Station)>
  {
    set k | 0 <= k < |vals| :: (vals[k].up, vals[k].down)
  }

  /**
    What getStations returns for n >= 1 sections forming a path: n + 1
    stations, starting at a station that is an up station and no down
    station, each consecutive pair being some section's (up, down), and
    ending at a station that is no section's up station.
  */
  lemma ChainShape(vals: seq<Span>, p: seq<Station>)
    requires Chain(vals, p) && vals != []
    ensures |p| == |vals| + 1
    ensures p[0] in Ups(vals) && p[0] !in Downs(vals)
    ensures forall i | 0 <= i < |vals| :: (p[i], p[i + 1]) in Pairs(vals)
    ensures p[|vals|] !in Ups(vals)
  {
    ChainHead(vals, p);
    ChainUps(vals, p, p[|vals|]);
    forall i | 0 <= i < |vals| ensures (p[i], p[i + 1]) in Pairs(vals) {
      assert Covered(vals, p, i);
      var k :| Joins(vals, p, k, i);
      assert (vals[k].up, vals[k].down) == (p[i], p[i + 1]);
    }
  }

  /** Inserting a station that is not on a path right after position `i` keeps it simple. */
  lemma DistinctInsert(p: seq<Station>, i: nat, c: Station)
    requires Distinct(p) && i < |p| && c !in p
    ensures Distinct(p[..i + 1] + [c] + p[i + 1..])
  {
    var q := p[..i + 1] + [c] + p[i + 1..];
    forall a, b | 0 <= a < b < |q| ensures q[a] != q[b] {
      var pa := if a <= i then a else a - 1;
      var pb := if b <= i then b else b - 1;
      if a == i + 1 {
        assert q[b] == p[pb];
      } else if b == i + 1 {
        assert q[a] == p[pa];
      } else {
        assert q[a] == p[pa] && q[b] == p[pb] && pa < pb;
      }
    }
  }

  /** A section joining two path stations starts at the position of its up station. */
  lemma JoinsAtUp(vals: seq<Span>, p: seq<Station>, k: nat, i: nat)
    requires Chain(vals, p) && k < |vals| && i < |vals| && vals[k].up == p[i]
    ensures Joins(vals, p, k, i)
  {
    assert Placed(vals, p, k);
    var t :| Joins(vals, p, k, t);
  }

  /**
    The path with station `c` inserted after position `i` is a path of the
    sections where section `k` (joining positions `i` and `i + 1`) has been
    replaced by one ending at `c`, and one from `c` has been appended.
  */
  lemma ChainInsert(vals: seq<Span>, p: seq<Station>, k: nat, i: nat, c: Station, h: Span, m: Span)
    requires Chain(vals, p) && UniqueUps(vals) && k < |vals| && i < |vals| && c !in p
    requires Joins(vals, p, k, i)
    requires h.up == p[i] && h.down == c && m.up == c && m.down == p[i + 1]
    ensures Chain(vals[k := h] + [m], p[..i + 1] + [c] + p[i + 1..])
  {
    var v := vals[k := h] + [m];
    var q := p[..i + 1] + [c] + p[i + 1..];
    assert |q| == |v| + 1;
    assert forall t | 0 <= t <= i :: q[t] == p[t];
    assert q[i + 1] == c;
    assert forall t | i + 1 < t < |q| :: q[t] == p[t - 1];
    DistinctInsert(p, i, c);
    forall j | 0 <= j < |v| ensures Placed(v, q, j) {
      if j == k {
        assert Joins(v, q, j, i);
      } else if j == |vals| {
        assert Joins(v, q, j, i + 1);
      } else {
        assert Placed(vals, p, j);
        var t :| Joins(vals, p, j, t);
        if t < i {
          assert Joins(v, q, j, t);
        } else {
          assert Joins(v, q, j, t + 1);
        }
      }
    }
    forall t | 0 <= t < |v| ensures Covered(v, q, t) {
      if t < i {
        assert Covered(vals, p, t);
        var j :| Joins(vals, p, j, t);
        assert Joins(v, q, j, t);
      } else if t == i {
        assert Joins(v, q, k, i);
      } else if t == i + 1 {
        assert Joins(v, q, |vals|, i + 1);
      } else {
        assert Covered(vals, p, t - 1);
        var j :| Joins(vals, p, j, t - 1);
        assert Joins(v, q, j, t);
      }
    }
  }

  /**
    When the host found by add is split, a path stays a path: the station
    that the new section brings (`c`, not on the path before) is inserted
    right after the host's up station, and up stations stay unique.
  */
  lemma AddSplitKeepsPath(vals: seq<Span>, p: seq<Station>, incoming: Span, i: nat, c: Station)
    requires Chain(vals, p) && UniqueUps(vals)
    requires FirstConnectable(vals, incoming).Some?
    requires var host := vals[FirstConnectable(vals, incoming).value];
      && SplitKind(host, incoming) != NoSplit && Fits(host, incoming)
      && i < |vals| && p[i] == host.up
      && c == (if SplitKind(host, incoming) == HeadSide then incoming.down else incoming.up)
    requires c !in p
    ensures Added(vals, incoming).Ok?
    ensures UniqueUps(Added(vals, incoming).value)
    ensures Chain(Added(vals, incoming).value, p[..i + 1] + [c] + p[i + 1..])
  {
    var k := FirstConnectable(vals, incoming).value;
    var host := vals[k];
    var (h, m) := Relocated(host, incoming);
    var v := vals[k := h] + [m];
    assert Added(vals, incoming) == Ok(v);
    JoinsAtUp(vals, p, k, i);
    ChainInsert(vals, p, k, i, c, h, m);
    forall a, b | 0 <= a < b < |v| ensures v[a].up != v[b].up {
      assert v[a].up == vals[a].up;
      if b == |vals| {
        ChainUps(vals, p, vals[a].up);
      } else {
        assert v[b].up == vals[b].up;
      }
    }
  }

  /**
    Adding a section from the last station of a path to a station not on
    it extends the path at its tail: no host is split.
  */
  lemma AddAtTailKeepsPath(vals: seq<Span>, p: seq<Station>, incoming: Span)
    requires Chain(vals, p) && UniqueUps(vals) && vals != []
    requires incoming.up == p[|vals|] && incoming.down !in p
    ensures Added(vals, incoming) == Ok(vals + [incoming])
    ensures UniqueUps(vals + [incoming])
    ensures Chain(vals + [incoming], p + [incoming.down])
  {
    var n := |vals|;
    var c := incoming.down;
    var v := vals + [incoming];
    var q := p + [c];
    assert Covered(vals, p, n - 1);
    var last :| Joins(vals, p, last, n - 1);
    assert Connectable(vals[last], incoming);
    var k := FirstConnectable(vals, incoming).value;
    assert vals[k].up in Ups(vals) && vals[k].down in Downs(vals);
    ChainUps(vals, p, p[n]);
    ChainDowns(vals, p, vals[k].down);
    assert vals[k].up != incoming.up && vals[k].down != incoming.down;
    assert vals[k := vals[k]] == vals;
    assert Added(vals, incoming) == Ok(v);
    assert Distinct(q);
    forall j | 0 <= j < |v| ensures Placed(v, q, j) {
      if j == n {
        assert Joins(v, q, j, n);
      } else {
        assert Placed(vals, p, j);
        var t :| Joins(vals, p, j, t);
        assert Joins(v, q, j, t);
      }
    }
    forall t | 0 <= t < |v| ensures Covered(v, q, t) {
      if t == n {
        assert Joins(v, q, n, n);
      } else {
        assert Covered(vals, p, t);
        var j :| Joins(vals, p, j, t);
        assert Joins(v, q, j, t);
      }
    }
  }

  /**
    Adding a section from a station not on a path to the path's first
    station extends the path at its head: no host is split.
  */
  lemma AddAtHeadKeepsPath(vals: seq<Span>, p: seq<Station>, incoming: Span)
    requires Chain(vals, p) && UniqueUps(vals) && vals != []
    requires incoming.down == p[0] && incoming.up !in p
    ensures Added(vals, incoming) == Ok(vals + [incoming])
    ensures UniqueUps(vals + [incoming])
    ensures Chain(vals + [incoming], [incoming.up] + p)
  {
    var n := |vals|;
    var c := incoming.up;
    var v := vals + [incoming];
    var q := [c] + p;
    assert Covered(vals, p, 0);
    var first :| Joins(vals, p, first, 0);
    assert Connectable(vals[first], incoming);
    var k := FirstConnectable(vals, incoming).value;
    assert vals[k].up in Ups(vals) && vals[k].down in Downs(vals);
    ChainDowns(vals, p, p[0]);
    ChainUps(vals, p, vals[k].up);
    assert vals[k].up != incoming.up && vals[k].down != incoming.down;
    assert vals[k := vals[k]] == vals;
    assert Added(vals, incoming) == Ok(v);
    assert Distinct(q);
    forall j | 0 <= j < |v| ensures Placed(v, q, j) {
      if j == n {
        assert Joins(v, q, j, 0);
      } else {
        assert Placed(vals, p, j);
        var t :| Joins(vals, p, j, t);
        assert Joins(v, q, j, t + 1);
      }
    }
    forall t | 0 <= t < |v| ensures Covered(v, q, t) {
      if t == 0 {
        assert Joins(v, q, n, 0);
      } else {
        assert Covered(vals, p, t - 1);
        var j :| Joins(vals, p, j, t - 1);
        assert Joins(v, q, j, t);
      }
    }
    forall a, b | 0 <= a < b < |v| ensures v[a].up != v[b].up {
      if b == n {
        ChainUps(vals, p, vals[a].up);
      }
    }
  }

  class Sections {
    var sections: seq<Section>

    /** Every section keeps a positive distance and is listed once. */
    ghost predicate Valid()
      reads this, sections
    {
      && (forall i | 0 <= i < |sections| :: sections[i].Valid())
      && (forall i, j | 0 <= i < j < |sections| :: sections[i] != sections[j])
    }

    /** The values of the listed sections, in list order. */
    function Values(): (r: seq<Span>)
      reads this, sections
      ensures |r| == |sections|
      ensures forall i | 0 <= i < |sections| :: r[i] == sections[i].Value()
    {
      ValuesOf(sections)
    }

    static function ValuesOf(ss: seq<Section>): (r: seq<Span>)
      reads ss
      ensures |r| == |ss|
      ensures forall i | 0 <= i < |ss| :: r[i] == ss[i].Value()
    {
      if ss == [] then [] else ValuesOf(ss[..|ss| - 1]) + [ss[|ss| - 1].Value()]
    }

    constructor ()
      ensures Valid() && sections == []
    {
      sections := [];
    }

    /** Sections(List<Section>): a line over sections loaded as they are. */
    constructor FromList(loaded: seq<Section>)
      requires forall i | 0 <= i < |loaded| :: loaded[i].Valid()
      requires forall i, j | 0 <= i < j < |loaded| :: loaded[i] != loaded[j]
      ensures Valid() && sections == loaded
    {
      sections := loaded;
    }

    /**
      add: append `other`, first letting the first connectable section make
      room for it. Fails, changing nothing, when no section is connectable or
      when the split would leave the host without a positive distance.
    */
    method Add(other: Section) returns (r: Outcome<LineError>)
      requires Valid() && other.Valid() && other !in sections
      modifies this, sections, other
      ensures Valid()
      ensures var res := Added(old(Values()), old(other.Value()));
        && (r.Pass? <==> res.Ok?)
        && (r.Pass? ==> sections == old(sections) + [other] && Values() == res.value)
        && (r.Fail? ==> r.error == res.error)
      ensures r.Fail? ==> sections == old(sections) && Values() == old(Values()) && other.Value() == old(other.Value())
      ensures forall i | 0 <= i < |old(sections)| && FirstConnectable(old(Values()), old(other.Value())) != Some(i) ::
        unchanged(old(sections)[i])
      ensures forall i | 0 <= i < |old(sections)| :: old(sections)[i].lineId == old(sections[i].lineId)
      ensures other.lineId == old(other.lineId)
    {
      ghost var vals, incoming := Values(), other.Value();
      AddedCases(vals, incoming);
      if sections == [] {
        Append(other);
        return Pass;
      }
      var found := FirstConnectable(Values(), other.Value());
      if found.None? {
        return Fail(CanNotConnectSection);
      }
      var ok := RelocateAt(found.value, other);
      if !ok {
        return Fail(DistanceNotPositive);
      }
      Append(other);
      r := Pass;
    }

    /** sections.add(other): the list grows by `other` at its end. */
    method Append(other: Section)
      requires Valid() && other.Valid() && other !in sections
      modifies this
      ensures sections == old(sections) + [other]
      ensures Values() == old(Values()) + [other.Value()]
      ensures Valid()
    {
      sections := sections + [other];
    }

    /** The listed section at `k` makes room for `other` (section.relocate(other) in add). */
    method RelocateAt(k: nat, other: Section) returns (ok: bool)
      requires Valid() && other.Valid() && other !in sections && k < |sections|
      modifies sections[k], other
      ensures ok <==> Fits(old(Values()[k]), old(other.Value()))
      ensures ok ==> Values() == old(Values())[k := Relocated(old(Values()[k]), old(other.Value())).0]
      ensures ok ==> other.Value() == Relocated(old(Values()[k]), old(other.Value())).1
      ensures !ok ==> Values() == old(Values()) && other.Value() == old(other.Value())
      ensures Valid() && other.Valid()
      ensures forall j | 0 <= j < |sections| && j != k :: unchanged(sections[j])
      ensures sections[k].lineId == old(sections[k].lineId) && other.lineId == old(other.lineId)
    {
      var host := sections[k];
      ok := host.Relocate(other);
      forall j | 0 <= j < |sections| && j != k
        ensures sections[j] != host && sections[j] != other
      {
      }
    }

    /**
      getStations: the stations from the head to the tail. Requires the
      up stations to be unique (the map is built with Collectors.toMap)
      and, when a head exists, the sections to form the path `path`; on a
      cycle reachable from the head the walk would not end.
    */
    method GetStations(ghost path: seq<Station>) returns (r: Result<seq<Station>, LineError>)
      requires UniqueUps(Values())
      requires FindHead(Values()).Some? ==> Chain(Values(), path)
      ensures FindHead(Values()).None? ==> r == Err(NoHeadStation)
      ensures FindHead(Values()).Some? ==> r == Ok(path)
    {
      var vals := Values();
      var next := NextStation(vals);
      var head := FindHead(vals);
      if head.None? {
        return Err(NoHeadStation);
      }
      assert Chain(vals, path);
      ChainHead(vals, path);
      var station := head.value;
      var stations: seq<Station> := [];
      while station in next
        invariant |stations| < |path|
        invariant stations == path[..|stations|] && station == path[|stations|]
        decreases |path| - |stations|
      {
        ChainWalkStep(vals, path, |stations|);
        PrefixStep(path, |stations|);
        stations := stations + [station];
        station := next[station];
      }
      ChainWalkEnd(vals, path, |stations|);
      PrefixStep(path, |stations|);
      assert path[..|path|] == path;
      stations := stations + [station];
      assert Values() == vals;
      return Ok(stations);
    }
  }
}
