/** The neighbour-selection loop of an insert, over values: which candidates to link, which edges to cut. */
module Selection {
  import opened Core
  import opened Ranking
  import opened Snapshot
  import opened Layers
  import opened Edits

  // optimizeRouting's tolerance for the candidate (or neighbour) at position `i`.
  function Threshold(optimizeRouting: real, i: nat, m: nat): real
    requires m > 0
  {
    1.0 + optimizeRouting * (1.0 + (0.5 * i as real) / m as real)
  }

  // An absent stored distance compares as infinity.
  predicate Indirect(ndist: real, threshold: real, added: real, between: Option<real>) {
    between.Some? && ndist * threshold > added + between.value
  }

  predicate Inferior(ndist: real, threshold: real, added: real, between: Option<real>) {
    between.None? || between.value * threshold > ndist + added
  }

  ghost predicate NoneNamed(conns: seq<Scored>, id: Id) {
    forall i :: 0 <= i < |conns| ==> conns[i].id != id
  }

  method FindAdded(conns: seq<Scored>, id: Id) returns (found: Option<Scored>)
    ensures found.None? ==> NoneNamed(conns, id)
    ensures found.Some? ==> found.value in conns && found.value.id == id && id in Ids(conns)
  {
    var i := 0;
    while i < |conns|
      invariant 0 <= i <= |conns|
      invariant forall j :: 0 <= j < i ==> conns[j].id != id
    {
      if conns[i].id == id {
        return Some(conns[i]);
      }
      i := i + 1;
    }
    found := None;
  }

  lemma CutGrows(cut: set<Pair>, conns: set<Id>, a: Id, b: Id)
    requires CutWithin(cut, conns) && a in conns && b in conns
    ensures CutWithin(cut + {(a, b), (b, a)}, conns)
  {
  }

  lemma CutWider(cut: set<Pair>, conns: set<Id>, more: set<Id>)
    requires CutWithin(cut, conns) && conns <= more
    ensures CutWithin(cut, more)
  {
  }

  // Position `j` of the candidate's list names the connection `c`.
  predicate Names(nbuf: seq<Id>, conns: seq<Scored>, j: nat, c: Scored) {
    j < |nbuf| && c in conns && c.id == nbuf[j]
  }

  // The candidate is reached through a connection at no more than the tolerated cost.
  ghost predicate SkipAt(
    nbuf: seq<Id>, conns: seq<Scored>, nid: Id, ndist: real, threshold: real, between: (Id, Id) -> Option<real>, j: nat)
  {
    exists c :: Names(nbuf, conns, j, c) && Indirect(ndist, threshold, c.dist, between(nid, c.id))
  }

  // The edge between the candidate and its neighbour `a` costs more than the detour over the new node.
  ghost predicate CutAt(
    nbuf: seq<Id>, conns: seq<Scored>, nid: Id, ndist: real, optimizeRouting: real, m: nat,
    between: (Id, Id) -> Option<real>, j: nat, a: Id)
    requires m > 0
  {
    exists c :: Names(nbuf, conns, j, c) && c.id == a
             && Inferior(ndist, Threshold(optimizeRouting, j, m), c.dist, between(nid, a))
  }

  // The connections the candidate is to be cut from.
  ghost function CutNames(
    nbuf: seq<Id>, conns: seq<Scored>, hit: Scored, optimizeRouting: real, m: nat, between: (Id, Id) -> Option<real>)
    : set<Id>
    requires m > 0
  {
    set a | a in Ids(conns) && exists j: nat :: CutAt(nbuf, conns, hit.id, hit.dist, optimizeRouting, m, between, j, a)
  }

  ghost function CutFor(
    nbuf: seq<Id>, conns: seq<Scored>, hit: Scored, optimizeRouting: real, m: nat, between: (Id, Id) -> Option<real>)
    : set<Pair>
    requires m > 0
  {
    if optimizeRouting > 0.0 then
      var named := CutNames(nbuf, conns, hit, optimizeRouting, m, between);
      (set a | a in named :: (a, hit.id)) + (set a | a in named :: (hit.id, a))
    else {}
  }

  // The candidate at position `i` is passed over: reached well enough already, or past the plain limit.
  ghost predicate Skips(
    nbuf: seq<Id>, conns: seq<Scored>, hit: Scored, i: nat, level: nat, optimizeRouting: real, m: nat,
    between: (Id, Id) -> Option<real>)
    requires m > 0
  {
    if optimizeRouting > 0.0 then
      exists j: nat :: SkipAt(nbuf, conns, hit.id, hit.dist, Threshold(optimizeRouting, i, m), between, j)
    else i >= PlainLimit(level, m)
  }

  // Without optimizeRouting: m above level 0, 2m there.
  function PlainLimit(level: nat, m: nat): nat {
    if level > 0 then m else 2 * m
  }

  // What selection has taken and cut.
  datatype Choice = Choice(conns: seq<Scored>, cut: set<Pair>)

  // One candidate considered, its list as the cuts so far have left it.
  ghost function Considered(
    nodes: Nodes, level: nat, so: Choice, hit: Scored, i: nat, optimizeRouting: real, m: nat,
    between: (Id, Id) -> Option<real>): Choice
    requires m > 0
  {
    var nbuf := Uncut(NeighborsAt(nodes, hit.id, level), hit.id, so.cut);
    if Skips(nbuf, so.conns, hit, i, level, optimizeRouting, m, between) then so
    else Choice(so.conns + [hit], so.cut + CutFor(nbuf, so.conns, hit, optimizeRouting, m, between))
  }

  // Candidates considered in order: the selection of one level.
  ghost function Selected(
    nodes: Nodes, level: nat, candidates: seq<Scored>, optimizeRouting: real, m: nat,
    between: (Id, Id) -> Option<real>): Choice
    requires m > 0 || candidates == []
  {
    if candidates == [] then Choice([], {})
    else
      var last := |candidates| - 1;
      Considered(nodes, level, Selected(nodes, level, candidates[..last], optimizeRouting, m, between),
                 candidates[last], last, optimizeRouting, m, between)
  }

  lemma {:induction false} SelectedSame(
    a: Nodes, b: Nodes, level: nat, candidates: seq<Scored>, optimizeRouting: real, m: nat,
    between: (Id, Id) -> Option<real>)
    requires m > 0 || candidates == []
    requires forall u :: NeighborsAt(a, u, level) == NeighborsAt(b, u, level)
    ensures Selected(a, level, candidates, optimizeRouting, m, between) ==
            Selected(b, level, candidates, optimizeRouting, m, between)
  {
    if candidates != [] {
      SelectedSame(a, b, level, candidates[..|candidates| - 1], optimizeRouting, m, between);
    }
  }

  // Of the candidates, in their order: the first always, and without optimizeRouting the nearest m or 2m.
  lemma {:induction false} SelectedPart(
    nodes: Nodes, level: nat, candidates: seq<Scored>, optimizeRouting: real, m: nat,
    between: (Id, Id) -> Option<real>)
    requires m > 0 || candidates == []
    ensures var conns := Selected(nodes, level, candidates, optimizeRouting, m, between).conns;
            && (forall c :: c in conns ==> c in candidates)
            && (candidates != [] ==> conns != [] && conns[0] == candidates[0])
            && (optimizeRouting <= 0.0 ==> conns == Truncate(candidates, PlainLimit(level, m)))
  {
    if candidates != [] {
      var last := |candidates| - 1;
      var front := candidates[..last];
      SelectedPart(nodes, level, front, optimizeRouting, m, between);
      var so, hit := Selected(nodes, level, front, optimizeRouting, m, between), candidates[last];
      assert candidates == front + [hit];
      var nbuf := Uncut(NeighborsAt(nodes, hit.id, level), hit.id, so.cut);
      if last == 0 {
        assert front == [] && so.conns == [];
        FirstIsTaken(nbuf, so, hit, level, optimizeRouting, m, between);
      }
      assert front != [] ==> front[0] == candidates[0];
      hide Skips, CutFor, Uncut;
      assert optimizeRouting <= 0.0 ==> (Skips(nbuf, so.conns, hit, last, level, optimizeRouting, m, between) <==>
                                         last >= PlainLimit(level, m)) by {
        PlainSkips(nbuf, so.conns, hit, last, level, optimizeRouting, m, between);
      }
    }
  }

  lemma PlainSkips(
    nbuf: seq<Id>, conns: seq<Scored>, hit: Scored, i: nat, level: nat, optimizeRouting: real, m: nat,
    between: (Id, Id) -> Option<real>)
    requires m > 0
    ensures optimizeRouting <= 0.0 ==>
              (Skips(nbuf, conns, hit, i, level, optimizeRouting, m, between) <==> i >= PlainLimit(level, m))
  {
  }

  // Nothing is there yet to reach the first candidate through.
  lemma FirstIsTaken(
    nbuf: seq<Id>, so: Choice, hit: Scored, level: nat, optimizeRouting: real, m: nat,
    between: (Id, Id) -> Option<real>)
    requires m > 0 && so.conns == []
    ensures !Skips(nbuf, so.conns, hit, 0, level, optimizeRouting, m, between)
  {
  }

  // A connection that the list of the candidate at position `i` names, and that costs no more than tolerated.
  ghost predicate ReachedBy(
    nodes: Nodes, level: nat, hit: Scored, i: nat, c: Scored, optimizeRouting: real, m: nat,
    between: (Id, Id) -> Option<real>)
    requires m > 0
  {
    c.id in NeighborsAt(nodes, hit.id, level)
    && Indirect(hit.dist, Threshold(optimizeRouting, i, m), c.dist, between(hit.id, c.id))
  }

  // Every candidate passed over is reached through a connection.
  ghost predicate AllReached(
    nodes: Nodes, level: nat, candidates: seq<Scored>, conns: seq<Scored>, optimizeRouting: real, m: nat,
    between: (Id, Id) -> Option<real>)
    requires m > 0
  {
    forall i :: 0 <= i < |candidates| && candidates[i] !in conns ==>
      exists c :: c in conns && ReachedBy(nodes, level, candidates[i], i, c, optimizeRouting, m, between)
  }

  // The edge of `d`'s list to `c`, at position `j` or before the cuts a later one, costs more than the detour over the
  // new node.
  ghost predicate Detoured(
    nodes: Nodes, level: nat, c: Scored, d: Scored, j: nat, optimizeRouting: real, m: nat,
    between: (Id, Id) -> Option<real>)
    requires m > 0
  {
    c.id in NeighborsAt(nodes, d.id, level)
    && Inferior(d.dist, Threshold(optimizeRouting, j, m), c.dist, between(d.id, c.id))
  }

  ghost predicate DetourOf(
    nodes: Nodes, level: nat, conns: seq<Scored>, p: Pair, optimizeRouting: real, m: nat,
    between: (Id, Id) -> Option<real>)
    requires m > 0
  {
    exists c, d, j: nat :: c in conns && d in conns && (p == (c.id, d.id) || p == (d.id, c.id))
      && j < |NeighborsAt(nodes, d.id, level)| && Detoured(nodes, level, c, d, j, optimizeRouting, m, between)
  }

  // With optimizeRouting, whatever selection did not link is reached through what it did, and whatever edge it cut has
  // its detour over the new node.
  lemma {:induction false} SelectionReaches(
    nodes: Nodes, level: nat, candidates: seq<Scored>, optimizeRouting: real, m: nat,
    between: (Id, Id) -> Option<real>)
    requires m > 0 && optimizeRouting > 0.0
    ensures var so := Selected(nodes, level, candidates, optimizeRouting, m, between);
            && AllReached(nodes, level, candidates, so.conns, optimizeRouting, m, between)
            && forall p :: p in so.cut ==> DetourOf(nodes, level, so.conns, p, optimizeRouting, m, between)
  {
    if candidates != [] {
      var last := |candidates| - 1;
      var front := candidates[..last];
      SelectionReaches(nodes, level, front, optimizeRouting, m, between);
      var so, hit := Selected(nodes, level, front, optimizeRouting, m, between), candidates[last];
      var next := Selected(nodes, level, candidates, optimizeRouting, m, between);
      assert next == Considered(nodes, level, so, hit, last, optimizeRouting, m, between);
      OneReached(nodes, level, so, hit, last, optimizeRouting, m, between);
      OneDetoured(nodes, level, so, hit, last, optimizeRouting, m, between);
      hide Selected, Considered, ReachedBy, DetourOf;
      forall i | 0 <= i < |candidates| && candidates[i] !in next.conns
        ensures exists c :: c in next.conns
                            && ReachedBy(nodes, level, candidates[i], i, c, optimizeRouting, m, between) {
        if i < last {
          assert candidates[i] == front[i];
        }
      }
    }
  }

  lemma OneReached(
    nodes: Nodes, level: nat, so: Choice, hit: Scored, i: nat, optimizeRouting: real, m: nat,
    between: (Id, Id) -> Option<real>)
    requires m > 0 && optimizeRouting > 0.0
    ensures var next := Considered(nodes, level, so, hit, i, optimizeRouting, m, between);
            && (forall c :: c in so.conns ==> c in next.conns)
            && (hit !in next.conns ==>
                  exists c :: c in next.conns && ReachedBy(nodes, level, hit, i, c, optimizeRouting, m, between))
  {
    var list := NeighborsAt(nodes, hit.id, level);
    var nbuf := Uncut(list, hit.id, so.cut);
    hide CutFor;
    if Skips(nbuf, so.conns, hit, i, level, optimizeRouting, m, between) {
      var threshold := Threshold(optimizeRouting, i, m);
      var j: nat :| SkipAt(nbuf, so.conns, hit.id, hit.dist, threshold, between, j);
      var c :| Names(nbuf, so.conns, j, c) && Indirect(hit.dist, threshold, c.dist, between(hit.id, c.id));
      UncutMembers(list, hit.id, so.cut);
      assert nbuf[j] in nbuf;
      assert ReachedBy(nodes, level, hit, i, c, optimizeRouting, m, between);
    } else {
      assert hit in so.conns + [hit];
    }
  }

  lemma OneDetoured(
    nodes: Nodes, level: nat, so: Choice, hit: Scored, i: nat, optimizeRouting: real, m: nat,
    between: (Id, Id) -> Option<real>)
    requires m > 0 && optimizeRouting > 0.0
    requires forall p :: p in so.cut ==> DetourOf(nodes, level, so.conns, p, optimizeRouting, m, between)
    ensures var next := Considered(nodes, level, so, hit, i, optimizeRouting, m, between);
            forall p :: p in next.cut ==> DetourOf(nodes, level, next.conns, p, optimizeRouting, m, between)
  {
    var next := Considered(nodes, level, so, hit, i, optimizeRouting, m, between);
    var list := NeighborsAt(nodes, hit.id, level);
    var nbuf := Uncut(list, hit.id, so.cut);
    hide Skips;
    forall p | p in next.cut ensures DetourOf(nodes, level, next.conns, p, optimizeRouting, m, between) {
      if p in so.cut {
        assert DetourOf(nodes, level, so.conns, p, optimizeRouting, m, between);
      } else {
        var named := CutNames(nbuf, so.conns, hit, optimizeRouting, m, between);
        var a :| a in named && (p == (a, hit.id) || p == (hit.id, a));
        var j: nat :| CutAt(nbuf, so.conns, hit.id, hit.dist, optimizeRouting, m, between, j, a);
        NewDetour(nodes, level, so, hit, a, j, next.conns, optimizeRouting, m, between);
        assert p == (a, hit.id) || p == (hit.id, a);
      }
    }
  }

  lemma NewDetour(
    nodes: Nodes, level: nat, so: Choice, hit: Scored, a: Id, j: nat, conns: seq<Scored>, optimizeRouting: real, m: nat,
    between: (Id, Id) -> Option<real>)
    requires m > 0 && conns == so.conns + [hit]
    requires CutAt(Uncut(NeighborsAt(nodes, hit.id, level), hit.id, so.cut), so.conns, hit.id, hit.dist,
                   optimizeRouting, m, between, j, a)
    ensures exists c :: c in conns && hit in conns && c.id == a && j < |NeighborsAt(nodes, hit.id, level)|
              && Detoured(nodes, level, c, hit, j, optimizeRouting, m, between)
  {
    var list := NeighborsAt(nodes, hit.id, level);
    var nbuf := Uncut(list, hit.id, so.cut);
    var c :| Names(nbuf, so.conns, j, c) && c.id == a
             && Inferior(hit.dist, Threshold(optimizeRouting, j, m), c.dist, between(hit.id, a));
    UncutMembers(list, hit.id, so.cut);
    UncutShorter(list, hit.id, so.cut);
    assert nbuf[j] in nbuf && c in conns && hit in conns;
    assert Detoured(nodes, level, c, hit, j, optimizeRouting, m, between);
  }

  lemma {:induction false} UncutShorter(list: seq<Id>, u: Id, cut: set<Pair>)
    ensures |Uncut(list, u, cut)| <= |list|
  {
    if list != [] {
      UncutShorter(list[1..], u, cut);
    }
  }

  lemma ThresholdIs(optimizeRouting: real, i: nat, m: nat)
    requires m > 0
    ensures Threshold(optimizeRouting, i, m) == 1.0 + optimizeRouting * (1.0 + 0.5 * i as real / m as real)
  {
  }

  // What is tolerated at position `i` of 2m: less than 1 and twice optimizeRouting, times the distance.
  lemma ToleranceIs(optimizeRouting: real, i: nat, m: nat, direct: real)
    requires optimizeRouting > 0.0 && direct >= 0.0 && i < 2 * m
    ensures direct * Threshold(optimizeRouting, i, m) <= direct * (1.0 + 2.0 * optimizeRouting)
  {
    var share := (0.5 * i as real) / m as real;
    FractionBelowOne(0.5 * i as real, m as real);
    TimesMore(optimizeRouting, 1.0 + share, 2.0);
    TimesMore(direct, 1.0 + optimizeRouting * (1.0 + share), 1.0 + optimizeRouting * 2.0);
  }

  lemma FractionBelowOne(x: real, y: real)
    requires x < y && y > 0.0
    ensures x / y < 1.0
  {
    var q := x / y;
    assert q * y == x;
    if q >= 1.0 {
      TimesMore(y, 1.0, q);
    }
  }

  lemma TimesMore(x: real, y: real, z: real)
    requires x >= 0.0 && y <= z
    ensures x * y <= x * z
  {
    assert x * (z - y) >= 0.0;
  }

  lemma UniqueName(nbuf: seq<Id>, conns: seq<Scored>, j: nat, c: Scored, d: Scored)
    requires DistinctIds(conns) && Names(nbuf, conns, j, c) && Names(nbuf, conns, j, d)
    ensures c == d
  {
  }

  // One candidate against the connections taken so far. Its current neighbours decide whether it
  // is reached well enough indirectly, and which edges a direct link would make redundant.
  method ScanNeighbors(
    nbuf: seq<Id>, i: nat, nid: Id, ndist: real, conns: seq<Scored>, between: (Id, Id) -> Option<real>,
    optimizeRouting: real, m: nat)
    returns (skipping: bool, replaced: seq<Pair>)
    requires m > 0 && DistinctIds(conns) && nid !in Ids(conns)
    ensures skipping <==> exists j: nat :: SkipAt(nbuf, conns, nid, ndist, Threshold(optimizeRouting, i, m), between, j)
    ensures conns == [] ==> !skipping
    ensures !skipping ==> forall a: Id :: (a, nid) in replaced <==> exists j: nat ::
            CutAt(nbuf, conns, nid, ndist, optimizeRouting, m, between, j, a)
    ensures CutWithin(Elems(replaced), Ids(conns) + {nid})
    ensures !skipping && optimizeRouting > 0.0 ==>
              Elems(replaced) == CutFor(nbuf, conns, Scored(nid, ndist), optimizeRouting, m, between)
  {
    skipping, replaced := false, [];
    var distanceThreshold := Threshold(optimizeRouting, i, m);
    var i2 := 0;
    hide Threshold, CutWithin, SkipAt, CutAt, DistinctIds;
    EmptyCut(Ids(conns) + {nid});
    while i2 < |nbuf|
      invariant 0 <= i2 <= |nbuf|
      invariant CutWithin(Elems(replaced), Ids(conns) + {nid})
      invariant forall j: nat :: j < i2 ==> !SkipAt(nbuf, conns, nid, ndist, distanceThreshold, between, j)
      invariant forall a: Id :: (a, nid) in replaced <==> exists j: nat ::
                j < i2 && CutAt(nbuf, conns, nid, ndist, optimizeRouting, m, between, j, a)
      invariant BothWays(replaced, conns, nid)
    {
      var nnid := nbuf[i2];
      var added := FindAdded(conns, nnid);
      ScanOne(nbuf, conns, nid, ndist, optimizeRouting, m, distanceThreshold, between, i2, added);
      if added.Some? {
        var d := between(nid, nnid);
        if Indirect(ndist, distanceThreshold, added.value.dist, d) {
          skipping := true;
          return;
        } else if Inferior(ndist, Threshold(optimizeRouting, i2, m), added.value.dist, d) {
          CutGrows(Elems(replaced), Ids(conns) + {nid}, nnid, nid);
          ghost var before := replaced;
          replaced := replaced + [(nnid, nid), (nid, nnid)];
          assert Elems(replaced) == Elems(before) + {(nnid, nid), (nid, nnid)};
        }
      }
      i2 := i2 + 1;
    }
    PastTheEnd(nbuf, conns, nid, ndist, optimizeRouting, m, distanceThreshold, between);
    CutIsFor(nbuf, conns, nid, ndist, optimizeRouting, m, between, replaced);
  }

  // The edges to cut join the candidate and connections, both ways.
  ghost predicate BothWays(replaced: seq<Pair>, conns: seq<Scored>, nid: Id) {
    forall a, b :: (a, b) in replaced ==>
      (b, a) in replaced && ((a == nid && b in Ids(conns)) || (b == nid && a in Ids(conns)))
  }

  lemma CutIsFor(
    nbuf: seq<Id>, conns: seq<Scored>, nid: Id, ndist: real, optimizeRouting: real, m: nat,
    between: (Id, Id) -> Option<real>, replaced: seq<Pair>)
    requires m > 0 && BothWays(replaced, conns, nid)
    requires forall a: Id :: (a, nid) in replaced <==>
               exists j: nat :: CutAt(nbuf, conns, nid, ndist, optimizeRouting, m, between, j, a)
    ensures optimizeRouting > 0.0 ==>
              Elems(replaced) == CutFor(nbuf, conns, Scored(nid, ndist), optimizeRouting, m, between)
  {
    hide CutAt;
    var named := CutNames(nbuf, conns, Scored(nid, ndist), optimizeRouting, m, between);
    assert forall a: Id :: a in named <==> (a, nid) in replaced;
    if optimizeRouting > 0.0 {
      var cut := CutFor(nbuf, conns, Scored(nid, ndist), optimizeRouting, m, between);
      forall a: Id, b: Id ensures (a, b) in cut <==> (a, b) in replaced {
        assert (a, b) in cut <==> (b == nid && a in named) || (a == nid && b in named);
      }
      forall p: Pair ensures p in cut <==> p in Elems(replaced) {
        assert p == (p.0, p.1);
      }
    }
  }

  lemma EmptyCut(conns: set<Id>)
    ensures CutWithin(Elems([]), conns)
  {
  }

  // What position `j` contributes, given the connection it names (if any).
  lemma ScanOne(
    nbuf: seq<Id>, conns: seq<Scored>, nid: Id, ndist: real, optimizeRouting: real, m: nat, threshold: real,
    between: (Id, Id) -> Option<real>, j: nat, added: Option<Scored>)
    requires m > 0 && DistinctIds(conns) && j < |nbuf|
    requires added.None? ==> NoneNamed(conns, nbuf[j])
    requires added.Some? ==> Names(nbuf, conns, j, added.value)
    ensures SkipAt(nbuf, conns, nid, ndist, threshold, between, j)
       <==> added.Some? && Indirect(ndist, threshold, added.value.dist, between(nid, nbuf[j]))
    ensures forall a: Id ::
              (CutAt(nbuf, conns, nid, ndist, optimizeRouting, m, between, j, a)
               <==> (added.Some? && a == nbuf[j]
                 && Inferior(ndist, Threshold(optimizeRouting, j, m), added.value.dist, between(nid, a))))
  {
    hide Threshold, DistinctIds;
    forall c | Names(nbuf, conns, j, c) ensures added.Some? && c == added.value {
      if added.Some? {
        UniqueName(nbuf, conns, j, c, added.value);
      }
    }
  }

  lemma PastTheEnd(
    nbuf: seq<Id>, conns: seq<Scored>, nid: Id, ndist: real, optimizeRouting: real, m: nat, threshold: real,
    between: (Id, Id) -> Option<real>)
    requires m > 0
    ensures forall j: nat :: j >= |nbuf| ==> !SkipAt(nbuf, conns, nid, ndist, threshold, between, j)
    ensures forall j: nat, a: Id :: j >= |nbuf| ==> !CutAt(nbuf, conns, nid, ndist, optimizeRouting, m, between, j, a)
    ensures conns == [] ==> forall j: nat :: !SkipAt(nbuf, conns, nid, ndist, threshold, between, j)
  {
  }
}
