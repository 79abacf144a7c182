/** Which nodes an insert links its new node to: what the beam of each level found, cut to the nearest 2m and thinned by
    the routing. */
module Connections {
  import opened Core
  import opened Ranking
  import opened Snapshot
  import opened Layers
  import opened Beam
  import opened Descent
  import opened Selection
  import opened GraphPlane
  import opened Plane
  import opened Traces

  // The first `n` of a ranking of the nearest are the nearest `n`.
  lemma FirstOfNearest(hits: seq<Scored>, from: set<Id>, width: nat, n: nat, rank: Rank)
    requires IsRanking(hits, Ids(hits), rank) && Nearest(Ids(hits), from, width, rank)
    ensures Nearest(Ids(Truncate(hits, n)), from, Min(n, width), rank)
    ensures IsRanking(Truncate(hits, n), Ids(Truncate(hits, n)), rank)
    ensures |Truncate(hits, n)| == Min(Min(n, width), |from|)
  {
    var first := Truncate(hits, n);
    TruncateRanking(hits, rank, n);
    IdsSize(hits);
    IdsSize(first);
    SubsetSize(Ids(hits), from);
    if |first| == |hits| {
      assert first == hits;
    }
    forall j | 0 <= j < |first| ensures hits[j].id in Ids(first) {
      assert first[j] == hits[j];
    }
    forall x, y | x in Ids(first) && y in from - Ids(first) ensures rank(x) <= rank(y) {
      var i :| 0 <= i < |first| && first[i].id == x;
      assert hits[i].id == x;
      if y in Ids(hits) {
        var j :| 0 <= j < |hits| && hits[j].id == y;
      }
    }
  }

  // At a level the new node shares with the graph the candidates are the nearest of all the beam scored, as many as the
  // beam's width and 2m allow; connections are candidates, at their distances, the nearest of all always one of them;
  // and without optimizeRouting they are exactly the nearest m, or 2m at level 0.
  lemma ConnectionsAreNearest(before: Nodes, trace: Trace, cfg: Setting, guide: Guide, k: nat)
    requires ChosenBy(before, trace, cfg, guide) && trace.path.entry.Some?
    requires k <= Min(trace.level, trace.path.entry.value.level)
    ensures k < |trace.path.looks| && k < |trace.connections|
    ensures var (look, conns) := (trace.path.looks[k], trace.connections[k]);
            var (candidates, width) := (Candidates(look, cfg.m), Width(guide.efConstruction, None, look.entry));
            && LookOk(before, k, guide.rank, guide.efConstruction, None, look)
            && Nearest(Ids(candidates), look.scored, Min(2 * cfg.m, width), guide.rank)
            && |candidates| == Min(Min(2 * cfg.m, width), |look.scored|)
            && (forall c :: c in conns ==> c in candidates && c.dist == guide.rank(c.id))
            && (cfg.m > 0 ==> conns != [] && IsBest(conns[0].id, look.scored, guide.rank))
            && (guide.optimizeRouting <= 0.0 ==>
                  Nearest(Ids(conns), look.scored, Min(PlainLimit(k, cfg.m), width), guide.rank))
  {
    hide *;
    PathMeans(before, trace, cfg, guide, trace.path.entry.value);
    LevelIsNearest(before, k, trace.path.looks[k], trace.connections[k], trace.cuts[k], cfg.m, cfg.between, guide);
  }

  lemma LevelIsNearest(
    nodes: Nodes, level: nat, look: Look, conns: seq<Scored>, cut: set<(Id, Id)>, m: nat, between: Between,
    guide: Guide)
    requires LevelChosen(nodes, level, look, conns, cut, m, between, guide)
    ensures var (candidates, width) := (Candidates(look, m), Width(guide.efConstruction, None, look.entry));
            && LookOk(nodes, level, guide.rank, guide.efConstruction, None, look)
            && Nearest(Ids(candidates), look.scored, Min(2 * m, width), guide.rank)
            && |candidates| == Min(Min(2 * m, width), |look.scored|)
            && (forall c :: c in conns ==> c in candidates && c.dist == guide.rank(c.id))
            && (m > 0 ==> conns != [] && IsBest(conns[0].id, look.scored, guide.rank))
            && (guide.optimizeRouting <= 0.0 ==>
                  Nearest(Ids(conns), look.scored, Min(PlainLimit(level, m), width), guide.rank))
  {
    hide *;
    var (rank, width) := (guide.rank, Width(guide.efConstruction, None, look.entry));
    LevelSelected(nodes, level, look, conns, cut, m, between, guide);
    HitsAreNearest(nodes, level, guide, look);
    FirstOfNearest(look.hits, look.scored, width, 2 * m, rank);
    FirstOfNearest(look.hits, look.scored, width, PlainLimit(level, m), rank);
    CandidatesDistances(look, m, rank);
    if m > 0 {
      SomeCandidate(m, width, look.scored);
      FirstIsBest(look.hits, look.scored, width, rank);
    }
  }

  lemma LevelSelected(
    nodes: Nodes, level: nat, look: Look, conns: seq<Scored>, cut: set<(Id, Id)>, m: nat, between: Between,
    guide: Guide)
    requires LevelChosen(nodes, level, look, conns, cut, m, between, guide)
    ensures LookOk(nodes, level, guide.rank, guide.efConstruction, None, look)
    ensures Candidates(look, m) == Truncate(look.hits, 2 * m) && forall c :: c in conns ==> c in Candidates(look, m)
    ensures Candidates(look, m) != [] ==> look.hits != [] && conns != [] && conns[0] == look.hits[0]
    ensures guide.optimizeRouting <= 0.0 ==> conns == Truncate(look.hits, PlainLimit(level, m))
  {
    var candidates := Candidates(look, m);
    SelectedPart(nodes, level, candidates, guide.optimizeRouting, m, Stored(nodes, between));
    hide LookOk, LookDone, Selected;
    assert Truncate(candidates, PlainLimit(level, m)) == Truncate(look.hits, PlainLimit(level, m));
  }

  lemma HitsAreNearest(nodes: Nodes, level: nat, guide: Guide, look: Look)
    requires LookOk(nodes, level, guide.rank, guide.efConstruction, None, look)
    ensures IsRanking(look.hits, Ids(look.hits), guide.rank) && look.entry in look.scored
    ensures Nearest(Ids(look.hits), look.scored, Width(guide.efConstruction, None, look.entry), guide.rank)
    ensures Width(guide.efConstruction, None, look.entry) > 0
  {
    assert Admitted(None, look.scored) == look.scored;
  }

  lemma CandidatesDistances(look: Look, m: nat, rank: Rank)
    requires IsRanking(look.hits, Ids(look.hits), rank)
    ensures forall c :: c in Candidates(look, m) ==> c.dist == rank(c.id)
  {
  }

  lemma SomeCandidate(m: nat, width: nat, scored: set<Id>)
    requires m > 0 && width > 0 && scored != {}
    ensures Min(Min(2 * m, width), |scored|) > 0
  {
  }

  // A way from `c` to `hit` through an edge of the graph before: no more than 1 and twice optimizeRouting times as long
  // as the direct one.
  ghost predicate NearBy(before: Nodes, k: nat, hit: Scored, c: Scored, cfg: Setting, guide: Guide) {
    c.id in NeighborsAt(before, hit.id, k)
    && c.dist + cfg.between(hit.id, c.id) < hit.dist * (1.0 + 2.0 * guide.optimizeRouting)
  }

  // An edge whose two ends were both linked, longer, by what its place j in the list of `d` tolerates, than the way
  // over the new node.
  ghost predicate Redundant(before: Nodes, k: nat, c: Scored, d: Scored, j: nat, cfg: Setting, guide: Guide)
    requires cfg.m > 0
  {
    c.id in NeighborsAt(before, d.id, k) && j < |NeighborsAt(before, d.id, k)|
    && c.dist + d.dist <
         cfg.between(d.id, c.id) * (1.0 + guide.optimizeRouting * (1.0 + 0.5 * j as real / cfg.m as real))
  }

  // What optimizeRouting may leave out: a candidate that is not linked has a neighbour that is, near enough to both,
  // and an edge is only cut between two linked nodes that are near enough over the new one.
  lemma DetoursAreShort(before: Nodes, trace: Trace, cfg: Setting, guide: Guide, k: nat)
    requires ChosenBy(before, trace, cfg, guide) && trace.path.entry.Some?
    requires k <= Min(trace.level, trace.path.entry.value.level)
    requires cfg.m > 0 && guide.optimizeRouting > 0.0 && forall x :: guide.rank(x) >= 0.0
    ensures k < |trace.path.looks| && k < |trace.connections| && k < |trace.cuts|
    ensures var (conns, candidates) := (trace.connections[k], Candidates(trace.path.looks[k], cfg.m));
            && (forall hit :: hit in candidates ==>
                  hit in conns || exists c :: c in conns && NearBy(before, k, hit, c, cfg, guide))
            && forall p :: p in trace.cuts[k] ==>
                 exists c, d, j: nat :: c in conns && d in conns && (p == (c.id, d.id) || p == (d.id, c.id))
                                        && Redundant(before, k, c, d, j, cfg, guide)
  {
    hide *;
    PathMeans(before, trace, cfg, guide, trace.path.entry.value);
    LevelDetours(before, k, trace.path.looks[k], trace.connections[k], trace.cuts[k], cfg, guide);
  }

  lemma LevelDetours(
    nodes: Nodes, level: nat, look: Look, conns: seq<Scored>, cut: set<(Id, Id)>, cfg: Setting, guide: Guide)
    requires LevelChosen(nodes, level, look, conns, cut, cfg.m, cfg.between, guide)
    requires cfg.m > 0 && guide.optimizeRouting > 0.0 && forall x :: guide.rank(x) >= 0.0
    ensures forall hit :: hit in Candidates(look, cfg.m) ==>
              hit in conns || exists c :: c in conns && NearBy(nodes, level, hit, c, cfg, guide)
    ensures forall p :: p in cut ==>
              exists c, d, j: nat :: c in conns && d in conns && (p == (c.id, d.id) || p == (d.id, c.id))
                                     && Redundant(nodes, level, c, d, j, cfg, guide)
  {
    hide *;
    var (candidates, opt, m, stored) := (Candidates(look, cfg.m), guide.optimizeRouting, cfg.m,
                                         Stored(nodes, cfg.between));
    LevelReaches(nodes, level, look, conns, cut, cfg, guide);
    forall hit | hit in candidates && hit !in conns
      ensures exists c :: c in conns && NearBy(nodes, level, hit, c, cfg, guide) {
      var i :| 0 <= i < |candidates| && candidates[i] == hit;
      ReachedIsNear(nodes, level, candidates, conns, i, cfg, guide);
    }
    forall p | p in cut
      ensures exists c, d, j: nat :: c in conns && d in conns && (p == (c.id, d.id) || p == (d.id, c.id))
                                     && Redundant(nodes, level, c, d, j, cfg, guide) {
      DetourIsRedundant(nodes, level, conns, p, cfg, guide);
    }
  }

  lemma LevelReaches(
    nodes: Nodes, level: nat, look: Look, conns: seq<Scored>, cut: set<(Id, Id)>, cfg: Setting, guide: Guide)
    requires LevelChosen(nodes, level, look, conns, cut, cfg.m, cfg.between, guide)
    requires cfg.m > 0 && guide.optimizeRouting > 0.0 && forall x :: guide.rank(x) >= 0.0
    ensures var (candidates, stored) := (Candidates(look, cfg.m), Stored(nodes, cfg.between));
            && AllReached(nodes, level, candidates, conns, guide.optimizeRouting, cfg.m, stored)
            && |candidates| <= 2 * cfg.m && (forall c :: c in candidates ==> c.dist >= 0.0)
            && forall p :: p in cut ==> DetourOf(nodes, level, conns, p, guide.optimizeRouting, cfg.m, stored)
    ensures forall c :: c in conns ==> c.id in nodes
  {
    SelectionReaches(nodes, level, Candidates(look, cfg.m), guide.optimizeRouting, cfg.m, Stored(nodes, cfg.between));
    LevelSelected(nodes, level, look, conns, cut, cfg.m, cfg.between, guide);
    HitsAreNearest(nodes, level, guide, look);
    CandidatesDistances(look, cfg.m, guide.rank);
    LookMeans(nodes, level, guide.rank, guide.efConstruction, None, look);
    assert Admitted(None, look.scored) == look.scored;
    hide LookOk, LookDone, Selected, IsRanking, Confined, AllReached, DetourOf;
    LinkedAreStored(look, conns, cfg.m, nodes);
  }

  lemma ReachedIsNear(
    nodes: Nodes, level: nat, candidates: seq<Scored>, conns: seq<Scored>, i: nat, cfg: Setting, guide: Guide)
    requires cfg.m > 0 && guide.optimizeRouting > 0.0 && i < |candidates| <= 2 * cfg.m && candidates[i].dist >= 0.0
    requires AllReached(nodes, level, candidates, conns, guide.optimizeRouting, cfg.m, Stored(nodes, cfg.between))
    requires candidates[i] !in conns
    ensures exists c :: c in conns && NearBy(nodes, level, candidates[i], c, cfg, guide)
  {
    var hit := candidates[i];
    var c :| c in conns && ReachedBy(nodes, level, hit, i, c, guide.optimizeRouting, cfg.m, Stored(nodes, cfg.between));
    ToleranceIs(guide.optimizeRouting, i, cfg.m, hit.dist);
    hide Threshold;
    assert NearBy(nodes, level, hit, c, cfg, guide);
  }

  lemma DetourIsRedundant(nodes: Nodes, level: nat, conns: seq<Scored>, p: (Id, Id), cfg: Setting, guide: Guide)
    requires cfg.m > 0 && forall c :: c in conns ==> c.id in nodes
    requires DetourOf(nodes, level, conns, p, guide.optimizeRouting, cfg.m, Stored(nodes, cfg.between))
    ensures exists c, d, j: nat :: c in conns && d in conns && (p == (c.id, d.id) || p == (d.id, c.id))
                                   && Redundant(nodes, level, c, d, j, cfg, guide)
  {
    hide Detoured, Redundant, Stored;
    var c, d, j: nat :| c in conns && d in conns && (p == (c.id, d.id) || p == (d.id, c.id))
      && j < |NeighborsAt(nodes, d.id, level)|
      && Detoured(nodes, level, c, d, j, guide.optimizeRouting, cfg.m, Stored(nodes, cfg.between));
    DetouredIsRedundant(nodes, level, c, d, j, cfg, guide);
  }

  lemma DetouredIsRedundant(nodes: Nodes, level: nat, c: Scored, d: Scored, j: nat, cfg: Setting, guide: Guide)
    requires cfg.m > 0 && c.id in nodes && d.id in nodes && j < |NeighborsAt(nodes, d.id, level)|
    requires Detoured(nodes, level, c, d, j, guide.optimizeRouting, cfg.m, Stored(nodes, cfg.between))
    ensures Redundant(nodes, level, c, d, j, cfg, guide)
  {
    ThresholdIs(guide.optimizeRouting, j, cfg.m);
    hide Threshold;
  }

  lemma LinkedAreStored(look: Look, conns: seq<Scored>, m: nat, nodes: Nodes)
    requires (forall c :: c in conns ==> c in Truncate(look.hits, 2 * m)) && Ids(look.hits) <= look.scored <= nodes.Keys
    ensures forall c :: c in conns ==> c.id in nodes
  {
    forall c | c in conns ensures c.id in nodes {
      assert c in look.hits && c.id in Ids(look.hits);
    }
  }

  // In a linked graph every level is entered at one of its own nodes.
  lemma {:induction false} EnteredInLayer(
    before: Nodes, trace: Trace, cfg: Setting, guide: Guide, e: EntryPoint, k: nat)
    requires ChosenBy(before, trace, cfg, guide) && trace.path.entry == Some(e) && LinkedFrom(before, e)
    requires e.level <= MAX_UPPER_LEVELS && k <= Min(trace.level, e.level)
    ensures k < |trace.path.looks| && trace.path.looks[k].entry in LayerNodes(before, k)
    decreases Min(trace.level, e.level) - k
  {
    hide *;
    var (looks, top) := (trace.path.looks, Min(trace.level, e.level));
    PathMeans(before, trace, cfg, guide, e);
    LinkedLayers(before, e);
    if k == top {
      DescentStays(before, guide.rank, DESCENT_EF, e.id, e.level, top, trace.path.descent, looks[top].entry);
      LevelsShared(trace.level, e.level);
    } else {
      EnteredInLayer(before, trace, cfg, guide, e, k + 1);
      LayersAreClosed(before, k + 1);
      NextInLayer(before, k + 1, looks[k + 1], cfg.m, guide);
      LayersNested(before, k);
    }
  }

  lemma LayersAreClosed(nodes: Nodes, k: nat)
    requires LayersClosed(nodes)
    ensures Closed(nodes, k, LayerNodes(nodes, k))
  {
  }

  lemma PathMeans(before: Nodes, trace: Trace, cfg: Setting, guide: Guide, e: EntryPoint)
    requires ChosenBy(before, trace, cfg, guide) && trace.path.entry == Some(e)
    ensures var (looks, top) := (trace.path.looks, Min(trace.level, e.level));
            && |looks| == top + 1 && |trace.connections| == trace.level + 1 == |trace.cuts| && top <= trace.level
            && DescentDone(before, guide.rank, DESCENT_EF, e.id, e.level, top, trace.path.descent, looks[top].entry)
            && (forall k :: 0 <= k <= top ==>
              LevelChosen(before, k, looks[k], trace.connections[k], trace.cuts[k], cfg.m, cfg.between, guide)
              && LookOk(before, k, guide.rank, guide.efConstruction, None, looks[k])
              && LookDone(before, k, guide.rank, guide.efConstruction, None, looks[k]))
            && (forall k :: 0 <= k < top ==> looks[k].entry == NextEntry(looks[k + 1], cfg.m))
  {
    hide LookOk, LookDone, DescentDone, NextEntry, Selected;
  }

  lemma NextInLayer(nodes: Nodes, level: nat, look: Look, m: nat, guide: Guide)
    requires LookOk(nodes, level, guide.rank, guide.efConstruction, None, look)
    requires Closed(nodes, level, LayerNodes(nodes, level)) && look.entry in LayerNodes(nodes, level)
    ensures look.scored <= LayerNodes(nodes, level) && NextEntry(look, m) in LayerNodes(nodes, level)
  {
    LookMeans(nodes, level, guide.rank, guide.efConstruction, None, look);
    hide LookOk, LayerNodes, Closed;
    if Candidates(look, m) != [] {
      assert NextEntry(look, m) == look.hits[0].id;
      HitMember(look.hits);
    }
  }

  // Where the beam's width covers a layer of a linked graph, all of the layer is scored: the connections come from the
  // nearest of the whole layer, the nearest of it is one of them, and without optimizeRouting they are the nearest.
  lemma LinkedConnections(before: Nodes, trace: Trace, cfg: Setting, guide: Guide, e: EntryPoint, k: nat)
    requires ChosenBy(before, trace, cfg, guide) && trace.path.entry == Some(e) && LinkedFrom(before, e)
    requires e.level <= MAX_UPPER_LEVELS && k <= Min(trace.level, e.level)
    requires |LayerNodes(before, k)| <= guide.efConstruction
    ensures k < |trace.path.looks| && k < |trace.connections|
    ensures var (layer, conns) := (LayerNodes(before, k), trace.connections[k]);
            var candidates := Candidates(trace.path.looks[k], cfg.m);
            && trace.path.looks[k].scored == layer
            && Nearest(Ids(candidates), layer, 2 * cfg.m, guide.rank) && (forall c :: c in conns ==> c in candidates)
            && (cfg.m > 0 ==> conns != [] && IsBest(conns[0].id, layer, guide.rank))
            && (guide.optimizeRouting <= 0.0 ==> Nearest(Ids(conns), layer, PlainLimit(k, cfg.m), guide.rank))
  {
    hide *;
    ConnectionsAreNearest(before, trace, cfg, guide, k);
    EnteredInLayer(before, trace, cfg, guide, e, k);
    PathMeans(before, trace, cfg, guide, e);
    LinkedLayers(before, e);
    var look := trace.path.looks[k];
    ScoredIsLayer(before, k, look, guide);
    var width := Width(guide.efConstruction, None, look.entry);
    UnfilteredWidth(guide.efConstruction, look.entry);
    NearestAnyway(Ids(Candidates(look, cfg.m)), look.scored, 2 * cfg.m, width, guide.rank);
    NearestAnyway(Ids(trace.connections[k]), look.scored, PlainLimit(k, cfg.m), width, guide.rank);
  }

  lemma ScoredIsLayer(nodes: Nodes, level: nat, look: Look, guide: Guide)
    requires AllLayersLinked(nodes) && look.entry in LayerNodes(nodes, level)
    requires LookOk(nodes, level, guide.rank, guide.efConstruction, None, look)
    requires LookDone(nodes, level, guide.rank, guide.efConstruction, None, look)
    requires |LayerNodes(nodes, level)| <= guide.efConstruction
    ensures look.scored == LayerNodes(nodes, level)
  {
    LookMeans(nodes, level, guide.rank, guide.efConstruction, None, look);
    DoneMeans(nodes, level, guide.rank, guide.efConstruction, None, look);
    UnfilteredWidth(guide.efConstruction, look.entry);
    assert Symmetric(nodes, level) && Connected(nodes, level);
    hide LookOk, LookDone, AllLayersLinked;
    ConnectedBeam(nodes, level, look.entry, look.scored, Width(guide.efConstruction, None, look.entry));
  }

  // A bound the set fits is no bound.
  lemma NearestAnyway(kept: set<Id>, from: set<Id>, n: nat, width: nat, rank: Rank)
    requires |from| <= width
    ensures Nearest(kept, from, Min(n, width), rank) ==> Nearest(kept, from, n, rank)
  {
    if Nearest(kept, from, Min(n, width), rank) {
      SubsetSize(kept, from);
    }
  }
}
