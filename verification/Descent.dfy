/** The layered descent (beam_descend) and what a layer-0 beam finds in a connected graph. */
module Descent {
  import opened Core
  import opened Ranking
  import opened Scratch
  import opened Snapshot
  import opened Layers
  import opened Beam

  const DESCENT_EF: nat := 16

  // Layers are nested, and every layer's edges stay inside it.
  ghost predicate LayersClosed(nodes: Nodes) {
    forall k: nat :: Closed(nodes, k, LayerNodes(nodes, k))
  }

  lemma LayersNested(nodes: Nodes, k: nat)
    ensures LayerNodes(nodes, k + 1) <= LayerNodes(nodes, k)
  {
  }

  // The first hit of an unfiltered beam is a live node no farther than its entry, in the same layer.
  lemma FirstHit(nodes: Nodes, rank: Id -> real, entry: Id, level: nat, width: nat, out: seq<Scored>, scored: set<Id>)
    requires IsRanking(out, Ids(out), rank) && Nearest(Ids(out), Admitted(None, scored), width, rank) && width > 0
    requires entry in scored && scored <= nodes.Keys && Confined(nodes, level, entry, scored)
    ensures out != [] && out[0].id in nodes && out[0].dist == rank(out[0].id) <= rank(entry)
    ensures Ids(out) <= nodes.Keys
    ensures LayersClosed(nodes) && entry in LayerNodes(nodes, level) ==> Ids(out) <= LayerNodes(nodes, level)
  {
    assert Admitted(None, scored) == scored;
    IdsSize(out);
    assert |out| == |Ids(out)| > 0;
    assert out[0].id in Ids(out);
    if entry in Ids(out) {
      var i :| 0 <= i < |out| && out[i].id == entry;
    }
  }

  // The levels a descent from `fromLevel` works on, down to but not including `toLevel`.
  function Levels(fromLevel: nat, toLevel: nat): nat {
    var start := Min(fromLevel, MAX_UPPER_LEVELS);
    if start > toLevel then start - toLevel else 0
  }

  // Where the first `i` beams of a descent led: to the best hit of the last one.
  function LedTo(from: Id, looks: seq<Look>, i: nat): Id
    requires i <= |looks|
  {
    if i == 0 || looks[i - 1].hits == [] then from else looks[i - 1].hits[0].id
  }

  // Where the last beam of a descent was entered.
  ghost function LastEntry(looks: seq<Look>): Id {
    if looks == [] then 0 else looks[|looks| - 1].entry
  }

  // One beam per level, from the top down, each from the best hit of the one before and none cut short.
  ghost predicate Descended(
    nodes: Nodes, rank: Id -> real, ef: nat, from: Id, fromLevel: nat, toLevel: nat, looks: seq<Look>, to: Id)
  {
    && |looks| == Levels(fromLevel, toLevel) && to == LedTo(from, looks, |looks|)
    && forall i :: 0 <= i < |looks| ==> BeamAt(nodes, rank, ef, from, fromLevel, looks, i)
  }

  ghost predicate BeamAt(
    nodes: Nodes, rank: Id -> real, ef: nat, from: Id, fromLevel: nat, looks: seq<Look>, i: nat)
    requires i < |looks|
  {
    var start := Min(fromLevel, MAX_UPPER_LEVELS);
    && i <= start && looks[i].hits != [] && looks[i].entry == LedTo(from, looks, i)
    && LookOk(nodes, start - i, rank, ef, None, looks[i]) && LookDone(nodes, start - i, rank, ef, None, looks[i])
  }

  // What the beams of a descent scored beside their entries.
  function Visits(looks: seq<Look>): int {
    if looks == [] then 0 else Visits(looks[..|looks| - 1]) + |looks[|looks| - 1].scored| - 1
  }

  lemma DescendedStart(nodes: Nodes, rank: Id -> real, ef: nat, from: Id, fromLevel: nat)
    ensures Descended(nodes, rank, ef, from, fromLevel, Min(fromLevel, MAX_UPPER_LEVELS), [], from)
  {
  }

  lemma DescendedSnoc(
    nodes: Nodes, rank: Id -> real, ef: nat, from: Id, fromLevel: nat, level: nat, looks: seq<Look>, at: Id, look: Look)
    requires 0 < level <= Min(fromLevel, MAX_UPPER_LEVELS)
    requires Descended(nodes, rank, ef, from, fromLevel, level, looks, at) && look.entry == at && look.hits != []
    requires LookOk(nodes, level, rank, ef, None, look) && LookDone(nodes, level, rank, ef, None, look)
    ensures Descended(nodes, rank, ef, from, fromLevel, level - 1, looks + [look], look.hits[0].id)
    ensures Visits(looks + [look]) == Visits(looks) + |look.scored| - 1
  {
    hide LookOk, LookDone;
    var more := looks + [look];
    assert more[..|looks|] == looks;
    forall i | 0 <= i < |more| ensures BeamAt(nodes, rank, ef, from, fromLevel, more, i) {
      assert LedTo(from, more, i) == LedTo(from, looks, i);
      assert i < |looks| ==> BeamAt(nodes, rank, ef, from, fromLevel, looks, i);
    }
  }

  // One level of the descent.
  method DescendLevel(
    nodes: Nodes, maxNodes: nat, rank: Id -> real, current0: Id, level: nat, ef: nat, scratch: SearchScratch,
    highWater: nat, visits0: nat)
    returns (current: Id, visits: nat, ghost look: Look)
    requires current0 in nodes && Bounded(nodes, maxNodes) && scratch.Valid() && level > 0
    modifies scratch
    ensures scratch.Valid() && current in nodes && visits + 1 == visits0 + |look.scored|
    ensures LevelDone(nodes, rank, ef, level, current0, look, current)
  {
    hide *;
    scratch.Begin(highWater);
    var found: seq<Scored>;
    found, visits, look := SearchLayer(nodes, maxNodes, rank, current0, ef, level, scratch, visits0, None, None);
    LookMeans(nodes, level, rank, ef, None, look);
    UnfilteredWidth(ef, current0);
    FirstHit(nodes, rank, current0, level, Width(ef, None, current0), found, look.scored);
    HitMember(found);
    Arrives(nodes, rank, level, ef, look);
    current := found[0].id;
    LayersNested(nodes, level - 1);
    LevelMade(nodes, rank, ef, level, current0, look, current);
  }

  // One beam led from one node to the nearest it found, and what is known there.
  ghost predicate LevelDone(
    nodes: Nodes, rank: Id -> real, ef: nat, level: nat, from: Id, look: Look, to: Id)
  {
    && look.entry == from && look.hits != [] && to == look.hits[0].id && to in nodes && rank(to) <= rank(from)
    && LookOk(nodes, level, rank, ef, None, look) && LookDone(nodes, level, rank, ef, None, look)
    && Arrived(nodes, rank, level, ef, from, to)
    && (LayersClosed(nodes) && from in LayerNodes(nodes, level) ==> level > 0 && to in LayerNodes(nodes, level - 1))
  }

  lemma LevelMade(nodes: Nodes, rank: Id -> real, ef: nat, level: nat, from: Id, look: Look, to: Id)
    requires look.entry == from && look.hits != [] && to == look.hits[0].id && to in nodes && rank(to) <= rank(from)
    requires LookOk(nodes, level, rank, ef, None, look) && LookDone(nodes, level, rank, ef, None, look)
    requires Arrived(nodes, rank, level, ef, from, to)
    requires LayersClosed(nodes) && from in LayerNodes(nodes, level) ==> level > 0 && to in LayerNodes(nodes, level - 1)
    ensures LevelDone(nodes, rank, ef, level, from, look, to)
  {
  }

  // beam_descend: `current` is reached from `current0` through ever lower levels, each time from the best hit of the
  // last.
  method BeamDescend(
    nodes: Nodes, maxNodes: nat, rank: Id -> real, current0: Id, fromLevel: nat, toLevel: nat, ef: nat,
    scratch: SearchScratch, highWater: nat, visits0: nat)
    returns (current: Id, visits: nat, ghost looks: seq<Look>)
    requires current0 in nodes && Bounded(nodes, maxNodes) && scratch.Valid()
    modifies scratch
    ensures scratch.Valid() && current in nodes && visits == visits0 + Visits(looks)
    ensures DescentDone(nodes, rank, ef, current0, fromLevel, toLevel, looks, current)
  {
    hide *;
    current, visits, looks := current0, visits0, [];
    var level: nat := Min(fromLevel, MAX_UPPER_LEVELS);
    DescentStart(nodes, rank, ef, current0, fromLevel, toLevel);
    while level > toLevel
      invariant scratch.Valid() && visits == visits0 + Visits(looks)
      invariant DescentInv(nodes, rank, ef, current0, fromLevel, toLevel, level, looks, current)
      invariant current in nodes
    {
      ghost var look: Look;
      ghost var at := current;
      current, visits, look := DescendLevel(nodes, maxNodes, rank, current, level, ef, scratch, highWater, visits);
      DescentStep(nodes, rank, ef, current0, fromLevel, toLevel, level, looks, at, look, current);
      looks := looks + [look];
      level := level - 1;
    }
    DescentEnd(nodes, rank, ef, current0, fromLevel, toLevel, level, looks, current);
  }

  // A descent came by one finished beam per level from `from` to `to`, which is no farther; in a graph whose layers are
  // closed it stayed in them; and where the last beam was entered, `to` is as near as that beam could get.
  ghost predicate DescentDone(
    nodes: Nodes, rank: Id -> real, ef: nat, from: Id, fromLevel: nat, toLevel: nat, looks: seq<Look>, to: Id)
  {
    && Descended(nodes, rank, ef, from, fromLevel, toLevel, looks, to)
    && to in nodes && rank(to) <= rank(from)
    && (looks != [] ==> Arrived(nodes, rank, toLevel + 1, ef, LastEntry(looks), to))
    && (LayersClosed(nodes) && toLevel <= fromLevel <= MAX_UPPER_LEVELS && from in LayerNodes(nodes, fromLevel) ==>
          to in LayerNodes(nodes, toLevel) && (looks != [] ==> LastEntry(looks) in LayerNodes(nodes, toLevel + 1)))
  }

  lemma DescentLength(
    nodes: Nodes, rank: Id -> real, ef: nat, from: Id, fromLevel: nat, toLevel: nat, looks: seq<Look>, to: Id)
    requires DescentDone(nodes, rank, ef, from, fromLevel, toLevel, looks, to)
    ensures |looks| == Levels(fromLevel, toLevel)
  {
  }

  lemma DescentStays(
    nodes: Nodes, rank: Id -> real, ef: nat, from: Id, fromLevel: nat, toLevel: nat, looks: seq<Look>, to: Id)
    requires DescentDone(nodes, rank, ef, from, fromLevel, toLevel, looks, to)
    ensures to in nodes && rank(to) <= rank(from)
    ensures looks != [] ==> Arrived(nodes, rank, toLevel + 1, ef, LastEntry(looks), to)
    ensures LayersClosed(nodes) && toLevel <= fromLevel <= MAX_UPPER_LEVELS && from in LayerNodes(nodes, fromLevel) ==>
              to in LayerNodes(nodes, toLevel) && (looks != [] ==> LastEntry(looks) in LayerNodes(nodes, toLevel + 1))
  {
  }

  // Between two levels: how it got to `current`, and what is known there.
  ghost predicate DescentInv(
    nodes: Nodes, rank: Id -> real, ef: nat, from: Id, fromLevel: nat, toLevel: nat, level: nat, looks: seq<Look>,
    current: Id)
  {
    var start := Min(fromLevel, MAX_UPPER_LEVELS);
    && (if toLevel <= start then toLevel <= level <= start else level == start)
    && Descended(nodes, rank, ef, from, fromLevel, level, looks, current)
    && current in nodes && rank(current) <= rank(from)
    && (looks != [] ==> Arrived(nodes, rank, level + 1, ef, LastEntry(looks), current))
    && (LayersClosed(nodes) && from in LayerNodes(nodes, start) ==>
          current in LayerNodes(nodes, level)
          && (looks != [] ==> LastEntry(looks) in LayerNodes(nodes, level + 1)))
  }

  lemma DescentStart(nodes: Nodes, rank: Id -> real, ef: nat, from: Id, fromLevel: nat, toLevel: nat)
    requires from in nodes
    ensures DescentInv(nodes, rank, ef, from, fromLevel, toLevel, Min(fromLevel, MAX_UPPER_LEVELS), [], from)
    ensures Visits([]) == 0
  {
    DescendedStart(nodes, rank, ef, from, fromLevel);
  }

  lemma DescentStep(
    nodes: Nodes, rank: Id -> real, ef: nat, from: Id, fromLevel: nat, toLevel: nat, level: nat, looks: seq<Look>,
    at: Id, look: Look, to: Id)
    requires DescentInv(nodes, rank, ef, from, fromLevel, toLevel, level, looks, at) && level > toLevel
    requires LevelDone(nodes, rank, ef, level, at, look, to)
    ensures DescentInv(nodes, rank, ef, from, fromLevel, toLevel, level - 1, looks + [look], to)
    ensures Visits(looks + [look]) == Visits(looks) + |look.scored| - 1
  {
    assert LastEntry(looks + [look]) == look.entry;
    hide Descended, LookOk, LookDone, Arrived, LayersClosed, LayerNodes, Visits;
    DescendedSnoc(nodes, rank, ef, from, fromLevel, level, looks, at, look);
  }

  lemma DescentEnd(
    nodes: Nodes, rank: Id -> real, ef: nat, from: Id, fromLevel: nat, toLevel: nat, level: nat, looks: seq<Look>,
    current: Id)
    requires DescentInv(nodes, rank, ef, from, fromLevel, toLevel, level, looks, current) && level <= toLevel
    ensures DescentDone(nodes, rank, ef, from, fromLevel, toLevel, looks, current)
  {
    hide Arrived, LayersClosed, LayerNodes, BeamAt;
  }

  // Where a finished beam at `level` leads from `entered`: no neighbour there is nearer, and when the nodes within
  // reach are no more than the beam's width, none of them is; on a linked layer of that size that is the whole layer.
  ghost predicate Arrived(nodes: Nodes, rank: Id -> real, level: nat, ef: nat, entered: Id, current: Id) {
    && (forall v :: v in NeighborsAt(nodes, current, level) && v in nodes ==> rank(current) <= rank(v))
    && (forall reach: set<Id> :: IsReach(nodes, level, entered, reach) && |reach| <= ef ==>
         IsBest(current, reach, rank))
    && (Symmetric(nodes, level) && Connected(nodes, level) && entered in LayerNodes(nodes, level)
        && |LayerNodes(nodes, level)| <= ef ==>
          IsBest(current, LayerNodes(nodes, level), rank))
  }

  lemma LookMeans(nodes: Nodes, level: nat, rank: Id -> real, ef: nat, filter: Filter, look: Look)
    requires LookOk(nodes, level, rank, ef, filter, look)
    ensures look.entry in look.scored && look.scored <= nodes.Keys && Confined(nodes, level, look.entry, look.scored)
    ensures IsRanking(look.hits, Ids(look.hits), rank)
    ensures Nearest(Ids(look.hits), Admitted(filter, look.scored), Width(ef, filter, look.entry), rank)
  {
  }

  lemma DoneMeans(nodes: Nodes, level: nat, rank: Id -> real, ef: nat, filter: Filter, look: Look)
    requires LookDone(nodes, level, rank, ef, filter, look)
    ensures Expanded(nodes, level, Ids(look.hits), look.scored)
    ensures |look.hits| < Width(ef, filter, look.entry) || |look.scored| <= Width(ef, filter, look.entry) ==>
              Closed(nodes, level, look.scored)
  {
  }

  // The first of a ranking of the nearest is the nearest of all.
  lemma FirstIsBest(hits: seq<Scored>, from: set<Id>, width: nat, rank: Id -> real)
    requires IsRanking(hits, Ids(hits), rank) && Nearest(Ids(hits), from, width, rank) && hits != []
    ensures IsBest(hits[0].id, from, rank) && hits[0].id in Ids(hits)
  {
    forall x | x in from ensures rank(hits[0].id) <= rank(x) {
      if x in Ids(hits) {
        var i :| 0 <= i < |hits| && hits[i].id == x;
      }
    }
  }

  lemma Arrives(nodes: Nodes, rank: Id -> real, level: nat, ef: nat, look: Look)
    requires LookOk(nodes, level, rank, ef, None, look) && LookDone(nodes, level, rank, ef, None, look)
    requires look.hits != []
    ensures Arrived(nodes, rank, level, ef, look.entry, look.hits[0].id)
  {
    var (scored, current, width) := (look.scored, look.hits[0].id, Width(ef, None, look.entry));
    LookMeans(nodes, level, rank, ef, None, look);
    DoneMeans(nodes, level, rank, ef, None, look);
    UnfilteredWidth(ef, look.entry);
    assert Admitted(None, scored) == scored;
    FirstIsBest(look.hits, scored, width, rank);
    hide LookOk, LookDone, IsRanking, Nearest;
    forall reach: set<Id> | IsReach(nodes, level, look.entry, reach) && |reach| <= ef
      ensures IsBest(current, reach, rank) {
      ExhaustiveBeam(nodes, level, look.entry, scored, width, reach);
    }
    if Symmetric(nodes, level) && Connected(nodes, level) && look.entry in LayerNodes(nodes, level)
       && |LayerNodes(nodes, level)| <= ef {
      ConnectedBeam(nodes, level, look.entry, scored, width);
    }
  }

  lemma HitMember(found: seq<Scored>)
    requires found != []
    ensures found[0].id in Ids(found)
  {
  }

  lemma UnfilteredWidth(ef: nat, entry: Id)
    ensures Width(ef, None, entry) > 0 && Width(ef, None, entry) >= ef
  {
  }

  // A beam wide enough for the whole layer of a connected graph scores all of it.
  lemma ConnectedBeam(nodes: Nodes, level: nat, entry: Id, scored: set<Id>, width: nat)
    requires Symmetric(nodes, level) && Connected(nodes, level) && entry in LayerNodes(nodes, level)
    requires entry in scored && scored <= nodes.Keys && Confined(nodes, level, entry, scored)
    requires |LayerNodes(nodes, level)| <= width
    requires |scored| <= width ==> Closed(nodes, level, scored)
    ensures scored == LayerNodes(nodes, level)
  {
    LayerClosed(nodes, level);
    SubsetSize(scored, LayerNodes(nodes, level));
  }

  // Without a connected graph: a wide enough beam returns exactly what is reachable from its entry.
  lemma ExhaustiveBeam(nodes: Nodes, level: nat, entry: Id, scored: set<Id>, width: nat, reach: set<Id>)
    requires IsReach(nodes, level, entry, reach)
    requires entry in scored && Confined(nodes, level, entry, scored)
    requires |reach| <= width
    requires |scored| <= width ==> Closed(nodes, level, scored)
    ensures scored == reach
  {
    assert scored <= reach;
    SubsetSize(scored, reach);
  }
}
