/** The mutable graph of one plane: insert, delete and search as one handle performs them in turn. */
module Plane {
  import opened Core
  import opened Ranking
  import opened Scratch
  import opened Snapshot
  import opened Layers
  import opened Edits
  import opened Beam
  import opened Descent
  import opened Selection
  import opened GraphPlane
  import opened Traces
  import Prune

  class Graph {
    const m: nat
    const efConstruction: nat
    const optimizeRouting: real
    const layer0Cap: nat
    const maxNodes: nat
    var nodes: Nodes
    var highWater: nat
    var entry: Option<EntryPoint>
    var previous: Option<Id>

    ghost function Limits(): Caps {
      Caps(layer0Cap, Min(2 * m, UPPER_CAP), maxNodes)
    }

    ghost function SettingOf(between: Between): Setting {
      Setting(m, layer0Cap, Limits(), between)
    }

    ghost function GuideOf(rank: Rank): Guide {
      Guide(rank, efConstruction, optimizeRouting)
    }

    ghost predicate Valid()
      reads this
    {
      && layer0Cap >= 1 && maxNodes <= NO_ID && highWater <= maxNodes
      && Bounded(nodes, highWater)
      && ListsOk(nodes, Limits())
      && ShapesOk(nodes)
      && EntryOk(nodes, entry)
    }

    // Every layer symmetric and connected, every list stored, nobody above the entry point.
    ghost predicate Linked()
      reads this
    {
      LinkedState(nodes, entry)
    }

    constructor (m: nat, efConstruction: nat, optimizeRouting: real, layer0Cap: nat, maxNodes: nat)
      requires layer0Cap >= 1 && maxNodes <= NO_ID
      ensures Valid() && Linked() && nodes == map[]
      ensures this.m == m && this.layer0Cap == layer0Cap && this.maxNodes == maxNodes && entry == None
      ensures this.efConstruction == efConstruction && this.optimizeRouting == optimizeRouting
    {
      this.m, this.efConstruction, this.optimizeRouting := m, efConstruction, optimizeRouting;
      this.layer0Cap, this.maxNodes := layer0Cap, maxNodes;
      nodes, highWater, entry, previous := map[], 0, None, None;
    }

    // allocate_id seen by one caller at a time: a dead id below the mark, else the mark itself.
    method AllocateId() returns (r: Option<Id>)
      requires highWater <= maxNodes && maxNodes <= NO_ID && Bounded(nodes, highWater)
      modifies `highWater
      ensures old(highWater) <= highWater <= maxNodes && Bounded(nodes, highWater)
      ensures old(Valid()) ==> Valid()
      ensures r.Some? ==> r.value !in nodes && r.value < highWater
      ensures highWater == HighWaterAfter(old(highWater), r)
      ensures r == Some(old(highWater)) ==> forall x: Id :: x < old(highWater) ==> x in nodes
      ensures r.None? <==> forall x: Id :: x < maxNodes ==> x in nodes
    {
      var free := set x: Id | x < highWater && x !in nodes;
      if free != {} {
        var x :| x in free;
        return Some(x);
      }
      assert forall x: Id :: x < highWater ==> x in nodes || x in free;
      if highWater < maxNodes {
        r := Some(highWater);
        assert r.value !in nodes;
        highWater := highWater + 1;
      } else {
        assert forall x: Id :: x < maxNodes ==> x in nodes || x in free;
        r := None;
      }
    }

    // claim_entry_if_empty: only from the empty word.
    method ClaimEntryIfEmpty(id: Id, level: nat) returns (won: bool)
      modifies `entry
      ensures won <==> old(entry).None?
      ensures entry == if won then Some(EntryPoint(id, level)) else old(entry)
    {
      won := entry.None?;
      if won {
        entry := Some(EntryPoint(id, level));
      }
    }

    // cas_entry_if_not_better: yields only to another entry that is at least as high.
    method CasEntryIfNotBetter(id: Id, level: nat, expected: Id, recordPrevious: bool)
      modifies `entry, `previous
      ensures entry == if Yields(old(entry), level, expected) then old(entry) else Some(EntryPoint(id, level))
      ensures previous ==
              if recordPrevious && !Yields(old(entry), level, expected) && Hint(nodes, maxNodes, old(entry), id)
                then Some(old(entry).value.id)
              else old(previous)
    {
      if entry.Some? && entry.value.id != expected && entry.value.level >= level {
        return;
      }
      var current := entry;
      entry := Some(EntryPoint(id, level));
      if recordPrevious {
        // record_previous_entry: a displaced entry that is still live becomes the hint
        if current.Some? && current.value.id != id && current.value.id < maxNodes && current.value.id in nodes {
          previous := Some(current.value.id);
        }
      }
    }

    // clear_entry_point_if
    method ClearEntryIf(expected: Id)
      modifies `entry
      ensures entry == if old(entry).Some? && old(entry).value.id == expected then None else old(entry)
    {
      if entry.Some? && entry.value.id == expected {
        entry := None;
      }
    }

    method RemoveEdge(from: Id, to: Id, level: nat)
      modifies `nodes
      ensures nodes == SetList(old(nodes), from, level, Without(NeighborsAt(old(nodes), from, level), to))
    {
      nodes := SetList(nodes, from, level, Without(NeighborsAt(nodes, from, level), to));
    }

    // Apply the edge removals one candidate's selection asked for.
    method RemoveReplaced(
      replaced: seq<Pair>, level: nat, ghost id: Id, ghost before: Nodes, ghost cut: set<Pair>, ghost conns: set<Id>)
      requires SameShape(before, nodes) && ListsOk(nodes, Limits())
      requires EdgesAre(before, nodes, level, cut, id, {})
      requires CutWithin(Elems(replaced), conns) && id !in conns
      requires ListsCut(before, nodes, level, cut) && ListsOk(before, Limits())
      modifies `nodes
      ensures ListsCut(before, nodes, level, cut + Elems(replaced))
      ensures SameShape(before, nodes) && ListsOk(nodes, Limits())
      ensures EdgesAre(before, nodes, level, cut + Elems(replaced), id, {})
      ensures forall u, k :: k != level ==> NeighborsAt(nodes, u, k) == NeighborsAt(old(nodes), u, k)
    {
      var i := 0;
      assert cut + Elems(replaced[..0]) == cut;
      forall j | 0 <= j < |replaced| ensures replaced[j].0 != id {
        assert (replaced[j].0, replaced[j].1) in Elems(replaced);
      }
      hide *;
      while i < |replaced|
        invariant 0 <= i <= |replaced|
        invariant SameShape(before, nodes) && ListsOk(nodes, Limits())
        invariant EdgesAre(before, nodes, level, cut + Elems(replaced[..i]), id, {})
        invariant ListsCut(before, nodes, level, cut + Elems(replaced[..i]))
        invariant forall u, k :: k != level ==> NeighborsAt(nodes, u, k) == NeighborsAt(old(nodes), u, k)
      {
        var from, to := replaced[i].0, replaced[i].1;
        EdgesAfterRemoval(before, nodes, level, cut + Elems(replaced[..i]), id, Limits(), from, to);
        ListsCutOnce(before, nodes, level, cut + Elems(replaced[..i]), Limits(), from, to);
        ghost var now := nodes;
        RemoveEdge(from, to, level);
        ShapeTransitive(before, now, nodes);
        ElemsSnoc(replaced[..i], (from, to));
        assert replaced[..i + 1] == replaced[..i] + [(from, to)];
        assert cut + Elems(replaced[..i]) + {(from, to)} == cut + Elems(replaced[..i + 1]);
        i := i + 1;
      }
      assert replaced[..i] == replaced;
    }

    // The selection loop at one level, over candidates in rank order.
    method Select(
      level: nat, id: Id, neighbors: seq<Scored>, between: Between) returns (conns: seq<Scored>, ghost cut: set<Pair>)
      requires ListsOk(nodes, Limits()) && (m > 0 || neighbors == [])
      requires DistinctIds(neighbors) && Ids(neighbors) <= nodes.Keys && id !in nodes
      modifies `nodes
      ensures SameShape(old(nodes), nodes) && ListsOk(nodes, Limits())
      ensures EdgesAre(old(nodes), nodes, level, cut, id, {})
      ensures forall u, k :: k != level ==> NeighborsAt(nodes, u, k) == NeighborsAt(old(nodes), u, k)
      ensures ConnsOk(old(nodes), id, conns, cut, |neighbors|)
      ensures Ids(conns) <= Ids(neighbors) && (neighbors != [] ==> conns != [])
      ensures Selected(old(nodes), level, neighbors, optimizeRouting, m, Stored(old(nodes), between)) ==
              Choice(conns, cut)
      ensures ListsCut(old(nodes), nodes, level, cut)
    {
      hide *;
      ghost var before, stored := nodes, Stored(nodes, between);
      conns, cut := [], {};
      var i := 0;
      SelectingStart(before, level, id, neighbors, optimizeRouting, m, stored, Limits());
      while i < |neighbors|
        invariant 0 <= i <= |neighbors|
        invariant Selecting(before, nodes, level, id, neighbors, i, conns, cut, optimizeRouting, m, stored, Limits())
        invariant forall u, k :: k != level ==> NeighborsAt(nodes, u, k) == NeighborsAt(before, u, k)
      {
        var nid, ndist := neighbors[i].id, neighbors[i].dist;
        SelectingMeans(before, nodes, level, id, neighbors, i, conns, cut, optimizeRouting, m, stored, Limits());
        StoredSame(before, nodes, between);
        var skipping, replaced := false, [];
        if optimizeRouting > 0.0 {
          var nbuf := NeighborsAt(nodes, nid, level);
          skipping, replaced := ScanNeighbors(nbuf, i, nid, ndist, conns, Stored(nodes, between), optimizeRouting, m);
          ScannedRight(neighbors[i], nbuf, i, level, conns, optimizeRouting, m, stored, skipping, Elems(replaced));
        } else {
          skipping := i >= (if level > 0 then m else 2 * m);
          PlainRight(before, neighbors[i], i, level, conns, cut, optimizeRouting, m, stored, skipping);
        }
        SelectStep(before, level, neighbors, i, Choice(conns, cut), optimizeRouting, m, stored, skipping,
          Elems(replaced));
        if !skipping {
          TakeCandidate(before, neighbors, i, id, conns, cut, Elems(replaced));
          RemoveReplaced(replaced, level, id, before, cut, Ids(conns) + {nid});
          conns := conns + [neighbors[i]];
          cut := cut + Elems(replaced);
        } else {
          SkipCandidate(before, neighbors, i, id, conns, cut);
        }
        i := i + 1;
        SelectingMade(before, nodes, level, id, neighbors, i, conns, cut, optimizeRouting, m, stored, Limits());
      }
      SelectingEnd(before, nodes, level, id, neighbors, conns, cut, optimizeRouting, m, stored, Limits());
    }

    // Search one level for candidates, then select among them: one turn of insert's level loop.
    method ConnectLevel(
      id: Id, level: nat, rank: Rank, between: Between, scratch: SearchScratch, ep: Id, visits0: nat)
      returns (conns: seq<Scored>, best: Id, visits: nat, ghost cut: set<Pair>, ghost look: Look)
      requires Bounded(nodes, maxNodes) && ListsOk(nodes, Limits())
      requires ep in nodes && id !in nodes && scratch.Valid()
      modifies this`nodes, scratch
      ensures scratch.Valid() && Bounded(nodes, maxNodes)
      ensures SameShape(old(nodes), nodes) && ListsOk(nodes, Limits())
      ensures EdgesAre(old(nodes), nodes, level, cut, id, {})
      ensures forall u, k :: k != level ==> NeighborsAt(nodes, u, k) == NeighborsAt(old(nodes), u, k)
      ensures ConnsOk(old(nodes), id, conns, cut, 2 * m)
      ensures conns == [] <==> m == 0
      ensures LevelChosen(old(nodes), level, look, conns, cut, m, between, GuideOf(rank))
      ensures look.entry == ep && best == NextEntry(look, m) && ListsCut(old(nodes), nodes, level, cut)
      ensures best in nodes
      ensures Closed(old(nodes), level, LayerNodes(old(nodes), level)) && ep in LayerNodes(old(nodes), level) ==>
                Ids(conns) <= LayerNodes(old(nodes), level) && best in LayerNodes(old(nodes), level)
    {
      ghost var before, guide := nodes, GuideOf(rank);
      assert guide == Guide(rank, efConstruction, optimizeRouting);
      hide *;
      scratch.Begin(highWater);
      var hits: seq<Scored>;
      hits, visits, look := SearchLayer(nodes, maxNodes, rank, ep, efConstruction, level, scratch, visits0, None, None);
      LookMeans(before, level, rank, efConstruction, None, look);
      UnfilteredWidth(efConstruction, ep);
      BeamHits(before, rank, ep, level, Width(efConstruction, None, ep), hits, look.scored, 2 * m);
      var neighbors := Truncate(hits, 2 * m);
      best := if neighbors != [] then neighbors[0].id else ep;
      conns, cut := Select(level, id, neighbors, between);
      ShapeKeys(before, nodes, maxNodes);
      WithinLimit(before, id, conns, cut, |neighbors|, 2 * m);
      BestInLayer(before, neighbors, level);
      LevelIsChosen(before, level, look, conns, cut, m, between, guide);
    }

    // The descent and the level loop: connections for every level the new node shares with the graph.
    method Connect(
      id: Id, level: nat, e: EntryPoint, rank: Rank, between: Between, scratch: SearchScratch, ghost cfg: Setting,
      ghost guide: Guide)
      returns (connections: seq<seq<Scored>>, ghost cuts: seq<set<Pair>>, ghost path: Path)
      requires cfg == SettingOf(between) && guide == GuideOf(rank)
      requires Bounded(nodes, maxNodes) && ListsOk(nodes, Limits())
      requires e.id in nodes && e.level <= MAX_UPPER_LEVELS && id !in nodes && scratch.Valid()
      modifies this`nodes, scratch
      ensures scratch.Valid()
      ensures SameShape(old(nodes), nodes) && ListsOk(nodes, Limits())
      ensures |connections| == level + 1 && AllConns(old(nodes), id, connections, cuts, 2 * m)
      ensures EdgesAll(old(nodes), nodes, cuts, id, Empties(level + 1))
      ensures connections[0] == [] <==> m == 0
      ensures path.entry == Some(e)
      ensures Chosen(old(nodes), nodes, id, level, connections, cuts, path, cfg, guide)
      ensures LinkedFrom(old(nodes), e) && m >= 1 ==> AllFull(old(nodes), connections)
    {
      hide *;
      ghost var before := nodes;
      ghost var linked := LinkedFrom(nodes, e);
      var top := Min(level, e.level);
      LevelsShared(level, e.level);
      LinkedLayers(nodes, e);
      var ep, visits;
      ghost var descent;
      ep, visits, descent :=
        BeamDescend(nodes, maxNodes, rank, e.id, e.level, top, DESCENT_EF, scratch, highWater, 0);
      ghost var first := ep;
      DescentStays(nodes, rank, DESCENT_EF, e.id, e.level, top, descent, ep);
      connections := seq(level + 1, _ => []);
      cuts := seq(level + 1, _ => {});
      ghost var looks := seq(top + 1, _ => Look(ep, [], {}, []));
      var l: int := top;
      ConnectStart(nodes, id, level, connections, cuts, 2 * m, linked, top);
      ChoosingStart(nodes, level, e, connections, cuts, looks, m, between, guide, first);
      while l >= 0
        invariant -1 <= l <= top && scratch.Valid() && Bounded(nodes, maxNodes)
        invariant SameShape(before, nodes) && ListsOk(nodes, Limits())
        invariant ConnectInv(before, nodes, id, level, connections, cuts, 2 * m, linked, top, l)
        invariant ep in nodes && (linked && l >= 0 ==> ep in LayerNodes(before, l))
        invariant Choosing(before, nodes, level, e, connections, cuts, looks, m, between, guide, first, ep, l)
      {
        ghost var now := nodes;
        ConnectBelow(before, now, id, level, connections, cuts, 2 * m, linked, top, l);
        ShapeKeys(before, now, maxNodes);
        var conns, best;
        ghost var cut, look;
        conns, best, visits, cut, look := ConnectLevel(id, l, rank, between, scratch, ep, visits);
        ConnectStep(before, now, nodes, id, level, connections, cuts, 2 * m, linked, top, l, conns, cut);
        ChoosingStep(before, now, nodes, level, e, connections, cuts, looks, m, between, guide, first, ep, l, conns,
          cut, look);
        connections, cuts, looks := connections[l := conns], cuts[l := cut], looks[l := look];
        ep := best;
        ShapeTransitive(before, now, nodes);
        ShapeKeys(now, nodes, maxNodes);
        if l > 0 {
          LayersNested(before, l - 1);
        }
        l := l - 1;
      }
      ConnectEnd(before, nodes, id, level, connections, cuts, 2 * m, linked, top, e);
      path := Path(Some(e), descent, looks);
      SettingParts(between, rank);
      ChoosingEnd(before, nodes, id, level, e, connections, cuts, looks, descent, cfg, guide, first, ep);
    }

    lemma CapsAre(between: Between)
      ensures var cfg := SettingOf(between);
              && (forall k :: CapAt(cfg, k) == if k == 0 then layer0Cap else 2 * m)
              && cfg.caps == Limits() && cfg.m == m && cfg.caps.layer0 == cfg.layer0Cap
              && cfg.caps.upper == Min(2 * m, UPPER_CAP)
    {
    }

    lemma SettingParts(between: Between, rank: Rank)
      ensures SettingOf(between).m == m && SettingOf(between).between == between && GuideOf(rank).rank == rank
    {
    }

    // The final node write: its own lists, cut to what a slot and an upper entry hold. `degraded`
    // reports that something did not fit, or that no upper entry was to be had.
    method PublishNode(id: Id, level: nat, connections: seq<seq<Scored>>, upperOk: bool, ghost cuts: seq<set<Pair>>)
      returns (degraded: bool)
      requires |connections| == level + 1 && AllConns(nodes, id, connections, cuts, 2 * m)
      requires ListsOk(nodes, Limits()) && Bounded(nodes, maxNodes) && layer0Cap >= 1 && id !in nodes
      modifies `nodes
      ensures nodes == old(nodes)[id := Node(level, WrittenLists(connections, upperOk, layer0Cap))]
      ensures degraded <==> Thin(connections, upperOk, layer0Cap)
      ensures ListsOk(nodes, Limits())
      ensures NeighborsAt(nodes, id, 0) == [] <==> connections[0] == []
      ensures !degraded ==> StoredWhole(nodes, id, level, connections)
    {
      ghost var before := nodes;
      var upper := if level > 0 && upperOk then UpperLists(connections) else [];
      var lists := [Truncate(Prune.IdsOf(connections[0]), layer0Cap)] + upper;
      nodes := nodes[id := Node(level, lists)];
      degraded := |connections[0]| > layer0Cap
        || (level > 0 && (!upperOk || exists k :: 0 < k <= level && |connections[k]| > UPPER_CAP));
      PublishOk(before, nodes, id, level, connections, cuts, m, Limits(), lists, upper);
      if !degraded {
        PublishWhole(nodes, id, level, connections, layer0Cap, lists, upper);
      }
    }

    // add_reverse_edge without contention: append, prune when over the cap, store. `dropped`
    // reports that the list was already at its cap.
    method AddReverseEdge(nid: Id, id: Id, level: nat, cap: nat, between: Between)
      returns (dropped: bool, ghost link: Link)
      requires ListsOk(nodes, Limits()) && nid != id && id < maxNodes
      requires cap == CapAt(SettingOf(between), level)
      modifies `nodes
      ensures SameShape(old(nodes), nodes) && ListsOk(nodes, Limits())
      ensures link == Link(nid, level, old(nodes), nodes) && LinkOk(link, id, SettingOf(between))
      ensures dropped <==> Overflows(link, id, Limits())
      ensures forall k :: NeighborsAt(nodes, id, k) == NeighborsAt(old(nodes), id, k)
    {
      dropped := false;
      ghost var before := nodes;
      SameShapeRefl(nodes);
      link := Link(nid, level, before, before);
      if nid !in nodes || level >= |nodes[nid].lists| {
        return;
      }
      var snapshot := NeighborsAt(nodes, nid, level);
      if id in snapshot {
        return;
      }
      ghost var caps, cfg := Limits(), SettingOf(between);
      var next := snapshot + [id];
      ReverseListOk(before, nid, id, level, caps, snapshot);
      assert caps.layer0 == layer0Cap && caps.upper == Min(2 * m, UPPER_CAP) && nid in LayerNodes(nodes, level);
      hide *;
      dropped := |next| > cap;
      if |next| > cap {
        var kept;
        next, kept := Prune.PruneWithCoverage(Stored(nodes, between), nid, next, cap);
        PrunedAsKept(Stored(nodes, between), nid, snapshot + [id], cap, kept);
        Prune.PruneListOk(Stored(nodes, between), nid, snapshot + [id], kept, cap);
      }
      dropped := dropped || (level > 0 && |snapshot| + 1 > UPPER_CAP);
      LinkReplaced(before, nid, id, level, cfg, snapshot, next);
      next := Fit(next, level);
      PartListOk(nid, snapshot + [id], next, caps, level);
      SetListEffect(nodes, nid, level, next);
      SetListOk(nodes, nid, level, next, caps);
      nodes := SetList(nodes, nid, level, next);
      link := Link(nid, level, before, nodes);
    }

    // The reverse edges, level by level. `dropped` reports an overflow at any of them.
    method LinkBack(
      id: Id, level: nat, connections: seq<seq<Scored>>, between: Between,
      ghost before: Nodes, ghost cuts: seq<set<Pair>>, ghost good: bool)
      returns (dropped: bool, ghost links: seq<Link>)
      requires ListsOk(nodes, Limits()) && id < maxNodes && id !in before
      requires |connections| == level + 1 && AllConns(before, id, connections, cuts, 2 * m)
      requires good ==> AllLayersLinked(before) && AllFull(before, connections) && ListsOk(before, Limits())
      requires good ==> LinkInv(before, nodes, id, level, connections, cuts, Empties(level + 1))
      modifies `nodes
      ensures SameShape(old(nodes), nodes) && ListsOk(nodes, Limits())
      ensures NeighborsAt(nodes, id, 0) == NeighborsAt(old(nodes), id, 0)
      ensures LinkedThrough(old(nodes), links, nodes, id, SettingOf(between), connections, level + 1, 0)
      ensures dropped <==> AnyOverflow(links, id, Limits())
      ensures good && !dropped ==> LinkInv(before, nodes, id, level, connections, cuts, AllIds(connections))
      ensures good && dropped ==> SomeListFull(before, Limits())
    {
      hide *;
      dropped, links := false, [];
      ghost var published, cfg := nodes, SettingOf(between);
      ghost var dones := Empties(level + 1);
      var l := 0;
      LinkLoopStart(before, nodes, id, level, connections, cuts, good, cfg);
      CapsAre(between);
      while l <= level
        invariant 0 <= l <= level + 1 && ListsOk(nodes, cfg.caps)
        invariant LinkLoop(before, published, nodes, id, level, connections, cuts, good, cfg, links, dropped, dones, l,
                  0)
      {
        var cap := if l == 0 then layer0Cap else 2 * m;
        var conns := connections[l];
        var j := 0;
        while j < |conns|
          invariant 0 <= j <= |conns| && ListsOk(nodes, cfg.caps)
          invariant LinkLoop(before, published, nodes, id, level, connections, cuts, good, cfg, links, dropped, dones,
                    l, j)
        {
          var nid := conns[j].id;
          ghost var now := nodes;
          ConnIsOther(before, id, connections, cuts, 2 * m, l, j);
          var more;
          ghost var link;
          more, link := AddReverseEdge(nid, id, l, cap, between);
          LinkLoopStep(before, published, link, id, level, connections, cuts, good, cfg, links, dropped, dones, l, j);
          links := links + [link];
          dropped := dropped || more;
          dones := dones[l := dones[l] + {nid}];
          j := j + 1;
        }
        LinkLoopNext(before, published, nodes, id, level, connections, cuts, good, cfg, links, dropped, dones, l);
        l := l + 1;
      }
      LinkLoopEnd(before, published, nodes, id, level, connections, cuts, good, cfg, links, dropped, dones, l);
    }

    // The first node: edgeless, and the entry word is claimed from empty.
    method InsertFirst(
      id: Id, level: nat, between: Between, upperOk: bool, ghost cfg: Setting, ghost guide: Guide)
      returns (degraded: bool, ghost trace: Trace)
      requires nodes.Keys == {} && entry.None? && layer0Cap >= 1 && highWater <= maxNodes <= NO_ID
      requires id < highWater && level <= MAX_UPPER_LEVELS && cfg == SettingOf(between)
      modifies `nodes, `entry
      ensures Valid() && entry == Some(EntryPoint(id, level))
      ensures InsertDone(old(nodes), nodes, None, id, level, trace, degraded, upperOk, cfg, guide)
      ensures degraded <==> level > 0 && !upperOk
      ensures !degraded ==> Linked()
    {
      degraded := level > 0 && !upperOk;
      var node := Node(level, [[]] + (if degraded then [] else seq(level, _ => [])));
      FirstNode(nodes, id, level, node, Limits(), highWater);
      if !degraded {
        FirstNodeLinked(id, level, node);
      }
      FirstInserted(nodes, id, level, node, upperOk, cfg, guide);
      trace := FirstTrace(nodes, id, level, node);
      nodes := nodes[id := node];
      var claimed := ClaimEntryIfEmpty(id, level);
    }

    // Connect the new node and write it: everything but the edges back to it.
    method Place(
      id: Id, level: nat, rank: Rank, between: Between, upperOk: bool, scratch: SearchScratch, ghost good: bool,
      ghost cfg: Setting, ghost guide: Guide)
      returns (connections: seq<seq<Scored>>, degraded: bool, ghost placed: Trace)
      requires Valid() && scratch.Valid() && level <= MAX_UPPER_LEVELS && entry.Some? && id !in nodes && id < highWater
      requires good ==> Linked() && m >= 1
      requires cfg == SettingOf(between) && guide == GuideOf(rank)
      modifies `nodes, scratch
      ensures scratch.Valid() && ListsOk(nodes, cfg.caps) && ShapesOk(nodes) && Bounded(nodes, highWater)
      ensures PlaceDone(old(nodes), entry, id, level, connections, placed, upperOk, cfg, guide)
              && placed.placed == nodes
      ensures NeighborsAt(nodes, id, 0) == [] <==> m == 0
      ensures degraded <==> Thins(placed, upperOk, cfg)
      ensures good ==> PlacedGood(old(nodes), placed, degraded)
    {
      hide *;
      ghost var before := nodes;
      var e := entry.value;
      ValidMeans(cfg, between);
      ghost var cuts, path;
      connections, cuts, path := Connect(id, level, e, rank, between, scratch, cfg, guide);
      ghost var cutNodes := nodes;
      AllConnsShape(before, cutNodes, id, connections, cuts, 2 * m);
      ShapeKeys(before, cutNodes, maxNodes);
      degraded := PublishNode(id, level, connections, upperOk, cuts);
      PlacedBy(before, cutNodes, nodes, id, level, highWater, connections, cuts, path, upperOk, cfg);
      ChosenPlaced(before, cutNodes, nodes, id, level, connections, cuts, path, cfg, guide);
      placed := Trace(id, level, connections, cuts, nodes, [], path);
      PlaceMade(before, placed, degraded, good, e, upperOk, cfg, guide);
    }

    // Grow from the entry point: connect, publish, link back, and take the crown if higher.
    method Join(
      id: Id, level: nat, rank: Rank, between: Between, upperOk: bool, scratch: SearchScratch, ghost cfg: Setting,
      ghost guide: Guide)
      returns (degraded: bool, ghost trace: Trace)
      requires Valid() && scratch.Valid() && level <= MAX_UPPER_LEVELS && entry.Some? && id !in nodes && id < highWater
      requires cfg == SettingOf(between) && guide == GuideOf(rank)
      modifies `nodes, `entry, `previous, scratch
      ensures Valid() && scratch.Valid()
      ensures InsertDone(old(nodes), nodes, old(entry), id, level, trace, degraded, upperOk, cfg, guide)
      ensures entry == EntryAfter(old(entry), id, level)
      ensures previous == PreviousAfter(old(entry), old(previous), level)
      ensures NeighborsAt(nodes, id, 0) == [] <==> m == 0
      ensures old(Linked()) && m >= 1 ==> if degraded then Cramped(old(nodes), level, upperOk) else Linked()
    {
      hide *;
      ghost var before, entry0 := nodes, entry;
      ghost var good := Linked() && m >= 1;
      var e := entry.value;
      ValidMeans(cfg, between);
      var connections, thin;
      ghost var placed;
      connections, thin, placed := Place(id, level, rank, between, upperOk, scratch, good, cfg, guide);
      ghost var published := nodes;
      PlaceMeans(before, entry0, id, level, connections, placed, thin, good, upperOk, cfg, guide);
      var dropped;
      ghost var links;
      dropped, links := LinkBack(id, level, connections, between, before, placed.cuts, good && !thin);
      degraded := thin || dropped;
      trace := placed.(links := links);
      InsertMade(before, nodes, entry0, id, level, connections, placed, trace, thin, dropped, upperOk, cfg, guide);
      LinkedBackKept(before, published, nodes, id, level, highWater);
      assert e.id in before && e.id in nodes by { KeptKeys(before, nodes, id); }
      Crowns(entry0, id, level);
      CrownedBy(entry0, level, e.id);
      HintIsLive(nodes, maxNodes, e, id, previous, level) by {
        BoundedBelow(before, maxNodes, e.id);
      }
      if level > e.level {
        CasEntryIfNotBetter(id, level, e.id, true);
      }
      if good && !degraded {
        JoinLinked(before, nodes, entry0, entry, id, level, connections, placed.cuts, 2 * m);
      }
      JoinedValid(before, nodes, entry0, entry, id, level);
      ValidMade();
      if good {
        LinkedMade(before, level, upperOk, degraded);
      }
    }

    // What a valid graph offers an insert.
    lemma ValidMeans(cfg: Setting, between: Between)
      requires Valid() && cfg == SettingOf(between)
      ensures ListsOk(nodes, cfg.caps) && EntryOk(nodes, entry) && layer0Cap >= 1 && highWater <= maxNodes <= NO_ID
      ensures ShapesOk(nodes) && Bounded(nodes, highWater) && Bounded(nodes, maxNodes)
      ensures entry.Some? ==> entry.value.id in nodes && entry.value.level <= MAX_UPPER_LEVELS
      ensures Linked() ==>
                LinkedState(nodes, entry) && AllLayersLinked(nodes) && (entry.Some? ==> LinkedFrom(nodes, entry.value))
      ensures cfg.m == m && cfg.layer0Cap == layer0Cap && cfg.caps == Limits()
      ensures cfg.caps.layer0 == layer0Cap && cfg.caps.upper == Min(2 * m, UPPER_CAP) && cfg.caps.maxNodes == maxNodes
    {
    }

    lemma ValidMade()
      requires layer0Cap >= 1 && highWater <= maxNodes <= NO_ID && Bounded(nodes, highWater)
      requires ListsOk(nodes, Limits()) && ShapesOk(nodes) && EntryOk(nodes, entry)
      ensures Valid()
    {
    }

    lemma LinkedMade(before: Nodes, level: nat, upperOk: bool, degraded: bool)
      requires !degraded ==> LinkedState(nodes, entry)
      requires degraded ==>
                 (level > 0 && !upperOk) || 2 * m > layer0Cap || 2 * m > UPPER_CAP || SomeListFull(before, Limits())
      ensures if degraded then Cramped(before, level, upperOk) else Linked()
    {
    }

    // What can make an insert store less than it should: no upper entry to be had, caps below 2m,
    // or some list that was already at its cap.
    ghost predicate Cramped(before: Nodes, level: nat, upperOk: bool) {
      (level > 0 && !upperOk) || 2 * m > layer0Cap || 2 * m > UPPER_CAP || SomeListFull(before, Limits())
    }

    // insert_with_key for one caller at a time. `level` is the random level, `rank` and `between`
    // the distances of the new vector and of stored pairs, `upperOk` whether an upper entry was free.
    // `trace` accounts for the whole change; `degraded` is exactly whether it stored less than it wanted.
    method Insert(level: nat, rank: Rank, between: Between, upperOk: bool, scratch: SearchScratch)
      returns (r: InsertResult, degraded: bool, ghost trace: Option<Trace>)
      requires Valid() && scratch.Valid() && level <= MAX_UPPER_LEVELS
      modifies this, scratch
      ensures Valid() && scratch.Valid()
      ensures r.Full? <==> forall x: Id :: x < maxNodes ==> x in old(nodes)
      ensures r.Full? ==> trace.None? && !degraded && nodes == old(nodes) && entry == old(entry)
      ensures r.Inserted? ==> trace.Some?
      ensures r.Inserted? ==> InsertDone(old(nodes), nodes, old(entry), r.id, level, trace.value, degraded, upperOk,
                SettingOf(between), GuideOf(rank))
      ensures r.Inserted? ==> OthersKept(old(nodes), nodes, r.id) && nodes[r.id].level == level
      ensures r.Inserted? ==> entry == EntryAfter(old(entry), r.id, level)
      ensures r.Inserted? ==> previous == PreviousAfter(old(entry), old(previous), level)
      ensures highWater == HighWaterAfter(old(highWater), if r.Inserted? then Some(r.id) else None)
      ensures r.Inserted? && old(entry).Some? ==> (NeighborsAt(nodes, r.id, 0) == [] <==> m == 0)
      ensures old(Linked()) && m >= 1 && !degraded ==> Linked()
      ensures old(Linked()) && m >= 1 && degraded ==> Cramped(old(nodes), level, upperOk)
    {
      assert highWater <= maxNodes && maxNodes <= NO_ID && Bounded(nodes, highWater) && layer0Cap >= 1;
      assert entry.None? ==> nodes.Keys == {};
      hide InsertDone, OthersKept, Bounded, ListsOk, ShapesOk, EntryOk, NeighborsAt, LinkedState, SomeListFull;
      hide Valid, SettingOf, GuideOf, Limits;
      ghost var cfg, guide := SettingOf(between), GuideOf(rank);
      var a := AllocateId();
      if a.None? {
        return Full, false, None;
      }
      r := Inserted(a.value);
      ghost var before, entry0 := nodes, entry;
      ghost var done: Trace;
      if entry.None? {
        degraded, done := InsertFirst(a.value, level, between, upperOk, cfg, guide);
      } else {
        degraded, done := Join(a.value, level, rank, between, upperOk, scratch, cfg, guide);
      }
      trace := Some(done);
      DoneKeeps(before, nodes, entry0, a.value, level, done, degraded, upperOk, cfg, guide);
    }

    // The best of the previous entry point and the leaver's neighbours.
    method BestNear(preferred: seq<Id>, replacing: Id) returns (best: Option<EntryPoint>)
      ensures BestOf(nodes, NearCandidates(nodes, previous, preferred, replacing), best)
    {
      best := None;
      if previous.Some? && previous.value != replacing && previous.value in nodes {
        best := Some(EntryPoint(previous.value, nodes[previous.value].level));
      }
      var i := 0;
      while i < |preferred|
        invariant 0 <= i <= |preferred|
        invariant BestOf(nodes, NearCandidates(nodes, previous, preferred[..i], replacing), best)
      {
        NearStep(nodes, previous, preferred, i, replacing);
        best := Consider(nodes, best, preferred[i], replacing);
        i := i + 1;
      }
      assert preferred[..i] == preferred;
    }

    // The full scan below the mark, cut short by a node on the top level.
    method BestAnywhere(replacing: Id) returns (best: Option<EntryPoint>)
      requires Bounded(nodes, highWater) && highWater <= NO_ID && ShapesOk(nodes)
      ensures BestOf(nodes, nodes.Keys - {replacing}, best)
    {
      best := None;
      var cand: nat := 0;
      BelowEnd(nodes, highWater, replacing);
      while cand < highWater
        invariant cand <= highWater
        invariant BestOf(nodes, Below(nodes, cand, replacing), best)
      {
        BelowStep(nodes, cand, replacing);
        best := Consider(nodes, best, cand, replacing);
        if best == Some(EntryPoint(cand, MAX_UPPER_LEVELS)) {
          TopLevelWins(nodes, nodes.Keys - {replacing}, best.value);
          return;
        }
        cand := cand + 1;
      }
    }

    // reelect_entry_point_replacing: the previous entry and the leaver's neighbours first, and
    // only when all of those are gone every id below the mark.
    method Reelect(preferred: seq<Id>, replacing: Id)
      requires Bounded(nodes, highWater) && highWater <= NO_ID && ShapesOk(nodes)
      requires entry.Some? && entry.value.id == replacing
      modifies `entry, `previous
      ensures previous == old(previous)
      ensures entry.None? <==> nodes.Keys <= {replacing}
      ensures entry.Some? ==> IsElected(nodes, Survivors(nodes, old(previous), preferred, replacing), entry.value)
    {
      var best := BestNear(preferred, replacing);
      if best.None? {
        best := BestAnywhere(replacing);
      }
      assert BestOf(nodes, Survivors(nodes, previous, preferred, replacing), best);
      match best {
        case Some(e) => CasEntryIfNotBetter(e.id, e.level, replacing, false);
        case None => ClearEntryIf(replacing);
      }
    }

    // delete_node: re-elect while the node is still live, then tombstone it. Deleting an id that is not live changes
    // nothing.
    method DeleteNode(id: Id)
      requires Valid()
      modifies `nodes, `entry, `previous
      ensures Valid() && nodes == old(nodes) - {id} && previous == old(previous)
      ensures old(entry).Some? && old(entry).value.id == id ==>
                entry.None?
                  || IsElected(old(nodes), Survivors(old(nodes), old(previous), NeighborsAt(old(nodes), id, 0), id),
                  entry.value)
      ensures !(old(entry).Some? && old(entry).value.id == id) ==> entry == old(entry)
    {
      ghost var before, entry0 := nodes, entry;
      if entry.Some? && entry.value.id == id {
        Reelect(NeighborsAt(nodes, id, 0), id);
      }
      DeleteKeeps(before, id, Limits(), highWater);
      DeleteEntry(before, entry0, entry, previous, NeighborsAt(before, id, 0), id);
      nodes := nodes - {id};
    }

    // resolve_entry while the entry word names a live node or nothing is live.
    method ResolveEntry() returns (r: Option<EntryPoint>, visits: nat)
      requires EntryOk(nodes, entry)
      ensures r == entry && visits == if entry.None? then 0 else 1
    {
      if entry.Some? && entry.value.id in nodes {
        return entry, 1;
      }
      return None, 0;
    }

    // search (no filter) and search_filtered: the layered descent, then the layer-0 beam at `ef`, cut to k. Whenever
    // the admitted nodes within reach of where the descent ended are no more than `ef`, and with a filter the budget of
    // ef * filterExpansion visits covers all within reach, the hits are those of an exhaustive scan of just that. When
    // the graph is linked that is everything.
    method Search(rank: Rank, k: nat, ef: nat, filter: Filter, filterExpansion: nat, scratch: SearchScratch)
      returns (hits: seq<Scored>, visits: nat, ghost look: Look, ghost descent: seq<Look>)
      requires Valid() && scratch.Valid()
      modifies scratch
      ensures scratch.Valid() && |hits| <= k && Ids(hits) <= Admitted(filter, nodes.Keys)
      ensures IsRanking(hits, Ids(hits), rank)
      ensures entry.None? ==> hits == [] && visits == 0
      ensures entry.Some? ==>
                Searched(nodes, entry.value, rank, k, ef, filter, Budget(ef, filterExpansion), hits, visits, look,
                descent)
      ensures entry.Some? && k <= ef ==> BruteForce(hits, Admitted(filter, look.scored), rank, k)
      ensures entry.Some? ==> Exhausts(nodes, filter, look, hits, ef, Budget(ef, filterExpansion), rank, k)
      ensures entry.Some? ==> rank(look.entry) <= rank(entry.value.id)
      ensures entry.Some? && descent != [] ==> Arrived(nodes, rank, 1, 16, LastEntry(descent), look.entry)
      ensures Linked() && entry.Some? && entry.value.level > 0 && |LayerNodes(nodes, 1)| <= 16 ==>
                IsBest(look.entry, LayerNodes(nodes, 1), rank)
      ensures Linked() && Covers(filter, nodes.Keys, ef, Budget(ef, filterExpansion)) ==>
                BruteForce(hits, Admitted(filter, nodes.Keys), rank, k)
    {
      hide *;
      SearchReady();
      var e;
      e, visits := ResolveEntry();
      if e.None? {
        hits, look, descent := [], NO_LOOK, [];
        NothingLive(nodes, filter, rank, k);
        return;
      }
      DescentWidth();
      hits, visits, look, descent := SearchFrom(e.value, rank, k, ef, filter, filterExpansion, scratch);
      SearchMeans(nodes, e.value, rank, k, ef, filter, Budget(ef, filterExpansion), hits, visits, look, descent);
      if Linked() {
        SearchLinked(nodes, e.value, rank, k, ef, filter, Budget(ef, filterExpansion), hits, visits, look, descent);
      }
    }

    lemma DescentWidth()
      ensures DESCENT_EF == 16
    {
    }

    lemma SearchReady()
      requires Valid()
      ensures Bounded(nodes, maxNodes) && EntryOk(nodes, entry) && LayerNodes(nodes, 0) == nodes.Keys
      ensures entry.None? ==> nodes.Keys == {}
      ensures entry.Some? ==> entry.value.id in nodes && entry.value.level <= MAX_UPPER_LEVELS
      ensures entry.Some? && Linked() ==>
                AllLayersLinked(nodes) && LayersClosed(nodes) && entry.value.id in LayerNodes(nodes, entry.value.level)
    {
      BoundedHigher(nodes, highWater, maxNodes);
      LayerZero(nodes);
      if entry.Some? {
        LinkedLayers(nodes, entry.value);
      }
    }

    // The descent from the entry point and the layer-0 beam.
    method SearchFrom(
      e: EntryPoint, rank: Rank, k: nat, ef: nat, filter: Filter, filterExpansion: nat, scratch: SearchScratch)
      returns (hits: seq<Scored>, visits: nat, ghost look: Look, ghost descent: seq<Look>)
      requires Bounded(nodes, maxNodes) && scratch.Valid() && e.id in nodes
      modifies scratch
      ensures scratch.Valid()
      ensures Searched(nodes, e, rank, k, ef, filter, Budget(ef, filterExpansion), hits, visits, look, descent)
    {
      hide *;
      var current;
      // the entry point's own distance was the first visit
      current, visits, descent :=
        BeamDescend(nodes, maxNodes, rank, e.id, e.level, 0, DESCENT_EF, scratch, highWater, 1);
      scratch.Begin(highWater);
      ghost var visits0 := visits;
      var budget := if filter.Some? then Some(visits + ef * filterExpansion) else None;
      var out;
      out, visits, look := SearchLayer(nodes, maxNodes, rank, current, ef, 0, scratch, visits, filter, budget);
      hits := Truncate(out, k);
      assert ef * filterExpansion == Budget(ef, filterExpansion) by { BudgetIs(ef, filterExpansion); }
      SearchMade(nodes, e, rank, k, ef, filter, Budget(ef, filterExpansion), hits, visits0, visits, look, descent);
    }
  }

  // The visits a filtered search may make beyond its descent.
  ghost function Budget(ef: nat, filterExpansion: nat): nat {
    ef * filterExpansion
  }

  // One search, from its entry point: a finished descent to where the layer-0 beam starts, that beam, which unless it
  // spent its budget of visits was finished too, its hits cut to k, and every visit counted.
  ghost predicate Searched(
    nodes: Nodes, e: EntryPoint, rank: Rank, k: nat, ef: nat, filter: Filter, budget: nat, hits: seq<Scored>,
    visits: nat,
    look: Look, descent: seq<Look>)
  {
    && DescentDone(nodes, rank, DESCENT_EF, e.id, e.level, 0, descent, look.entry)
    && LookOk(nodes, 0, rank, ef, filter, look) && hits == Truncate(look.hits, k)
    && visits == Visits(descent) + |look.scored|
    && (filter.None? || |look.scored| <= budget ==> LookDone(nodes, 0, rank, ef, filter, look))
    && (filter.Some? ==>
          |look.scored| == 1
          || exists c :: c in look.scored && |look.scored| <= budget + |NeighborsAt(nodes, c, 0)|)
  }

  lemma BudgetIs(ef: nat, filterExpansion: nat)
    ensures Budget(ef, filterExpansion) == ef * filterExpansion
  {
  }

  lemma SearchMade(
    nodes: Nodes, e: EntryPoint, rank: Rank, k: nat, ef: nat, filter: Filter, budget: nat, hits: seq<Scored>,
    visits0: nat, visits: nat, look: Look, descent: seq<Look>)
    requires DescentDone(nodes, rank, DESCENT_EF, e.id, e.level, 0, descent, look.entry)
    requires LookOk(nodes, 0, rank, ef, filter, look) && hits == Truncate(look.hits, k)
    requires visits0 == 1 + Visits(descent) && visits + 1 == visits0 + |look.scored|
    requires filter.None? || visits < visits0 + budget ==> LookDone(nodes, 0, rank, ef, filter, look)
    requires filter.Some? ==> LastExpansion(nodes, 0, look.scored, visits0, visits, visits0 + budget)
    ensures Searched(nodes, e, rank, k, ef, filter, budget, hits, visits, look, descent)
  {
    hide DescentDone, LookOk, LookDone, NeighborsAt;
  }

  // The admitted ones of the set fit the result, and with a filter the budget allows for scoring the whole set.
  ghost predicate Covers(filter: Filter, from: set<Id>, ef: nat, budget: nat) {
    |Admitted(filter, from)| <= ef && (filter.Some? ==> |from| <= budget)
  }

  // What a beam that was not cut short and had room left has scored is all that is reachable; and whatever is
  // reachable, if it is covered, is what the hits were taken from.
  ghost predicate Exhausts(
    nodes: Nodes, filter: Filter, look: Look, hits: seq<Scored>, ef: nat, budget: nat, rank: Rank, k: nat)
  {
    && ((filter.None? || |look.scored| <= budget) && (|look.hits| < ef || |look.scored| <= ef) ==>
          IsReach(nodes, 0, look.entry, look.scored))
    && forall reach: set<Id> :: IsReach(nodes, 0, look.entry, reach) && Covers(filter, reach, ef, budget) ==>
         BruteForce(hits, Admitted(filter, reach), rank, k)
  }

  lemma SearchMeans(
    nodes: Nodes, e: EntryPoint, rank: Rank, k: nat, ef: nat, filter: Filter, budget: nat, hits: seq<Scored>,
    visits: nat,
    look: Look, descent: seq<Look>)
    requires Searched(nodes, e, rank, k, ef, filter, budget, hits, visits, look, descent)
    ensures |hits| <= k && Ids(hits) <= Admitted(filter, nodes.Keys) && IsRanking(hits, Ids(hits), rank)
    ensures k <= ef ==> BruteForce(hits, Admitted(filter, look.scored), rank, k)
    ensures Exhausts(nodes, filter, look, hits, ef, budget, rank, k)
    ensures rank(look.entry) <= rank(e.id)
    ensures descent != [] ==> Arrived(nodes, rank, 1, DESCENT_EF, LastEntry(descent), look.entry)
  {
    hide *;
    SearchParts(nodes, e, rank, k, ef, filter, budget, hits, visits, look, descent);
    DescentStays(nodes, rank, DESCENT_EF, e.id, e.level, 0, descent, look.entry);
    LookMeans(nodes, 0, rank, ef, filter, look);
    TruncateRanking(look.hits, rank, k);
    HitsAdmitted(nodes, filter, look.hits, look.scored, Width(ef, filter, look.entry), rank, k);
    if k <= ef {
      BeamIsBruteForce(filter, look.entry, look.hits, look.scored, ef, rank, k);
    }
    Exhaustive(nodes, filter, look, ef, budget, rank, k);
  }

  lemma SearchParts(
    nodes: Nodes, e: EntryPoint, rank: Rank, k: nat, ef: nat, filter: Filter, budget: nat, hits: seq<Scored>,
    visits: nat,
    look: Look, descent: seq<Look>)
    requires Searched(nodes, e, rank, k, ef, filter, budget, hits, visits, look, descent)
    ensures DescentDone(nodes, rank, DESCENT_EF, e.id, e.level, 0, descent, look.entry)
    ensures LookOk(nodes, 0, rank, ef, filter, look) && hits == Truncate(look.hits, k)
    ensures filter.None? || |look.scored| <= budget ==> LookDone(nodes, 0, rank, ef, filter, look)
  {
  }

  // In a linked graph everything is within reach, and the descent stayed where it should.
  lemma SearchLinked(
    nodes: Nodes, e: EntryPoint, rank: Rank, k: nat, ef: nat, filter: Filter, budget: nat, hits: seq<Scored>,
    visits: nat,
    look: Look, descent: seq<Look>)
    requires Searched(nodes, e, rank, k, ef, filter, budget, hits, visits, look, descent)
    requires Exhausts(nodes, filter, look, hits, ef, budget, rank, k)
    requires AllLayersLinked(nodes) && LayersClosed(nodes) && LayerNodes(nodes, 0) == nodes.Keys
    requires e.level <= MAX_UPPER_LEVELS && e.id in LayerNodes(nodes, e.level)
    ensures Covers(filter, nodes.Keys, ef, budget) ==> BruteForce(hits, Admitted(filter, nodes.Keys), rank, k)
    ensures e.level > 0 && |LayerNodes(nodes, 1)| <= DESCENT_EF ==> IsBest(look.entry, LayerNodes(nodes, 1), rank)
  {
    SearchParts(nodes, e, rank, k, ef, filter, budget, hits, visits, look, descent);
    DescentStays(nodes, rank, DESCENT_EF, e.id, e.level, 0, descent, look.entry);
    assert Symmetric(nodes, 0) && Connected(nodes, 0) && Symmetric(nodes, 1) && Connected(nodes, 1);
    DescentLength(nodes, rank, DESCENT_EF, e.id, e.level, 0, descent, look.entry);
    WholeIsReach(nodes, 0, look.entry);
    hide Searched, DescentDone, LookOk, LookDone, AllLayersLinked, Covers, BruteForce;
  }

  lemma WholeIsReach(nodes: Nodes, level: nat, entry: Id)
    requires Symmetric(nodes, level) && Connected(nodes, level)
    ensures entry in LayerNodes(nodes, level) ==> IsReach(nodes, level, entry, LayerNodes(nodes, level))
  {
    var layer := LayerNodes(nodes, level);
    LayerClosed(nodes, level);
    if entry in layer {
      forall t: set<Id> | entry in t && Closed(nodes, level, t) ensures layer <= t {
        var inside := t * layer;
        assert Closed(nodes, level, inside);
        assert entry in inside;
      }
    }
  }

  // A CAS that is "not better" gives way to another entry at least as high.
  predicate Yields(entry: Option<EntryPoint>, level: nat, expected: Id) {
    entry.Some? && entry.value.id != expected && entry.value.level >= level
  }

  predicate Hint(nodes: Nodes, maxNodes: nat, displaced: Option<EntryPoint>, id: Id) {
    displaced.Some? && displaced.value.id != id && displaced.value.id < maxNodes && displaced.value.id in nodes
  }

  // The cheap candidates of a re-election: the previous entry point and the leaver's neighbours.
  ghost function NearCandidates(nodes: Nodes, previous: Option<Id>, preferred: seq<Id>, replacing: Id): set<Id> {
    set x | x in nodes && x != replacing && (x in preferred || previous == Some(x))
  }

  // Who may be elected: the cheap candidates when one is live, else everybody else.
  ghost function Survivors(nodes: Nodes, previous: Option<Id>, preferred: seq<Id>, replacing: Id): set<Id> {
    var near := NearCandidates(nodes, previous, preferred, replacing);
    if near == {} then nodes.Keys - {replacing} else near
  }

  ghost predicate IsElected(nodes: Nodes, from: set<Id>, e: EntryPoint) {
    && e.id in from && e.id in nodes && nodes[e.id].level == e.level
    && forall x :: x in from && x in nodes ==> nodes[x].level <= e.level
  }

  ghost predicate BestOf(nodes: Nodes, from: set<Id>, best: Option<EntryPoint>) {
    if best.None? then from == {} else IsElected(nodes, from, best.value)
  }

  // One candidate considered: taken when live, not the leaver, and higher than the best so far.
  function Consider(nodes: Nodes, best: Option<EntryPoint>, cand: Id, replacing: Id): (r: Option<EntryPoint>)
    ensures forall from: set<Id> :: BestOf(nodes, from, best) ==>
              BestOf(nodes, if cand != replacing && cand in nodes then from + {cand} else from, r)
    ensures r.Some? && r != best ==>
              r.value.id == cand && cand in nodes && cand != replacing && r.value.level == nodes[cand].level
  {
    if cand != replacing && cand in nodes && (best.None? || nodes[cand].level > best.value.level) then
      Some(EntryPoint(cand, nodes[cand].level))
    else
      best
  }

  lemma NearStep(nodes: Nodes, previous: Option<Id>, preferred: seq<Id>, i: nat, replacing: Id)
    requires i < |preferred|
    ensures var near := NearCandidates(nodes, previous, preferred[..i], replacing);
            && near <= nodes.Keys
            && NearCandidates(nodes, previous, preferred[..i + 1], replacing) ==
               if preferred[i] != replacing && preferred[i] in nodes then near + {preferred[i]} else near
  {
    assert preferred[..i + 1] == preferred[..i] + [preferred[i]];
  }

  ghost function Below(nodes: Nodes, cand: nat, replacing: Id): set<Id> {
    set x | x in nodes && x != replacing && x < cand
  }

  lemma BelowStep(nodes: Nodes, cand: Id, replacing: Id)
    ensures Below(nodes, cand, replacing) <= nodes.Keys
    ensures Below(nodes, cand + 1, replacing) ==
            if cand != replacing && cand in nodes then Below(nodes, cand, replacing) + {cand}
              else Below(nodes, cand, replacing)
  {
  }

  lemma BelowEnd(nodes: Nodes, highWater: nat, replacing: Id)
    requires Bounded(nodes, highWater)
    ensures Below(nodes, highWater, replacing) == nodes.Keys - {replacing}
  {
  }

  // No level is above the cap, so a node on the top level cannot be beaten.
  lemma TopLevelWins(nodes: Nodes, from: set<Id>, e: EntryPoint)
    requires ShapesOk(nodes) && e.id in from && e.id in nodes && nodes[e.id].level == e.level >= MAX_UPPER_LEVELS
    ensures IsElected(nodes, from, e)
  {
  }

  lemma DeleteKeeps(nodes: Nodes, id: Id, caps: Caps, highWater: nat)
    requires Bounded(nodes, highWater) && ListsOk(nodes, caps) && ShapesOk(nodes)
    ensures var after := nodes - {id};
            Bounded(after, highWater) && ListsOk(after, caps) && ShapesOk(after)
  {
    var after := nodes - {id};
    hide ListOk;
    forall u: Id, k: nat ensures ListOk(u, NeighborsAt(after, u, k), caps.At(k), caps.maxNodes) {
      assert ListOk(u, NeighborsAt(nodes, u, k), caps.At(k), caps.maxNodes);
      EmptyListOk(u, caps.At(k), caps.maxNodes);
    }
  }

  lemma DeleteEntry(
    nodes: Nodes, entry: Option<EntryPoint>, entry': Option<EntryPoint>, previous: Option<Id>, preferred: seq<Id>,
    id: Id)
    requires EntryOk(nodes, entry)
    requires if entry.Some? && entry.value.id == id then
               (entry'.None? <==> nodes.Keys <= {id})
               && (entry'.Some? ==> IsElected(nodes, Survivors(nodes, previous, preferred, id), entry'.value))
             else entry' == entry
    ensures EntryOk(nodes - {id}, entry')
  {
    assert (nodes - {id}).Keys == nodes.Keys - {id};
  }

  lemma EmptyListOk(u: Id, cap: nat, maxNodes: nat)
    ensures ListOk(u, [], cap, maxNodes)
  {
  }

  // The k nearest of `from`, as an exhaustive scan would list them: same length, same distances at
  // every position, whatever ranking the scan breaks ties by.
  ghost predicate BruteForce(hits: seq<Scored>, from: set<Id>, rank: Rank, k: nat) {
    && Ids(hits) <= from && IsRanking(hits, Ids(hits), rank)
    && forall all: seq<Scored> :: IsRanking(all, from, rank) ==>
         |hits| == Min(k, |all|) && forall i :: 0 <= i < |hits| ==> hits[i].dist == all[i].dist
  }

  lemma NothingLive(nodes: Nodes, filter: Filter, rank: Rank, k: nat)
    requires nodes.Keys == {}
    ensures BruteForce([], Admitted(filter, nodes.Keys), rank, k) && BruteForce([], Admitted(filter, {}), rank, k)
            && Ids([]) == {} && IsRanking([], Ids([]), rank)
  {
    EmptyRanking(rank);
    NoHits([]);
    assert Admitted(filter, nodes.Keys) == {} && Admitted(filter, {}) == {};
    forall all: seq<Scored> | IsRanking(all, {}, rank) ensures all == [] {
      NoHits(all);
    }
  }

  lemma LayerZero(nodes: Nodes)
    ensures ShapesOk(nodes) ==> LayerNodes(nodes, 0) == nodes.Keys
  {
  }

  lemma TruncateRanking(out: seq<Scored>, rank: Rank, k: nat)
    requires IsRanking(out, Ids(out), rank)
    ensures IsRanking(Truncate(out, k), Ids(Truncate(out, k)), rank) && Ids(Truncate(out, k)) <= Ids(out)
            && |Truncate(out, k)| <= k
  {
    var hits := Truncate(out, k);
    forall x | x in Ids(hits) ensures x in Ids(out) {
      var i :| 0 <= i < |hits| && hits[i].id == x;
      assert out[i].id == x;
    }
  }

  lemma HitsAdmitted(nodes: Nodes, filter: Filter, out: seq<Scored>, scored: set<Id>, width: nat, rank: Rank, k: nat)
    requires Nearest(Ids(out), Admitted(filter, scored), width, rank) && scored <= nodes.Keys
    requires Ids(Truncate(out, k)) <= Ids(out)
    ensures Ids(Truncate(out, k)) <= Admitted(filter, nodes.Keys)
  {
  }

  // On any graph the hits are the k nearest of the admitted nodes the beam scored.
  lemma BeamIsBruteForce(filter: Filter, ep: Id, out: seq<Scored>, scored: set<Id>, ef: nat, rank: Rank, k: nat)
    requires IsRanking(out, Ids(out), rank) && Nearest(Ids(out), Admitted(filter, scored), Width(ef, filter, ep), rank)
             && k <= ef
    ensures BruteForce(Truncate(out, k), Admitted(filter, scored), rank, k)
  {
    var from := Admitted(filter, scored);
    TruncateRanking(out, rank, k);
    forall all: seq<Scored> | IsRanking(all, from, rank)
      ensures var hits := Truncate(out, k);
              |hits| == Min(k, |all|) && forall i :: 0 <= i < |hits| ==> hits[i].dist == all[i].dist
    {
      NearestIsBruteForce(out, all, from, Width(ef, filter, ep), k, rank);
    }
  }

  // The admitted nodes within reach, when covered, are all in the result.
  lemma Exhaustive(nodes: Nodes, filter: Filter, look: Look, ef: nat, budget: nat, rank: Rank, k: nat)
    requires LookOk(nodes, 0, rank, ef, filter, look)
    requires filter.None? || |look.scored| <= budget ==> LookDone(nodes, 0, rank, ef, filter, look)
    ensures Exhausts(nodes, filter, look, Truncate(look.hits, k), ef, budget, rank, k)
  {
    LookMeans(nodes, 0, rank, ef, filter, look);
    if filter.None? || |look.scored| <= budget {
      DoneMeans(nodes, 0, rank, ef, filter, look);
    }
    hide LookOk, LookDone, BruteForce;
    forall reach: set<Id> | IsReach(nodes, 0, look.entry, reach) && Covers(filter, reach, ef, budget)
      ensures BruteForce(Truncate(look.hits, k), Admitted(filter, reach), rank, k) {
      CoveredIsFound(nodes, filter, look, ef, budget, rank, reach);
      WholeRanking(look.hits, Admitted(filter, reach), rank, k);
    }
  }

  lemma CoveredIsFound(
    nodes: Nodes, filter: Filter, look: Look, ef: nat, budget: nat, rank: Rank, reach: set<Id>)
    requires look.entry in look.scored && Confined(nodes, 0, look.entry, look.scored)
    requires IsRanking(look.hits, Ids(look.hits), rank)
    requires Nearest(Ids(look.hits), Admitted(filter, look.scored), Width(ef, filter, look.entry), rank)
    requires filter.None? || |look.scored| <= budget ==>
               (|look.hits| < Width(ef, filter, look.entry) ==> Closed(nodes, 0, look.scored))
    requires IsReach(nodes, 0, look.entry, reach) && Covers(filter, reach, ef, budget)
    ensures Ids(look.hits) == Admitted(filter, reach)
  {
    var (scored, found, width) := (look.scored, Ids(look.hits), Width(ef, filter, look.entry));
    assert scored <= reach;
    SubsetSize(scored, reach);
    IdsSize(look.hits);
    if |found| < width {
      assert reach <= scored;
    } else {
      SubsetSize(found, Admitted(filter, reach));
    }
  }

  // A ranking of all of `from`, cut to k, is its brute-force answer.
  lemma WholeRanking(out: seq<Scored>, from: set<Id>, rank: Rank, k: nat)
    requires IsRanking(out, Ids(out), rank) && Ids(out) == from
    ensures BruteForce(Truncate(out, k), from, rank, k)
  {
    TruncateRanking(out, rank, k);
    forall all: seq<Scored> | IsRanking(all, from, rank)
      ensures var hits := Truncate(out, k);
              |hits| == Min(k, |all|) && forall i :: 0 <= i < |hits| ==> hits[i].dist == all[i].dist
    {
      RankingUnique(out, all, from, rank);
    }
  }

  lemma KeptKeys(before: Nodes, after: Nodes, id: Id)
    requires OthersKept(before, after, id)
    ensures after.Keys == before.Keys + {id}
  {
  }

  // The entry after an insert: claimed when empty, promoted when the new node tops it.
  function EntryAfter(entry: Option<EntryPoint>, id: Id, level: nat): Option<EntryPoint> {
    if entry.None? || level > entry.value.level then Some(EntryPoint(id, level)) else entry
  }

  ghost predicate SomeListFull(nodes: Nodes, caps: Caps) {
    exists u, k: nat :: |NeighborsAt(nodes, u, k)| >= caps.At(k)
  }

  lemma BoundedHigher(nodes: Nodes, low: nat, high: nat)
    requires Bounded(nodes, low) && low <= high
    ensures Bounded(nodes, high)
  {
  }

  lemma FirstNode(before: Nodes, id: Id, level: nat, node: Node, caps: Caps, highWater: nat)
    requires before.Keys == {} && node.level == level <= MAX_UPPER_LEVELS && 1 <= |node.lists| <= level + 1
    requires forall k :: 0 <= k < |node.lists| ==> node.lists[k] == []
    requires id < highWater
    ensures before == map[]
    ensures ListsOk(before[id := node], caps) && ShapesOk(before[id := node]) && Bounded(before[id := node], highWater)
    ensures OthersKept(before, before[id := node], id)
  {
    var after := before[id := node];
    assert forall u, k :: NeighborsAt(after, u, k) == [];
  }

  lemma AllConnsShape(
    before: Nodes, now: Nodes, id: Id, connections: seq<seq<Scored>>, cuts: seq<set<Pair>>, limit: nat)
    requires SameShape(before, now) && AllConns(before, id, connections, cuts, limit)
    ensures AllConns(now, id, connections, cuts, limit)
  {
  }

  // The trace of a first node: nothing to connect to, nothing to link.
  ghost function FirstTrace(before: Nodes, id: Id, level: nat, node: Node): Trace {
    Trace(id, level, seq(level + 1, _ => []), seq(level + 1, _ => {}), before[id := node], [], Path(None, [], []))
  }

  lemma FirstInserted(before: Nodes, id: Id, level: nat, node: Node, upperOk: bool, cfg: Setting, guide: Guide)
    requires before == map[]
    requires node == Node(level, [[]] + if level > 0 && !upperOk then [] else seq(level, _ => []))
    ensures var trace := FirstTrace(before, id, level, node);
            InsertDone(before, before[id := node], None, id, level, trace, level > 0 && !upperOk, upperOk, cfg, guide)
  {
    var trace := FirstTrace(before, id, level, node);
    var after := before[id := node];
    LinkedNothing(after, id, cfg, trace.connections, level + 1);
    NoHits([]);
    assert AllConns(before, id, trace.connections, trace.cuts, 2 * cfg.m);
    assert EdgesAll(before, after, trace.cuts, id, Empties(level + 1)) by {
      assert forall u, k :: u != id ==> NeighborsAt(after, u, k) == NeighborsAt(before, u, k);
    }
    assert Prune.IdsOf([]) == [];
    assert ChosenBy(before, trace, cfg, guide) by {
      assert forall u, k: nat :: NeighborsAt(before, u, k) == Uncut(NeighborsAt(before, u, k), u, At(trace.cuts, k));
      assert forall u, k: nat :: u != id ==> NeighborsAt(after, u, k) == NeighborsAt(before, u, k);
    }
    assert WrittenLists(trace.connections, upperOk, cfg.layer0Cap) == node.lists;
    hide AllConns, EdgesAll, LinkedThrough;
  }

  // The new node is connected, chosen for and written, with no edge back to it yet.
  ghost predicate PlaceDone(
    before: Nodes, entry: Option<EntryPoint>, id: Id, level: nat, connections: seq<seq<Scored>>, placed: Trace,
    upperOk: bool, cfg: Setting, guide: Guide)
  {
    && placed.id == id && placed.level == level && placed.connections == connections && placed.links == []
    && placed.path.entry == entry
    && PlacedOk(before, placed, upperOk, cfg) && ChosenBy(before, placed, cfg, guide)
  }

  predicate Thins(placed: Trace, upperOk: bool, cfg: Setting) {
    |placed.connections| > 0 && Thin(placed.connections, upperOk, cfg.layer0Cap)
  }

  // In a linked graph every level was found something to connect to, and a node written whole has its edges in place.
  ghost predicate PlacedGood(before: Nodes, placed: Trace, degraded: bool) {
    && |placed.connections| == placed.level + 1 && AllFull(before, placed.connections)
    && (!degraded ==> LinkInv(before, placed.placed, placed.id, placed.level, placed.connections, placed.cuts,
                              Empties(placed.level + 1)))
  }

  lemma PlaceMade(
    before: Nodes, placed: Trace, degraded: bool, good: bool, e: EntryPoint, upperOk: bool, cfg: Setting, guide: Guide)
    requires placed.links == [] && placed.path.entry == Some(e) && |placed.connections| == placed.level + 1
    requires PlacedOk(before, placed, upperOk, cfg) && ChosenBy(before, placed, cfg, guide)
    requires degraded <==> Thin(placed.connections, upperOk, cfg.layer0Cap)
    requires good ==> AllFull(before, placed.connections)
    requires good && !degraded ==> StoredWhole(placed.placed, placed.id, placed.level, placed.connections)
    ensures PlaceDone(before, Some(e), placed.id, placed.level, placed.connections, placed, upperOk, cfg, guide)
    ensures degraded <==> Thins(placed, upperOk, cfg)
    ensures good ==> PlacedGood(before, placed, degraded)
  {
    hide ChosenBy, Thin, AllFull, StoredWhole;
    if good && !degraded {
      PublishLinks(before, placed.placed, placed.id, placed.level, placed.connections, placed.cuts, upperOk,
        placed.path,
        cfg);
    }
  }

  lemma PlaceMeans(
    before: Nodes, entry: Option<EntryPoint>, id: Id, level: nat, connections: seq<seq<Scored>>, placed: Trace,
    thin: bool, good: bool, upperOk: bool, cfg: Setting, guide: Guide)
    requires PlaceDone(before, entry, id, level, connections, placed, upperOk, cfg, guide)
    requires good ==> PlacedGood(before, placed, thin)
    requires thin <==> Thins(placed, upperOk, cfg)
    ensures |connections| == level + 1 && AllConns(before, id, connections, placed.cuts, 2 * cfg.m)
    ensures OthersKept(before, placed.placed, id) && id in placed.placed && placed.placed[id].level == level
    ensures good ==> AllFull(before, connections)
    ensures good && !thin ==>
              LinkInv(before, placed.placed, id, level, connections, placed.cuts, Empties(level + 1))
    ensures thin ==> (level > 0 && !upperOk) || 2 * cfg.m > cfg.layer0Cap || 2 * cfg.m > UPPER_CAP
  {
    if thin {
      ThinMeans(before, placed, upperOk, cfg);
    }
    hide ChosenBy, Thin, AllFull, LinkInv, AllConns;
  }

  // A whole insert: accounted for by its trace, its connections chosen as they should be, and degraded exactly when it
  // stored less than it wanted.
  ghost predicate InsertDone(
    before: Nodes, after: Nodes, entry: Option<EntryPoint>, id: Id, level: nat, trace: Trace, degraded: bool,
    upperOk: bool, cfg: Setting, guide: Guide)
  {
    && trace.id == id && trace.level == level && trace.path.entry == entry && |trace.connections| == level + 1
    && InsertedBy(before, after, trace, upperOk, cfg) && ChosenBy(before, trace, cfg, guide)
    && (degraded <==> Degrades(trace, upperOk, cfg))
  }

  lemma InsertMade(
    before: Nodes, after: Nodes, entry: Option<EntryPoint>, id: Id, level: nat, connections: seq<seq<Scored>>,
    placed: Trace, trace: Trace, thin: bool, dropped: bool, upperOk: bool, cfg: Setting, guide: Guide)
    requires PlaceDone(before, entry, id, level, connections, placed, upperOk, cfg, guide) && id !in before
    requires |connections| == level + 1 && trace == placed.(links := trace.links)
    requires LinkedThrough(placed.placed, trace.links, after, id, cfg, connections, level + 1, 0)
    requires (thin <==> Thins(placed, upperOk, cfg)) && (dropped <==> AnyOverflow(trace.links, id, cfg.caps))
    ensures InsertDone(before, after, entry, id, level, trace, thin || dropped, upperOk, cfg, guide)
  {
    hide ChosenBy, PlacedOk, LinkedThrough, Thin, AnyOverflow;
    ChosenAlike(before, placed, trace, cfg, guide);
    TraceDone(before, after, placed, trace, upperOk, cfg);
  }

  lemma DoneKeeps(
    before: Nodes, after: Nodes, entry: Option<EntryPoint>, id: Id, level: nat, trace: Trace, degraded: bool,
    upperOk: bool, cfg: Setting, guide: Guide)
    requires InsertDone(before, after, entry, id, level, trace, degraded, upperOk, cfg, guide)
    ensures OthersKept(before, after, id) && id in after && after[id].level == level
  {
    hide ChosenBy, Degrades;
    InsertedKeeps(before, after, trace, upperOk, cfg);
  }

  // The hint after an insert: the entry point it displaced.
  function PreviousAfter(entry: Option<EntryPoint>, previous: Option<Id>, level: nat): Option<Id> {
    if entry.Some? && level > entry.value.level then Some(entry.value.id) else previous
  }

  // The mark after an allocation: raised past a new id, and only then.
  function HighWaterAfter(highWater: nat, id: Option<Id>): nat {
    if id.Some? && id.value >= highWater then highWater + 1 else highWater
  }

  lemma HintIsLive(nodes: Nodes, maxNodes: nat, e: EntryPoint, id: Id, previous: Option<Id>, level: nat)
    requires e.id in nodes && e.id != id && e.id < maxNodes
    ensures Hint(nodes, maxNodes, Some(e), id)
    ensures PreviousAfter(Some(e), previous, level) == if level > e.level then Some(e.id) else previous
  {
  }

  lemma BoundedBelow(nodes: Nodes, maxNodes: nat, id: Id)
    requires Bounded(nodes, maxNodes) && id in nodes
    ensures id < maxNodes
  {
  }

  // Promoting over the entry point that was observed always goes through.
  lemma CrownedBy(entry: Option<EntryPoint>, level: nat, observed: Id)
    requires entry.Some? && entry.value.id == observed
    ensures !Yields(entry, level, observed)
  {
  }

  lemma Crowns(entry: Option<EntryPoint>, id: Id, level: nat)
    requires entry.Some?
    ensures EntryAfter(entry, id, level) == if level > entry.value.level then Some(EntryPoint(id, level)) else entry
  {
  }

  lemma ChosenPlaced(
    before: Nodes, mid: Nodes, after: Nodes, id: Id, level: nat, connections: seq<seq<Scored>>, cuts: seq<set<Pair>>,
    path: Path, cfg: Setting, guide: Guide)
    requires Chosen(before, mid, id, level, connections, cuts, path, cfg, guide)
    requires id in after && after == mid[id := after[id]]
    ensures ChosenBy(before, Trace(id, level, connections, cuts, after, [], path), cfg, guide)
  {
    hide Chosen;
    ChosenPublished(before, mid, id, after[id], level, connections, cuts, path, cfg, guide);
  }

  lemma ChosenAlike(before: Nodes, placed: Trace, trace: Trace, cfg: Setting, guide: Guide)
    requires ChosenBy(before, placed, cfg, guide) && trace.(links := placed.links) == placed
    ensures ChosenBy(before, trace, cfg, guide)
  {
  }

  // Publishing adds one node of the right shape.
  lemma PlacedBy(
    before: Nodes, mid: Nodes, after: Nodes, id: Id, level: nat, highWater: nat, connections: seq<seq<Scored>>,
    cuts: seq<set<Pair>>, path: Path, upperOk: bool, cfg: Setting)
    requires SameShape(before, mid) && id !in before && ShapesOk(before) && Bounded(before, highWater) && id < highWater
    requires |connections| == level + 1 && level <= MAX_UPPER_LEVELS
             && AllConns(before, id, connections, cuts, 2 * cfg.m)
    requires EdgesAll(before, mid, cuts, id, Empties(level + 1))
    requires after == mid[id := Node(level, WrittenLists(connections, upperOk, cfg.layer0Cap))]
    ensures PlacedOk(before, Trace(id, level, connections, cuts, after, [], path), upperOk, cfg)
    ensures ShapesOk(after) && Bounded(after, highWater)
  {
    EdgesAllPublish(before, mid, cuts, id, Empties(level + 1), after[id]);
    hide EdgesAll, AllConns;
  }

  lemma PublishLinks(
    before: Nodes, after: Nodes, id: Id, level: nat, connections: seq<seq<Scored>>, cuts: seq<set<Pair>>, upperOk: bool,
    path: Path, cfg: Setting)
    requires PlacedOk(before, Trace(id, level, connections, cuts, after, [], path), upperOk, cfg)
    requires |connections| == level + 1 && StoredWhole(after, id, level, connections)
    ensures LinkInv(before, after, id, level, connections, cuts, Empties(level + 1))
  {
  }

  lemma LinkedBackKept(before: Nodes, mid: Nodes, after: Nodes, id: Id, level: nat, highWater: nat)
    requires OthersKept(before, mid, id) && SameShape(mid, after) && mid[id].level == level
    requires ShapesOk(mid) && Bounded(mid, highWater)
    ensures OthersKept(before, after, id) && after[id].level == level
    ensures ShapesOk(after) && Bounded(after, highWater)
  {
  }

  lemma JoinLinked(
    before: Nodes, after: Nodes, entry: Option<EntryPoint>, entry': Option<EntryPoint>, id: Id, level: nat,
    connections: seq<seq<Scored>>, cuts: seq<set<Pair>>, limit: nat)
    requires LinkedState(before, entry) && entry.Some? && id !in before && |connections| == level + 1
    requires AllConns(before, id, connections, cuts, limit) && AllFull(before, connections)
    requires LinkInv(before, after, id, level, connections, cuts, AllIds(connections))
    requires entry' == EntryAfter(entry, id, level)
    ensures LinkedState(after, entry')
  {
    InsertLinked(before, after, entry, entry', id, level, connections, cuts, limit);
  }

  lemma JoinedValid(
    before: Nodes, after: Nodes, entry: Option<EntryPoint>, entry': Option<EntryPoint>, id: Id, level: nat)
    requires EntryOk(before, entry) && entry.Some? && OthersKept(before, after, id) && after[id].level == level
             && id !in before
    requires entry' == EntryAfter(entry, id, level)
    ensures EntryOk(after, entry')
  {
  }

  // The list that was full when the reverse edge came is one that was full before the insert.
  lemma FullBefore(
    before: Nodes, link: Link, id: Id, level: nat, connections: seq<seq<Scored>>, cuts: seq<set<Pair>>,
    limit: nat, dones: seq<set<Id>>, l: nat, j: nat, caps: Caps)
    requires |connections| == level + 1 && l < |connections| && j < |connections[l]|
    requires LinkInv(before, link.before, id, level, connections, cuts, dones) && DonesAt(connections, dones, l, j)
    requires AllConns(before, id, connections, cuts, limit)
    requires ListsOk(before, caps) && ListsOk(link.before, caps) && connections[l][j].id != id
    requires link.nid == connections[l][j].id && link.level == l && Overflows(link, id, caps)
    ensures SomeListFull(before, caps)
  {
    var now := link.before;
    var conns, nid := connections[l], connections[l][j].id;
    forall x | x in Ids(conns[..j]) ensures x != nid {
      var i :| 0 <= i < j && conns[..j][i].id == x;
      assert conns[i].id == x;
    }
    assert ConnsOk(before, id, conns, cuts[l], limit);
    var was, list := NeighborsAt(before, nid, l), NeighborsAt(now, nid, l);
    assert EdgesAre(before, now, l, At(cuts, l), id, At(dones, l));
    assert forall v :: v in list ==> v in was by {
      forall v | v in list ensures v in was {
        assert v in NeighborsAt(now, nid, l) <==> Edge(before, nid, v, l, At(cuts, l), id, At(dones, l));
      }
    }
    assert ListOk(nid, list, caps.At(l), caps.maxNodes) && ListOk(nid, was, caps.At(l), caps.maxNodes);
    SublistSize(list, was);
  }

  // Reverse edges made so far: `dones` per level; everything else as selection and the node write left it.
  ghost predicate LinkInv(
    before: Nodes, now: Nodes, id: Id, level: nat, connections: seq<seq<Scored>>, cuts: seq<set<Pair>>,
    dones: seq<set<Id>>)
    requires |connections| == level + 1
  {
    && EdgesAll(before, now, cuts, id, dones)
    && OthersKept(before, now, id)
    && StoredWhole(now, id, level, connections)
  }

  // Levels below `l` are linked back in full, level `l` up to position `j`, higher ones not at all.
  ghost predicate DonesAt(connections: seq<seq<Scored>>, dones: seq<set<Id>>, l: nat, j: nat) {
    && |dones| == |connections|
    && (forall k :: 0 <= k < |dones| && k < l ==> dones[k] == Ids(connections[k]))
    && (forall k :: l < k < |dones| ==> dones[k] == {})
    && (l < |dones| ==> j <= |connections[l]| && dones[l] == Ids(connections[l][..j]))
  }

  lemma DonesStart(connections: seq<seq<Scored>>, dones: seq<set<Id>>)
    requires |connections| > 0 && dones == Empties(|connections|)
    ensures DonesAt(connections, dones, 0, 0)
  {
    NoHits([]);
    assert connections[0][..0] == [];
  }

  lemma DonesStep(connections: seq<seq<Scored>>, dones: seq<set<Id>>, l: nat, j: nat)
    requires DonesAt(connections, dones, l, j) && l < |connections| && j < |connections[l]|
    ensures |dones| == |connections|
    ensures DonesAt(connections, dones[l := dones[l] + {connections[l][j].id}], l, j + 1)
  {
    var conns := connections[l];
    IdsConcat(conns[..j], [conns[j]]);
    IdsOne(conns[j]);
    assert conns[..j + 1] == conns[..j] + [conns[j]];
  }

  lemma DonesNext(connections: seq<seq<Scored>>, dones: seq<set<Id>>, l: nat)
    requires l < |connections| && DonesAt(connections, dones, l, |connections[l]|)
    ensures DonesAt(connections, dones, l + 1, 0)
  {
    assert connections[l][..|connections[l]|] == connections[l];
    NoHits([]);
    if l + 1 < |connections| {
      assert connections[l + 1][..0] == [];
    }
  }

  lemma DonesEnd(connections: seq<seq<Scored>>, dones: seq<set<Id>>, l: nat)
    requires l == |connections| && DonesAt(connections, dones, l, 0)
    ensures dones == AllIds(connections)
  {
  }

  lemma ConnIsOther(
    before: Nodes, id: Id, connections: seq<seq<Scored>>, cuts: seq<set<Pair>>, limit: nat, l: nat, j: nat)
    requires AllConns(before, id, connections, cuts, limit) && l < |connections| && j < |connections[l]|
    ensures connections[l][j].id != id
  {
    assert ConnsOk(before, id, connections[l], cuts[l], limit);
    assert connections[l][j].id in Ids(connections[l]);
  }

  // Part-way through the reverse edges: what they did so far, whether one overflowed, and, while none has and
  // the graph was linked to begin with, that exactly the neighbours reached so far name the new node.
  ghost predicate LinkLoop(
    before: Nodes, published: Nodes, now: Nodes, id: Id, level: nat, connections: seq<seq<Scored>>,
    cuts: seq<set<Pair>>,
    good: bool, cfg: Setting, links: seq<Link>, dropped: bool, dones: seq<set<Id>>, l: nat, j: nat)
  {
    && |connections| == level + 1 && l <= level + 1 && j <= (if l <= level then |connections[l]| else 0)
    && SameShape(published, now) && NeighborsAt(now, id, 0) == NeighborsAt(published, id, 0)
    && LinkedThrough(published, links, now, id, cfg, connections, l, j)
    && (dropped <==> AnyOverflow(links, id, cfg.caps))
    && DonesAt(connections, dones, l, j)
    && (good && !dropped ==> LinkInv(before, now, id, level, connections, cuts, dones))
    && (good && dropped ==> SomeListFull(before, cfg.caps))
  }

  lemma LinkLoopStart(
    before: Nodes, now: Nodes, id: Id, level: nat, connections: seq<seq<Scored>>, cuts: seq<set<Pair>>, good: bool,
    cfg: Setting)
    requires |connections| == level + 1
    requires good ==> LinkInv(before, now, id, level, connections, cuts, Empties(level + 1))
    ensures LinkLoop(before, now, now, id, level, connections, cuts, good, cfg, [], false, Empties(level + 1), 0, 0)
  {
    SameShapeRefl(now);
    LinkedStart(now, id, cfg, connections);
    DonesStart(connections, Empties(level + 1));
    hide SameShape, LinkedThrough, DonesAt, LinkInv, NeighborsAt, Empties;
  }

  lemma LinkLoopStep(
    before: Nodes, published: Nodes, link: Link, id: Id, level: nat, connections: seq<seq<Scored>>,
    cuts: seq<set<Pair>>,
    good: bool, cfg: Setting, links: seq<Link>, dropped: bool, dones: seq<set<Id>>, l: nat, j: nat)
    requires l <= level && |connections| == level + 1 && j < |connections[l]| && id !in before
    requires LinkLoop(before, published, link.before, id, level, connections, cuts, good, cfg, links, dropped, dones, l,
             j)
    requires link.nid == connections[l][j].id && link.level == l && link.nid != id && LinkOk(link, id, cfg)
    requires AllConns(before, id, connections, cuts, 2 * cfg.m)
    requires SameShape(link.before, link.after) && ListsOk(link.before, cfg.caps)
    requires NeighborsAt(link.after, id, 0) == NeighborsAt(link.before, id, 0)
    requires cfg.caps.layer0 == cfg.layer0Cap && cfg.caps.upper == Min(2 * cfg.m, UPPER_CAP)
    requires good ==> AllLayersLinked(before) && AllFull(before, connections) && ListsOk(before, cfg.caps)
    ensures |dones| == |connections|
    ensures LinkLoop(before, published, link.after, id, level, connections, cuts, good, cfg, links + [link],
                     dropped || Overflows(link, id, cfg.caps), dones[l := dones[l] + {link.nid}], l, j + 1)
  {
    hide SameShape, ListsOk, LinkedThrough, DonesAt, LinkInv, NeighborsAt, LinkOk, Overflows, AnyOverflow;
    hide AllConns, AllLayersLinked, AllFull, SomeListFull;
    if good && !dropped {
      if Overflows(link, id, cfg.caps) {
        FullBefore(before, link, id, level, connections, cuts, 2 * cfg.m, dones, l, j, cfg.caps);
      } else {
        LinkStep(before, link, id, level, connections, cuts, 2 * cfg.m, dones, l, j, cfg);
      }
    }
    LinkedOnce(published, links, link, id, cfg, connections, l, j);
    AnyOverflowSnoc(links, link, id, cfg.caps);
    ShapeTransitive(published, link.before, link.after);
    DonesStep(connections, dones, l, j);
  }

  lemma LinkLoopNext(
    before: Nodes, published: Nodes, now: Nodes, id: Id, level: nat, connections: seq<seq<Scored>>,
    cuts: seq<set<Pair>>,
    good: bool, cfg: Setting, links: seq<Link>, dropped: bool, dones: seq<set<Id>>, l: nat)
    requires l <= level && |connections| == level + 1
    requires LinkLoop(before, published, now, id, level, connections, cuts, good, cfg, links, dropped, dones, l,
             |connections[l]|)
    ensures LinkLoop(before, published, now, id, level, connections, cuts, good, cfg, links, dropped, dones, l + 1, 0)
  {
    hide SameShape, LinkedThrough, DonesAt, LinkInv, NeighborsAt, AnyOverflow, SomeListFull;
    LinkedLevel(published, links, now, id, cfg, connections, l);
    DonesNext(connections, dones, l);
  }

  lemma LinkLoopEnd(
    before: Nodes, published: Nodes, now: Nodes, id: Id, level: nat, connections: seq<seq<Scored>>,
    cuts: seq<set<Pair>>,
    good: bool, cfg: Setting, links: seq<Link>, dropped: bool, dones: seq<set<Id>>, l: nat)
    requires l == level + 1
    requires LinkLoop(before, published, now, id, level, connections, cuts, good, cfg, links, dropped, dones, l, 0)
    ensures |connections| == level + 1 && SameShape(published, now)
            && NeighborsAt(now, id, 0) == NeighborsAt(published, id, 0)
    ensures LinkedThrough(published, links, now, id, cfg, connections, level + 1, 0)
    ensures dropped <==> AnyOverflow(links, id, cfg.caps)
    ensures good && !dropped ==> LinkInv(before, now, id, level, connections, cuts, AllIds(connections))
    ensures good && dropped ==> SomeListFull(before, cfg.caps)
  {
    DonesEnd(connections, dones, l);
    hide SameShape, LinkedThrough, DonesAt, LinkInv, NeighborsAt, AnyOverflow, SomeListFull;
  }

  // One reverse edge: the neighbour is in the layer and does not name the new node yet.
  lemma LinkStep(
    before: Nodes, link: Link, id: Id, level: nat, connections: seq<seq<Scored>>, cuts: seq<set<Pair>>, limit: nat,
    dones: seq<set<Id>>, l: nat, j: nat, cfg: Setting)
    requires |connections| == level + 1 && l <= level && j < |connections[l]|
    requires LinkInv(before, link.before, id, level, connections, cuts, dones) && DonesAt(connections, dones, l, j)
    requires AllConns(before, id, connections, cuts, limit) && AllFull(before, connections) && AllLayersLinked(before)
    requires id !in before && link.nid == connections[l][j].id && link.level == l
    requires LinkOk(link, id, cfg) && !Overflows(link, id, cfg.caps)
    requires cfg.caps.layer0 == cfg.layer0Cap && cfg.caps.upper == Min(2 * cfg.m, UPPER_CAP)
    ensures LinkInv(before, link.after, id, level, connections, cuts, dones[l := dones[l] + {link.nid}])
  {
    var (now, nid) := (link.before, link.nid);
    ReverseFresh(before, now, id, connections, cuts, limit, dones, l, j);
    LinkAppends(link, id, cfg);
    EdgesAllLink(before, now, cuts, id, dones, l, nid);
    hide EdgesAll, NeighborsAt, SetList, AllLayersLinked, AllFull, AllConns, DonesAt, Ids, LinkOk, Overflows;
  }

  lemma ReverseFresh(
    before: Nodes, now: Nodes, id: Id, connections: seq<seq<Scored>>, cuts: seq<set<Pair>>, limit: nat,
    dones: seq<set<Id>>, l: nat, j: nat)
    requires l < |connections| && j < |connections[l]|
    requires EdgesAll(before, now, cuts, id, dones) && OthersKept(before, now, id) && DonesAt(connections, dones, l, j)
    requires AllConns(before, id, connections, cuts, limit) && AllFull(before, connections) && AllLayersLinked(before)
    requires id !in before
    ensures var nid := connections[l][j].id;
            nid != id && nid in LayerNodes(now, l) && id !in NeighborsAt(now, nid, l)
  {
    var conns := connections[l];
    var nid := conns[j].id;
    assert ConnsOk(before, id, conns, cuts[l], limit) && ConnsFull(before, l, conns);
    assert nid in Ids(conns);
    OthersKeptLayers(before, now, id, l);
    forall x | x in Ids(conns[..j]) ensures x != nid {
      var i :| 0 <= i < j && conns[..j][i].id == x;
      assert conns[i].id == x;
    }
    hide NeighborsAt, LayerNodes, Connected;
    assert EdgesAre(before, now, l, At(cuts, l), id, At(dones, l));
    assert id in NeighborsAt(now, nid, l) <==> Edge(before, nid, id, l, At(cuts, l), id, At(dones, l));
    assert Symmetric(before, l);
    LayerMember(before, l, id);
  }

  // Between two levels of the loop: levels above `l` are settled, those from `l` down untouched.
  ghost predicate ConnectInv(
    before: Nodes, now: Nodes, id: Id, level: nat, connections: seq<seq<Scored>>, cuts: seq<set<Pair>>, limit: nat,
    linked: bool, top: nat, l: int)
  {
    && top <= level && l <= top && |connections| == level + 1 && AllConns(before, id, connections, cuts, limit)
    && EdgesAll(before, now, cuts, id, Empties(level + 1))
    && (forall u, k: nat :: k <= l ==> NeighborsAt(now, u, k) == NeighborsAt(before, u, k))
    && (forall k :: 0 <= k <= level && (k <= l || k > top) ==> connections[k] == [] && cuts[k] == {})
    && (forall k :: 0 <= k && l < k <= top ==> (connections[k] == [] <==> limit == 0))
    && (linked ==> forall k :: 0 <= k <= level ==> Ids(connections[k]) <= LayerNodes(before, k))
    && (linked ==> AllLayersLinked(before))
  }

  ghost predicate LinkedFrom(nodes: Nodes, e: EntryPoint) {
    LinkedState(nodes, Some(e)) && e.id in nodes && e.level == nodes[e.id].level
  }

  lemma LevelsShared(a: nat, b: nat)
    ensures Min(a, b) <= a && Min(a, b) <= b
  {
  }

  // In a linked graph the entry point sits in its own top layer and every layer is closed.
  lemma LinkedLayers(nodes: Nodes, e: EntryPoint)
    ensures LinkedFrom(nodes, e) ==>
              LayersClosed(nodes) && e.id in LayerNodes(nodes, e.level) && AllLayersLinked(nodes)
  {
    if LinkedFrom(nodes, e) {
      forall k: nat ensures Closed(nodes, k, LayerNodes(nodes, k)) {
        LayerClosed(nodes, k);
      }
    }
  }

  lemma ConnectStart(
    nodes: Nodes, id: Id, level: nat, connections: seq<seq<Scored>>, cuts: seq<set<Pair>>, limit: nat, linked: bool,
    top: nat)
    requires connections == seq(level + 1, _ => []) && cuts == seq(level + 1, _ => {}) && top <= level
    requires linked ==> AllLayersLinked(nodes)
    ensures ConnectInv(nodes, nodes, id, level, connections, cuts, limit, linked, top, top) && SameShape(nodes, nodes)
  {
    EdgesAllStart(nodes, cuts, id, Empties(level + 1));
    NoHits([]);
    assert AllConns(nodes, id, connections, cuts, limit);
    hide AllLayersLinked, EdgesAll, AllConns;
  }

  lemma ConnectBelow(
    before: Nodes, now: Nodes, id: Id, level: nat, connections: seq<seq<Scored>>, cuts: seq<set<Pair>>, limit: nat,
    linked: bool, top: nat, l: nat)
    requires ConnectInv(before, now, id, level, connections, cuts, limit, linked, top, l) && SameShape(before, now)
    ensures |connections| == level + 1 && |cuts| == level + 1 && l <= level
    ensures LayerNodes(now, l) == LayerNodes(before, l)
    ensures linked ==> Closed(now, l, LayerNodes(now, l))
  {
    hide EdgesAll, ConnsOk;
    if linked {
      LayerClosed(before, l);
    }
  }

  lemma ConnectStep(
    before: Nodes, mid: Nodes, now: Nodes, id: Id, level: nat, connections: seq<seq<Scored>>, cuts: seq<set<Pair>>,
    limit: nat,
    linked: bool, top: nat, l: nat, conns: seq<Scored>, cut: set<Pair>)
    requires ConnectInv(before, mid, id, level, connections, cuts, limit, linked, top, l)
    requires SameShape(before, mid)
    requires EdgesAre(mid, now, l, cut, id, {})
    requires forall u, k :: k != l ==> NeighborsAt(now, u, k) == NeighborsAt(mid, u, k)
    requires ConnsOk(mid, id, conns, cut, limit) && (conns == [] <==> limit == 0)
    requires linked ==> Ids(conns) <= LayerNodes(mid, l)
    ensures ConnectInv(before, now, id, level, connections[l := conns], cuts[l := cut], limit, linked, top, l - 1)
  {
    EdgesAllCut(before, mid, now, cuts, id, Empties(level + 1), l, cut);
    ShapeLayers(before, mid, l);
    ShapeKeys(before, mid, 0);
    hide EdgesAll, EdgesAre, LayerNodes, NeighborsAt, AllLayersLinked, Ids, DistinctIds, CutWithin;
  }

  lemma ConnectEnd(
    before: Nodes, now: Nodes, id: Id, level: nat, connections: seq<seq<Scored>>, cuts: seq<set<Pair>>, limit: nat,
    linked: bool, top: nat, e: EntryPoint)
    requires ConnectInv(before, now, id, level, connections, cuts, limit, linked, top, -1)
    requires linked ==> LinkedFrom(before, e)
    requires top == Min(level, e.level)
    ensures |connections| == level + 1 && AllConns(before, id, connections, cuts, limit)
    ensures EdgesAll(before, now, cuts, id, Empties(level + 1))
    ensures connections[0] == [] <==> limit == 0
    ensures linked && limit > 0 ==> AllFull(before, connections)
  {
    hide EdgesAll, AllConns, AllLayersLinked, LayerNodes, NeighborsAt;
    if linked && limit > 0 {
      forall k | 0 <= k < |connections| ensures ConnsFull(before, k, connections[k]) {
        if k > top {
          AboveAll(before, Some(e), k);
        }
      }
    }
  }

  lemma SameShapeRefl(nodes: Nodes)
    ensures SameShape(nodes, nodes)
  {
  }

  lemma ReverseListOk(nodes: Nodes, nid: Id, id: Id, level: nat, caps: Caps, snapshot: seq<Id>)
    requires ListsOk(nodes, caps) && snapshot == NeighborsAt(nodes, nid, level) && id !in snapshot && nid != id
             && id < caps.maxNodes
    ensures ListOk(nid, snapshot + [id], caps.At(level) + 1, caps.maxNodes)
  {
    assert ListOk(nid, snapshot, caps.At(level), caps.maxNodes);
  }

  lemma PartListOk(owner: Id, whole: seq<Id>, part: seq<Id>, caps: Caps, level: nat)
    requires ListOk(owner, whole, caps.At(level) + 1, caps.maxNodes)
    requires NoDup(part) && |part| <= caps.At(level) && forall x :: x in part ==> x in whole
    ensures ListOk(owner, part, caps.At(level), caps.maxNodes)
  {
  }

  // Ids of distinct hits, cut to a capacity, make a well-formed list.
  lemma ConnListOk(nodes: Nodes, id: Id, conns: seq<Scored>, cut: set<Pair>, limit: nat, cap: nat, maxNodes: nat)
    requires ConnsOk(nodes, id, conns, cut, limit) && Bounded(nodes, maxNodes)
    ensures ListOk(id, Truncate(Prune.IdsOf(conns), cap), Min(limit, cap), maxNodes)
    ensures forall v :: v in Prune.IdsOf(conns) <==> v in Ids(conns)
  {
    var ids := Prune.IdsOf(conns);
    forall i | 0 <= i < |ids| ensures ids[i] in Ids(conns) {
      assert conns[i].id in Ids(conns);
    }
    forall v | v in Ids(conns) ensures v in ids {
      var i :| 0 <= i < |conns| && conns[i].id == v;
      assert ids[i] == v;
    }
  }

  lemma PublishOk(
    before: Nodes, after: Nodes, id: Id, level: nat, connections: seq<seq<Scored>>, cuts: seq<set<Pair>>, m: nat,
    caps: Caps,
    lists: seq<seq<Id>>, upper: seq<seq<Id>>)
    requires |connections| == level + 1 && AllConns(before, id, connections, cuts, 2 * m) && id !in before
    requires ListsOk(before, caps) && Bounded(before, caps.maxNodes) && caps.upper == Min(2 * m, UPPER_CAP)
    requires upper == (if level > 0 && |upper| > 0 then UpperLists(connections) else [])
    requires lists == [Truncate(Prune.IdsOf(connections[0]), caps.layer0)] + upper
    requires after == before[id := Node(level, lists)]
    ensures ListsOk(after, caps)
  {
    hide ListOk, ConnsOk;
    forall u: Id, k: nat ensures ListOk(u, NeighborsAt(after, u, k), caps.At(k), caps.maxNodes) {
      assert ListOk(u, NeighborsAt(before, u, k), caps.At(k), caps.maxNodes);
      if u == id && k < |lists| {
        ConnListOk(before, id, connections[k], cuts[k], 2 * m, if k == 0 then caps.layer0
          else UPPER_CAP, caps.maxNodes);
        ListOkWider(id, lists[k], if k == 0 then Min(2 * m, caps.layer0)
          else Min(2 * m, UPPER_CAP), caps.At(k), caps.maxNodes);
      }
    }
  }

  lemma ListOkWider(owner: Id, list: seq<Id>, cap: nat, wider: nat, maxNodes: nat)
    requires ListOk(owner, list, cap, maxNodes) && cap <= wider
    ensures ListOk(owner, list, wider, maxNodes)
  {
  }

  lemma PublishWhole(
    after: Nodes, id: Id, level: nat, connections: seq<seq<Scored>>, layer0Cap: nat, lists: seq<seq<Id>>,
    upper: seq<seq<Id>>)
    requires |connections| == level + 1 && id in after && after[id] == Node(level, lists)
    requires lists == [Truncate(Prune.IdsOf(connections[0]), layer0Cap)] + upper
    requires upper == (if level > 0 then UpperLists(connections) else [])
    requires |connections[0]| <= layer0Cap && forall k :: 0 < k <= level ==> |connections[k]| <= UPPER_CAP
    ensures StoredWhole(after, id, level, connections)
  {
    forall k, v | 0 <= k <= level ensures v in NeighborsAt(after, id, k) <==> v in Ids(connections[k]) {
      assert NeighborsAt(after, id, k) == Prune.IdsOf(connections[k]);
      IdsOfMembers(connections[k], v);
    }
  }

  lemma IdsOfMembers(conns: seq<Scored>, v: Id)
    ensures v in Prune.IdsOf(conns) <==> v in Ids(conns)
  {
    var ids := Prune.IdsOf(conns);
    if v in ids {
      var i :| 0 <= i < |ids| && ids[i] == v;
      assert conns[i].id == v;
    }
    if v in Ids(conns) {
      var i :| 0 <= i < |conns| && conns[i].id == v;
      assert ids[i] == v;
    }
  }

  lemma ShapeKeys(a: Nodes, b: Nodes, maxNodes: nat)
    requires SameShape(a, b)
    ensures a.Keys == b.Keys && (Bounded(a, maxNodes) <==> Bounded(b, maxNodes))
  {
  }

  lemma WithinLimit(nodes: Nodes, id: Id, conns: seq<Scored>, cut: set<Pair>, a: nat, b: nat)
    requires ConnsOk(nodes, id, conns, cut, a) && a <= b
    ensures ConnsOk(nodes, id, conns, cut, b) && (b == 0 ==> conns == [])
  {
  }

  lemma BestInLayer(nodes: Nodes, neighbors: seq<Scored>, level: nat)
    ensures neighbors != [] ==> neighbors[0].id in Ids(neighbors)
  {
  }

  // The candidates a selection works on: live, distinct, at most `limit`, and never none unless the limit is 0.
  lemma BeamHits(
    nodes: Nodes, rank: Rank, ep: Id, level: nat, width: nat, hits: seq<Scored>, scored: set<Id>, limit: nat)
    requires IsRanking(hits, Ids(hits), rank) && Nearest(Ids(hits), Admitted(None, scored), width, rank) && width > 0
    requires ep in scored && scored <= nodes.Keys && Confined(nodes, level, ep, scored)
    ensures var neighbors := Truncate(hits, limit);
            && DistinctIds(neighbors) && |neighbors| <= limit && Ids(neighbors) <= nodes.Keys
            && (neighbors == [] <==> limit == 0)
            && (Closed(nodes, level, LayerNodes(nodes, level)) && ep in LayerNodes(nodes, level) ==>
                  Ids(neighbors) <= LayerNodes(nodes, level))
  {
    assert Admitted(None, scored) == scored;
    IdsSize(hits);
    var neighbors := Truncate(hits, limit);
    forall x | x in Ids(neighbors) ensures x in Ids(hits) {
      var i :| 0 <= i < |neighbors| && neighbors[i].id == x;
      assert hits[i].id == x;
    }
  }

  lemma StoredSame(a: Nodes, b: Nodes, between: Between)
    requires a.Keys == b.Keys
    ensures Stored(a, between) == Stored(b, between)
  {
  }

  // Part-way through the selection: the first `i` candidates considered.
  ghost predicate Selecting(
    before: Nodes, now: Nodes, level: nat, id: Id, neighbors: seq<Scored>, i: nat, conns: seq<Scored>, cut: set<Pair>,
    optimizeRouting: real, m: nat, between: (Id, Id) -> Option<real>, caps: Caps)
  {
    && i <= |neighbors| && (m > 0 || neighbors == [])
    && DistinctIds(neighbors) && Ids(neighbors) <= before.Keys && id !in before && ListsOk(before, caps)
    && SameShape(before, now) && ListsOk(now, caps) && EdgesAre(before, now, level, cut, id, {})
    && ListsCut(before, now, level, cut) && ConnsOk(before, id, conns, cut, i)
    && Ids(conns) <= Ids(neighbors[..i]) && (i > 0 ==> conns != [])
    && Selected(before, level, neighbors[..i], optimizeRouting, m, between) == Choice(conns, cut)
  }

  lemma SelectingStart(
    nodes: Nodes, level: nat, id: Id, neighbors: seq<Scored>, optimizeRouting: real, m: nat,
    between: (Id, Id) -> Option<real>, caps: Caps)
    requires DistinctIds(neighbors) && Ids(neighbors) <= nodes.Keys && id !in nodes && ListsOk(nodes, caps)
    requires m > 0 || neighbors == []
    ensures Selecting(nodes, nodes, level, id, neighbors, 0, [], {}, optimizeRouting, m, between, caps)
  {
    ListsCutStart(nodes, level);
    assert neighbors[..0] == [];
    NoHits([]);
    assert EdgesAre(nodes, nodes, level, {}, id, {}) && SameShape(nodes, nodes);
    hide ListsOk, NeighborsAt;
  }

  lemma SelectingMeans(
    before: Nodes, now: Nodes, level: nat, id: Id, neighbors: seq<Scored>, i: nat, conns: seq<Scored>, cut: set<Pair>,
    optimizeRouting: real, m: nat, between: (Id, Id) -> Option<real>, caps: Caps)
    requires Selecting(before, now, level, id, neighbors, i, conns, cut, optimizeRouting, m, between, caps)
             && i < |neighbors|
    ensures SameShape(before, now) && ListsOk(now, caps) && EdgesAre(before, now, level, cut, id, {})
    ensures ListsCut(before, now, level, cut) && ConnsOk(before, id, conns, cut, i) && ListsOk(before, caps)
    ensures Ids(conns) <= Ids(neighbors[..i]) && before.Keys == now.Keys && m > 0 && (i > 0 ==> conns != [])
    ensures Selected(before, level, neighbors[..i], optimizeRouting, m, between) == Choice(conns, cut)
    ensures NeighborsAt(now, neighbors[i].id, level) ==
            Uncut(NeighborsAt(before, neighbors[i].id, level), neighbors[i].id, cut)
    ensures neighbors[i].id in before && neighbors[i].id != id && neighbors[i].id !in Ids(conns)
    ensures DistinctIds(conns) && id !in Ids(conns) + {neighbors[i].id}
  {
    FreshCandidate(before, neighbors, i, id, conns, cut);
    hide ListsOk, NeighborsAt, Uncut, EdgesAre, Selected, Ids;
  }

  lemma SelectingMade(
    before: Nodes, now: Nodes, level: nat, id: Id, neighbors: seq<Scored>, i: nat, conns: seq<Scored>, cut: set<Pair>,
    optimizeRouting: real, m: nat, between: (Id, Id) -> Option<real>, caps: Caps)
    requires 0 < i <= |neighbors| && m > 0 && conns != []
    requires DistinctIds(neighbors) && Ids(neighbors) <= before.Keys && id !in before && ListsOk(before, caps)
    requires SameShape(before, now) && ListsOk(now, caps) && EdgesAre(before, now, level, cut, id, {})
    requires ListsCut(before, now, level, cut) && ConnsOk(before, id, conns, cut, i)
    requires Ids(conns) <= Ids(neighbors[..i])
    requires Selected(before, level, neighbors[..i], optimizeRouting, m, between) == Choice(conns, cut)
    ensures Selecting(before, now, level, id, neighbors, i, conns, cut, optimizeRouting, m, between, caps)
  {
  }

  lemma SelectingEnd(
    before: Nodes, now: Nodes, level: nat, id: Id, neighbors: seq<Scored>, conns: seq<Scored>, cut: set<Pair>,
    optimizeRouting: real, m: nat, between: (Id, Id) -> Option<real>, caps: Caps)
    requires Selecting(before, now, level, id, neighbors, |neighbors|, conns, cut, optimizeRouting, m, between, caps)
    ensures SameShape(before, now) && ListsOk(now, caps) && EdgesAre(before, now, level, cut, id, {})
    ensures ListsCut(before, now, level, cut) && ConnsOk(before, id, conns, cut, |neighbors|)
    ensures Ids(conns) <= Ids(neighbors) && (neighbors != [] ==> conns != [])
    ensures m > 0 || neighbors == []
    ensures Selected(before, level, neighbors, optimizeRouting, m, between) == Choice(conns, cut)
  {
    assert neighbors[..|neighbors|] == neighbors;
  }

  // What a turn decides is what the specification's step decides.
  ghost predicate Decided(
    nbuf: seq<Id>, conns: seq<Scored>, hit: Scored, i: nat, level: nat, optimizeRouting: real, m: nat,
    between: (Id, Id) -> Option<real>, skipping: bool, replaced: set<Pair>)
    requires m > 0
  {
    && (skipping <==> Skips(nbuf, conns, hit, i, level, optimizeRouting, m, between))
    && (!skipping ==> replaced == CutFor(nbuf, conns, hit, optimizeRouting, m, between))
  }

  // One turn of the selection loop is one candidate considered.
  lemma SelectStep(
    before: Nodes, level: nat, neighbors: seq<Scored>, i: nat, so: Choice, optimizeRouting: real, m: nat,
    between: (Id, Id) -> Option<real>, skipping: bool, replaced: set<Pair>)
    requires m > 0 && i < |neighbors|
    requires Selected(before, level, neighbors[..i], optimizeRouting, m, between) == so
    requires Decided(Uncut(NeighborsAt(before, neighbors[i].id, level), neighbors[i].id, so.cut), so.conns,
             neighbors[i],
             i, level, optimizeRouting, m, between, skipping, replaced)
    ensures Selected(before, level, neighbors[..i + 1], optimizeRouting, m, between) ==
            if skipping then so else Choice(so.conns + [neighbors[i]], so.cut + replaced)
    ensures !skipping || so.conns != [] || i > 0
  {
    var hit := neighbors[i];
    assert neighbors[..i + 1][..i] == neighbors[..i] && neighbors[..i + 1][i] == hit;
    hide SkipAt, Uncut, CutNames, CutFor;
    assert Selected(before, level, neighbors[..i + 1], optimizeRouting, m, between) ==
           Considered(before, level, so, hit, i, optimizeRouting, m, between);
    if i == 0 {
      assert neighbors[..0] == [];
      FirstIsTaken(Uncut(NeighborsAt(before, hit.id, level), hit.id, so.cut), so, hit, level, optimizeRouting, m,
        between);
    }
  }

  lemma ScannedRight(
    hit: Scored, nbuf: seq<Id>, i: nat, level: nat, conns: seq<Scored>, optimizeRouting: real, m: nat,
    between: (Id, Id) -> Option<real>, skipping: bool, replaced: set<Pair>)
    requires m > 0 && optimizeRouting > 0.0
    requires skipping <==> exists j: nat ::
               SkipAt(nbuf, conns, hit.id, hit.dist, Threshold(optimizeRouting, i, m), between, j)
    requires !skipping ==>
               replaced == CutFor(nbuf, conns, Scored(hit.id, hit.dist), optimizeRouting, m, between)
    ensures Decided(nbuf, conns, hit, i, level, optimizeRouting, m, between, skipping, replaced)
  {
    hide SkipAt, CutFor;
    assert hit == Scored(hit.id, hit.dist);
  }

  lemma PlainRight(
    before: Nodes, hit: Scored, i: nat, level: nat, conns: seq<Scored>, cut: set<Pair>, optimizeRouting: real, m: nat,
    between: (Id, Id) -> Option<real>, skipping: bool)
    requires m > 0 && optimizeRouting <= 0.0 && (skipping <==> i >= if level > 0 then m else 2 * m)
    ensures Decided(Uncut(NeighborsAt(before, hit.id, level), hit.id, cut), conns, hit, i, level, optimizeRouting, m,
            between, skipping, Elems([]))
    ensures CutWithin(Elems([]), Ids(conns) + {hit.id})
  {
    EmptyCut(Ids(conns) + {hit.id});
    assert Elems<Pair>([]) == {};
  }

  lemma LevelIsChosen(
    nodes: Nodes, level: nat, look: Look, conns: seq<Scored>, cut: set<Pair>, m: nat, between: Between, guide: Guide)
    requires LookOk(nodes, level, guide.rank, guide.efConstruction, None, look)
    requires LookDone(nodes, level, guide.rank, guide.efConstruction, None, look)
    requires Selected(nodes, level, Truncate(look.hits, 2 * m), guide.optimizeRouting, m, Stored(nodes, between)) ==
             Choice(conns, cut)
    ensures LevelChosen(nodes, level, look, conns, cut, m, between, guide)
    ensures NextEntry(look, m) ==
            if Truncate(look.hits, 2 * m) != [] then Truncate(look.hits, 2 * m)[0].id else look.entry
  {
  }

  // A candidate is live, is not the new node and was not taken before.
  lemma FreshCandidate(before: Nodes, neighbors: seq<Scored>, i: nat, id: Id, conns: seq<Scored>, cut: set<Pair>)
    requires DistinctIds(neighbors) && i < |neighbors| && Ids(neighbors) <= before.Keys && id !in before
    requires Ids(conns) <= Ids(neighbors[..i]) && ConnsOk(before, id, conns, cut, i)
    ensures neighbors[i].id in before && neighbors[i].id != id && neighbors[i].id !in Ids(conns)
    ensures DistinctIds(conns) && id !in Ids(conns) + {neighbors[i].id}
  {
    assert neighbors[i].id in Ids(neighbors);
    forall x | x in Ids(neighbors[..i]) ensures x != neighbors[i].id {
      var j :| 0 <= j < i && neighbors[..i][j].id == x;
      assert neighbors[j].id == x;
    }
  }

  lemma TakeCandidate(
    before: Nodes, neighbors: seq<Scored>, i: nat, id: Id, conns: seq<Scored>, cut: set<Pair>, replaced: set<Pair>)
    requires i < |neighbors| && ConnsOk(before, id, conns, cut, i) && Ids(conns) <= Ids(neighbors[..i])
    requires neighbors[i].id in before && neighbors[i].id != id && neighbors[i].id !in Ids(conns)
    requires CutWithin(replaced, Ids(conns) + {neighbors[i].id})
    ensures ConnsOk(before, id, conns + [neighbors[i]], cut + replaced, i + 1)
    ensures Ids(conns + [neighbors[i]]) == Ids(conns) + {neighbors[i].id}
    ensures Ids(conns + [neighbors[i]]) <= Ids(neighbors[..i + 1])
  {
    var hit := neighbors[i];
    IdsConcat(conns, [hit]);
    IdsOne(hit);
    IdsConcat(neighbors[..i], [hit]);
    assert neighbors[..i + 1] == neighbors[..i] + [hit];
    DistinctSnoc(conns, hit);
    CutWider(cut, Ids(conns), Ids(conns) + {hit.id});
    hide Ids, DistinctIds;
  }

  lemma DistinctSnoc(s: seq<Scored>, h: Scored)
    requires DistinctIds(s) && h.id !in Ids(s)
    ensures DistinctIds(s + [h])
  {
    forall i | 0 <= i < |s| ensures s[i].id != h.id {
      assert s[i].id in Ids(s);
    }
  }

  lemma SkipCandidate(before: Nodes, neighbors: seq<Scored>, i: nat, id: Id, conns: seq<Scored>, cut: set<Pair>)
    requires i < |neighbors| && ConnsOk(before, id, conns, cut, i) && Ids(conns) <= Ids(neighbors[..i])
    ensures ConnsOk(before, id, conns, cut, i + 1) && Ids(conns) <= Ids(neighbors[..i + 1])
  {
    IdsConcat(neighbors[..i], [neighbors[i]]);
    assert neighbors[..i + 1] == neighbors[..i] + [neighbors[i]];
  }
}
