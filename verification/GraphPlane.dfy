/** A graph grown by inserts and shrunk by deletes, with its entry point (insert.rs, graph.rs), one call at a time. */
module GraphPlane {
  import opened Core
  import opened Ranking
  import opened Scratch
  import opened Snapshot
  import opened Layers
  import opened Edits
  import opened Beam
  import opened Descent
  import opened Selection
  import Prune

  datatype EntryPoint = EntryPoint(id: Id, level: nat)
  datatype InsertResult = Inserted(id: Id) | Full

  type Rank = Id -> real
  type Between = (Id, Id) -> real

  // distance_between: absent unless both ends are live.
  function Stored(nodes: Nodes, between: Between): (Id, Id) -> Option<real> {
    StoredIn(nodes.Keys, between)
  }

  function StoredIn(live: set<Id>, between: Between): (Id, Id) -> Option<real> {
    (a: Id, b: Id) => if a in live && b in live then Some(between(a, b)) else None
  }

  // Every node has its layer-0 list and at most one list per level it lives on.
  ghost predicate ShapesOk(nodes: Nodes) {
    forall u :: u in nodes ==> 1 <= |nodes[u].lists| <= nodes[u].level + 1 && nodes[u].level <= MAX_UPPER_LEVELS
  }

  // The entry word is empty exactly when no node is live, and else names a live node with its own level.
  ghost predicate EntryOk(nodes: Nodes, entry: Option<EntryPoint>) {
    && (entry.None? <==> nodes.Keys == {})
    && (entry.Some? ==> entry.value.id in nodes && nodes[entry.value.id].level == entry.value.level)
  }

  // No node lives above the entry point, and every node has all its lists.
  ghost predicate Crowned(nodes: Nodes, entry: Option<EntryPoint>) {
    forall u :: u in nodes ==>
      |nodes[u].lists| == nodes[u].level + 1 && entry.Some? && nodes[u].level <= entry.value.level
  }

  ghost predicate AllLayersLinked(nodes: Nodes) {
    forall k: nat :: Symmetric(nodes, k) && Connected(nodes, k)
  }

  ghost predicate LinkedState(nodes: Nodes, entry: Option<EntryPoint>) {
    Crowned(nodes, entry) && AllLayersLinked(nodes)
  }

  // What selection leaves for one level: the connections, and the edges it cut between them.
  ghost predicate ConnsOk(nodes: Nodes, id: Id, conns: seq<Scored>, cut: set<Pair>, limit: nat) {
    && DistinctIds(conns) && |conns| <= limit
    && Ids(conns) <= nodes.Keys && id !in Ids(conns)
    && CutWithin(cut, Ids(conns))
  }

  // Connections at level k come from layer k, and there is one wherever the layer has nodes to offer.
  ghost predicate ConnsFull(nodes: Nodes, k: nat, conns: seq<Scored>) {
    Ids(conns) <= LayerNodes(nodes, k) && (conns == [] ==> LayerNodes(nodes, k) == {})
  }

  function At<T>(s: seq<set<T>>, k: nat): set<T> {
    if k < |s| then s[k] else {}
  }

  function Empties(n: nat): seq<set<Id>> {
    seq(n, _ => {})
  }

  ghost predicate EdgesAll(before: Nodes, after: Nodes, cuts: seq<set<Pair>>, id: Id, dones: seq<set<Id>>) {
    forall k: nat :: EdgesAre(before, after, k, At(cuts, k), id, At(dones, k))
  }

  lemma EdgesAllStart(nodes: Nodes, cuts: seq<set<Pair>>, id: Id, dones: seq<set<Id>>)
    requires forall k :: 0 <= k < |cuts| ==> cuts[k] == {}
    requires forall k :: 0 <= k < |dones| ==> dones[k] == {}
    ensures EdgesAll(nodes, nodes, cuts, id, dones)
  {
  }

  // Cutting at one more level.
  lemma EdgesAllCut(
    before: Nodes, mid: Nodes, after: Nodes, cuts: seq<set<Pair>>, id: Id, dones: seq<set<Id>>, level: nat,
    cut: set<Pair>)
    requires EdgesAll(before, mid, cuts, id, dones) && level < |cuts| && cuts[level] == {} && At(dones, level) == {}
    requires EdgesAre(mid, after, level, cut, id, {})
    requires forall u, k :: k != level ==> NeighborsAt(after, u, k) == NeighborsAt(mid, u, k)
    ensures EdgesAll(before, after, cuts[level := cut], id, dones)
  {
    hide NeighborsAt;
    var cuts' := cuts[level := cut];
    forall k: nat ensures EdgesAre(before, after, k, At(cuts', k), id, At(dones, k)) {
      assert EdgesAre(before, mid, k, At(cuts, k), id, At(dones, k));
      forall u: Id, v | u != id
        ensures v in NeighborsAt(after, u, k) <==> Edge(before, u, v, k, At(cuts', k), id, At(dones, k))
      {
        assert v in NeighborsAt(mid, u, k) <==> Edge(before, u, v, k, At(cuts, k), id, At(dones, k));
        if k == level {
          assert v in NeighborsAt(after, u, k) <==> Edge(mid, u, v, k, cut, id, {});
        }
      }
    }
  }

  // A new node's own lists change nobody else's edges.
  lemma EdgesAllPublish(before: Nodes, mid: Nodes, cuts: seq<set<Pair>>, id: Id, dones: seq<set<Id>>, node: Node)
    requires EdgesAll(before, mid, cuts, id, dones)
    ensures EdgesAll(before, mid[id := node], cuts, id, dones)
  {
    var after := mid[id := node];
    forall k: nat ensures EdgesAre(before, after, k, At(cuts, k), id, At(dones, k)) {
      assert EdgesAre(before, mid, k, At(cuts, k), id, At(dones, k));
      forall u: Id, v | u != id
        ensures v in NeighborsAt(after, u, k) <==> Edge(before, u, v, k, At(cuts, k), id, At(dones, k))
      {
        assert NeighborsAt(after, u, k) == NeighborsAt(mid, u, k);
      }
    }
  }

  // Linking back from one more neighbour.
  lemma EdgesAllLink(before: Nodes, now: Nodes, cuts: seq<set<Pair>>, id: Id, dones: seq<set<Id>>, level: nat, nid: Id)
    requires EdgesAll(before, now, cuts, id, dones) && level < |dones|
    requires nid != id && nid in LayerNodes(now, level)
    ensures var after := SetList(now, nid, level, NeighborsAt(now, nid, level) + [id]);
            && EdgesAll(before, after, cuts, id, dones[level := dones[level] + {nid}]) && SameShape(now, after)
            && forall k :: NeighborsAt(after, id, k) == NeighborsAt(now, id, k)
  {
    var after := SetList(now, nid, level, NeighborsAt(now, nid, level) + [id]);
    assert EdgesAre(before, now, level, At(cuts, level), id, At(dones, level));
    EdgesAfterLink(before, now, level, At(cuts, level), id, dones[level], nid);
    hide NeighborsAt, LayerNodes, SetList;
    var dones' := dones[level := dones[level] + {nid}];
    forall k: nat ensures EdgesAre(before, after, k, At(cuts, k), id, At(dones', k)) {
      if k != level {
        assert EdgesAre(before, now, k, At(cuts, k), id, At(dones, k));
        forall u: Id, v | u != id
          ensures v in NeighborsAt(after, u, k) <==> Edge(before, u, v, k, At(cuts, k), id, At(dones', k))
        {
          assert NeighborsAt(after, u, k) == NeighborsAt(now, u, k);
        }
      }
    }
  }

  // A layer whose edges did not change is as linked as before.
  lemma UntouchedLayer(before: Nodes, after: Nodes, level: nat)
    requires LayerNodes(after, level) == LayerNodes(before, level)
    requires forall u, v :: v in NeighborsAt(after, u, level) <==> v in NeighborsAt(before, u, level)
    requires Symmetric(before, level) && Connected(before, level)
    ensures Symmetric(after, level) && Connected(after, level)
  {
    hide NeighborsAt;
    forall t: set<Id> | t != {} && t <= LayerNodes(after, level) && Closed(after, level, t)
      ensures t == LayerNodes(after, level)
    {
      assert Closed(before, level, t) by {
        forall u, v | u in t && v in NeighborsAt(before, u, level) && v in before ensures v in t {
          assert v in LayerNodes(after, level);
        }
      }
    }
  }

  lemma NoHits(conns: seq<Scored>)
    ensures Ids(conns) == {} <==> conns == []
  {
    if conns != [] {
      assert conns[0].id in Ids(conns);
    }
  }

  // One level of a finished insert: linked before, linked after.
  lemma LevelLinked(
    before: Nodes, after: Nodes, id: Id, level: nat, k: nat, conns: seq<Scored>, cut: set<Pair>, limit: nat)
    requires Symmetric(before, k) && Connected(before, k)
    requires id !in before && k <= level
    requires LayerNodes(after, k) == LayerNodes(before, k) + {id}
    requires ConnsOk(before, id, conns, cut, limit) && ConnsFull(before, k, conns)
    requires EdgesAre(before, after, k, cut, id, Ids(conns))
    requires forall v :: v in NeighborsAt(after, id, k) <==> v in Ids(conns)
    ensures Symmetric(after, k) && Connected(after, k)
  {
    LayerMember(before, k, id);
    hide NeighborsAt, LayerNodes, Symmetric, Connected, EdgesAre, DistinctIds;
    assert Grown(before, after, k, id, Ids(conns)) by {
      NoHits(conns);
    }
    EdgesMakeSplice(before, after, k, cut, id, Ids(conns));
    SpliceKeepsSymmetric(before, after, k, id, Ids(conns));
    SpliceKeepsConnected(before, after, k, id, Ids(conns));
  }

  // The new node is stored whole: every list it should have, naming exactly its connections.
  ghost predicate StoredWhole(nodes: Nodes, id: Id, level: nat, connections: seq<seq<Scored>>)
    requires |connections| == level + 1
  {
    && id in nodes && nodes[id].level == level && |nodes[id].lists| == level + 1
    && forall k, v :: 0 <= k <= level ==> (v in NeighborsAt(nodes, id, k) <==> v in Ids(connections[k]))
  }

  // Everybody else keeps level and number of lists.
  ghost predicate OthersKept(before: Nodes, after: Nodes, id: Id) {
    && after.Keys == before.Keys + {id}
    && forall u :: u in before && u != id ==> after[u].level == before[u].level && |after[u].lists| == |before[u].lists|
  }

  ghost predicate AllConns(before: Nodes, id: Id, connections: seq<seq<Scored>>, cuts: seq<set<Pair>>, limit: nat) {
    && |cuts| == |connections|
    && forall k :: 0 <= k < |connections| ==> ConnsOk(before, id, connections[k], cuts[k], limit)
  }

  ghost predicate AllFull(before: Nodes, connections: seq<seq<Scored>>) {
    forall k :: 0 <= k < |connections| ==> ConnsFull(before, k, connections[k])
  }

  ghost function AllIds(connections: seq<seq<Scored>>): seq<set<Id>> {
    seq(|connections|, k requires 0 <= k < |connections| => Ids(connections[k]))
  }

  lemma OthersKeptLayers(before: Nodes, after: Nodes, id: Id, k: nat)
    requires OthersKept(before, after, id) && id !in before
    ensures LayerNodes(after, k) == LayerNodes(before, k) + (if k < |after[id].lists| then {id} else {})
  {
  }

  lemma AboveAll(nodes: Nodes, entry: Option<EntryPoint>, k: nat)
    requires Crowned(nodes, entry) && entry.Some? && k > entry.value.level
    ensures LayerNodes(nodes, k) == {}
  {
  }

  // A finished insert that dropped nothing keeps every layer symmetric and connected.
  lemma InsertLinked(
    before: Nodes, after: Nodes, entry: Option<EntryPoint>, entry': Option<EntryPoint>, id: Id, level: nat,
    connections: seq<seq<Scored>>, cuts: seq<set<Pair>>, limit: nat)
    requires LinkedState(before, entry) && entry.Some? && id !in before
    requires |connections| == level + 1
    requires AllConns(before, id, connections, cuts, limit) && AllFull(before, connections)
    requires EdgesAll(before, after, cuts, id, AllIds(connections))
    requires OthersKept(before, after, id) && StoredWhole(after, id, level, connections)
    requires entry' == if level > entry.value.level then Some(EntryPoint(id, level)) else entry
    ensures LinkedState(after, entry')
  {
    hide NeighborsAt, LayerNodes, EdgesAre, Symmetric, Connected, ConnsOk, ConnsFull;
    forall k: nat ensures Symmetric(after, k) && Connected(after, k) {
      assert Symmetric(before, k) && Connected(before, k);
      OthersKeptLayers(before, after, id, k);
      assert EdgesAre(before, after, k, At(cuts, k), id, At(AllIds(connections), k));
      if k <= level {
        LevelLinked(before, after, id, level, k, connections[k], cuts[k], limit);
      } else {
        AboveLevel(before, after, id, k);
        UntouchedLayer(before, after, k);
      }
    }
  }

  lemma AboveLevel(before: Nodes, after: Nodes, id: Id, k: nat)
    requires OthersKept(before, after, id) && id !in before && |after[id].lists| <= k
    requires EdgesAre(before, after, k, {}, id, {})
    ensures LayerNodes(after, k) == LayerNodes(before, k)
    ensures forall u, v :: v in NeighborsAt(after, u, k) <==> v in NeighborsAt(before, u, k)
  {
    OthersKeptLayers(before, after, id, k);
    forall u: Id, v: Id ensures v in NeighborsAt(after, u, k) <==> v in NeighborsAt(before, u, k) {
      if u != id {
        assert v in NeighborsAt(after, u, k) <==> Edge(before, u, v, k, {}, id, {});
      }
    }
  }

  // The first node of an empty graph: every layer it has is that node alone.
  lemma FirstNodeLinked(id: Id, level: nat, node: Node)
    requires node.level == level && |node.lists| == level + 1
    requires forall k :: 0 <= k < |node.lists| ==> node.lists[k] == []
    ensures LinkedState(map[id := node], Some(EntryPoint(id, level)))
  {
    var nodes: Nodes := map[id := node];
    forall k: nat ensures Symmetric(nodes, k) && Connected(nodes, k) {
      assert forall u :: NeighborsAt(nodes, u, k) == [];
      assert LayerNodes(nodes, k) <= {id};
    }
  }

  // Why the theorem stops at a full list: once a prune stores fewer ids than had a link both ways,
  // some node names `nid` that `nid` no longer names.
  lemma OverflowBreaksSymmetry(nodes: Nodes, nid: Id, level: nat, whole: seq<Id>)
    requires NoDup(whole) && |NeighborsAt(nodes, nid, level)| < |whole|
    requires forall x :: x in whole ==> nid in NeighborsAt(nodes, x, level)
    ensures !Symmetric(nodes, level)
  {
    if Symmetric(nodes, level) {
      var list := NeighborsAt(nodes, nid, level);
      forall x | x in whole ensures x in list {
        assert nid in NeighborsAt(nodes, x, level);
      }
      ElemsSize(whole);
      SubsetSize(Elems(whole), Elems(list));
      ElemsBound(list);
    }
  }
}
