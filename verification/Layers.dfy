/** Symmetry and connectivity of one layer, and why linking in a node keeps both. */
module Layers {
  import opened Core
  import opened Snapshot

  // Every stored edge stays inside the layer and is stored at both ends.
  ghost predicate Symmetric(nodes: Nodes, level: nat) {
    forall u, v :: v in NeighborsAt(nodes, u, level) ==>
      v in LayerNodes(nodes, level) && u in NeighborsAt(nodes, v, level)
  }

  // No nonempty proper part of the layer is closed under its edges.
  ghost predicate Connected(nodes: Nodes, level: nat) {
    forall t: set<Id> ::
      t != {} && t <= LayerNodes(nodes, level) && Closed(nodes, level, t) ==> t == LayerNodes(nodes, level)
  }

  // Connectivity in the usual sense: a path between any two nodes of the layer.
  lemma ConnectedMeansPaths(nodes: Nodes, level: nat)
    requires Symmetric(nodes, level)
    ensures Connected(nodes, level) <==>
            forall u, v ::
              u in LayerNodes(nodes, level) && v in LayerNodes(nodes, level) ==> HasPath(nodes, level, u, v)
  {
    var layer := LayerNodes(nodes, level);
    if Connected(nodes, level) {
      forall u, v | u in layer && v in layer ensures HasPath(nodes, level, u, v) {
        var t := set x | x in layer && HasPath(nodes, level, u, x);
        assert IsPath(nodes, level, [u]) && [u][0] == u;
        assert u in t;
        forall x, y | x in t && y in NeighborsAt(nodes, x, level) && y in nodes ensures y in t {
          PathStep(nodes, level, u, x, y);
        }
        assert Closed(nodes, level, t);
      }
    }
    if forall u, v :: u in layer && v in layer ==> HasPath(nodes, level, u, v) {
      forall t: set<Id> | t != {} && t <= layer && Closed(nodes, level, t) ensures t == layer {
        var u :| u in t;
        forall v | v in layer ensures v in t {
          var path :| IsPath(nodes, level, path) && path[0] == u && path[|path| - 1] == v;
          PathStaysInside(nodes, level, t, path);
        }
      }
    }
  }

  // A symmetric layer is a closed set, so a search started inside it stays inside.
  lemma LayerClosed(nodes: Nodes, level: nat)
    requires Symmetric(nodes, level)
    ensures Closed(nodes, level, LayerNodes(nodes, level))
  {
  }

  // How one insert changes a layer: `id` is linked both ways to `conns`, and every edge that went
  // away joined two members of `conns`, at both ends.
  ghost predicate Spliced(before: Nodes, after: Nodes, level: nat, id: Id, conns: set<Id>) {
    && Grown(before, after, level, id, conns)
    && LinkedTo(before, after, level, id, conns)
    && KeptOutside(before, after, level, conns)
    && NothingElseAdded(before, after, level, id)
    && DroppedAtBothEnds(after, level, conns)
  }

  ghost predicate Grown(before: Nodes, after: Nodes, level: nat, id: Id, conns: set<Id>) {
    && id !in LayerNodes(before, level)
    && LayerNodes(after, level) == LayerNodes(before, level) + {id}
    && conns <= LayerNodes(before, level)
    && (conns == {} ==> LayerNodes(before, level) == {})
  }

  ghost predicate LinkedTo(before: Nodes, after: Nodes, level: nat, id: Id, conns: set<Id>) {
    && (forall v :: v in NeighborsAt(after, id, level) <==> v in conns)
    && (forall u :: u in LayerNodes(before, level) ==> (id in NeighborsAt(after, u, level) <==> u in conns))
  }

  ghost predicate KeptOutside(before: Nodes, after: Nodes, level: nat, conns: set<Id>) {
    forall u, v ::
      v in NeighborsAt(before, u, level) && !(u in conns && v in conns) ==> v in NeighborsAt(after, u, level)
  }

  ghost predicate NothingElseAdded(before: Nodes, after: Nodes, level: nat, id: Id) {
    forall u, v :: u != id && v != id && v in NeighborsAt(after, u, level) ==> v in NeighborsAt(before, u, level)
  }

  ghost predicate DroppedAtBothEnds(after: Nodes, level: nat, conns: set<Id>) {
    forall u, v :: u in conns && v in conns && v in NeighborsAt(after, u, level) ==> u in NeighborsAt(after, v, level)
  }

  lemma LayerMember(nodes: Nodes, level: nat, id: Id)
    ensures id in LayerNodes(nodes, level) <==> id in nodes && level < |nodes[id].lists|
    ensures NeighborsAt(nodes, id, level) != [] ==> id in LayerNodes(nodes, level)
  {
  }

  lemma SpliceKeepsSymmetric(before: Nodes, after: Nodes, level: nat, id: Id, conns: set<Id>)
    requires Symmetric(before, level) && Spliced(before, after, level, id, conns)
    ensures Symmetric(after, level)
  {
    hide NeighborsAt, LayerNodes;
    forall u, v | v in NeighborsAt(after, u, level)
      ensures v in LayerNodes(after, level) && u in NeighborsAt(after, v, level)
    {
      LayerMember(after, level, u);
      assert u in LayerNodes(before, level) + {id};
      if u != id && v != id {
        assert v in NeighborsAt(before, u, level);
        assert u in NeighborsAt(before, v, level);
      }
    }
  }

  // A set closed after the splice was, without `id`, closed before it.
  lemma SpliceClosedBefore(before: Nodes, after: Nodes, level: nat, id: Id, conns: set<Id>, t: set<Id>)
    requires Symmetric(before, level) && Spliced(before, after, level, id, conns)
    requires t <= LayerNodes(after, level) && Closed(after, level, t)
    ensures Closed(before, level, t - {id})
  {
    hide NeighborsAt, LayerNodes, NothingElseAdded, DroppedAtBothEnds;
    forall u, v | u in t - {id} && v in NeighborsAt(before, u, level) && v in before ensures v in t - {id} {
      assert u in LayerNodes(before, level) && v in LayerNodes(before, level);
      LayerMember(after, level, v);
      LayerMember(after, level, id);
      if u in conns {
        assert id in NeighborsAt(after, u, level) && id in t;
        if v in conns {
          assert v in NeighborsAt(after, id, level);
        }
      }
    }
  }

  // `id` and its connections are all inside such a set, or all outside it.
  lemma SpliceClosedAround(before: Nodes, after: Nodes, level: nat, id: Id, conns: set<Id>, t: set<Id>)
    requires Spliced(before, after, level, id, conns)
    requires t <= LayerNodes(after, level) && Closed(after, level, t)
    ensures id in t ==> conns <= t
    ensures id !in t ==> conns !! t
  {
    hide NeighborsAt, LayerNodes, NothingElseAdded, DroppedAtBothEnds, KeptOutside;
    LayerMember(after, level, id);
    forall c | c in conns ensures id in t ==> c in t {
      assert c in NeighborsAt(after, id, level);
      LayerMember(after, level, c);
    }
    forall c | c in conns ensures c in t ==> id in t {
      assert id in NeighborsAt(after, c, level);
    }
  }

  // Every removed edge joined two nodes now linked to `id`, so what was connected still is.
  lemma SpliceKeepsConnected(before: Nodes, after: Nodes, level: nat, id: Id, conns: set<Id>)
    requires Symmetric(before, level) && Connected(before, level)
    requires Spliced(before, after, level, id, conns)
    ensures Connected(after, level)
  {
    hide Closed, NeighborsAt, LayerNodes, LinkedTo, NothingElseAdded, DroppedAtBothEnds, KeptOutside, Symmetric;
    var layer := LayerNodes(before, level);
    forall t: set<Id> | t != {} && t <= LayerNodes(after, level) && Closed(after, level, t)
      ensures t == LayerNodes(after, level)
    {
      var inner := t - {id};
      SpliceClosedBefore(before, after, level, id, conns, t);
      SpliceClosedAround(before, after, level, id, conns, t);
      assert inner == {} || inner == layer;
    }
  }
}
