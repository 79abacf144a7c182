/** The graph as a search reads it: live nodes and their adjacency lists per level. */
module Snapshot {
  import opened Core

  // lists[0] is the slot's layer-0 list; lists[1..] is the upper entry, empty when the node has none.
  datatype Node = Node(level: nat, lists: seq<seq<Id>>)

  // Only live nodes are keys: a never-written or deleted slot reads as absent.
  type Nodes = map<Id, Node>

  ghost predicate Bounded(nodes: Nodes, maxNodes: nat) {
    forall id :: id in nodes ==> id < maxNodes
  }

  // neighbors_into (None for an absent node) at level 0, upper_neighbors_into (empty) above.
  function NeighborsAt(nodes: Nodes, id: Id, level: nat): seq<Id> {
    if id in nodes && level < |nodes[id].lists| then nodes[id].lists[level] else []
  }

  function LayerNodes(nodes: Nodes, level: nat): set<Id> {
    set id | id in nodes && level < |nodes[id].lists|
  }

  // No live neighbour of a member of `s` is outside `s`.
  ghost predicate Closed(nodes: Nodes, level: nat, s: set<Id>) {
    forall u, v :: u in s && v in NeighborsAt(nodes, u, level) && v in nodes ==> v in s
  }

  // The live nodes reachable from `entry` at `level`: the least closed set around it.
  ghost predicate IsReach(nodes: Nodes, level: nat, entry: Id, s: set<Id>) {
    && entry in s
    && Closed(nodes, level, s)
    && forall t: set<Id> :: entry in t && Closed(nodes, level, t) ==> s <= t
  }

  // A path at `level`: every step follows a stored edge to a live node.
  ghost predicate IsPath(nodes: Nodes, level: nat, path: seq<Id>) {
    && |path| > 0
    && forall i :: 0 < i < |path| ==> path[i] in nodes && path[i] in NeighborsAt(nodes, path[i - 1], level)
  }

  ghost predicate HasPath(nodes: Nodes, level: nat, from: Id, to: Id) {
    exists path :: IsPath(nodes, level, path) && path[0] == from && path[|path| - 1] == to
  }

  lemma {:induction false} PathStaysInside(nodes: Nodes, level: nat, s: set<Id>, path: seq<Id>)
    requires IsPath(nodes, level, path) && path[0] in s && Closed(nodes, level, s)
    ensures path[|path| - 1] in s
  {
    if |path| > 1 {
      var front := path[..|path| - 1];
      PathStaysInside(nodes, level, s, front);
    }
  }

  lemma PathStep(nodes: Nodes, level: nat, from: Id, u: Id, v: Id)
    requires HasPath(nodes, level, from, u)
    requires v in NeighborsAt(nodes, u, level) && v in nodes
    ensures HasPath(nodes, level, from, v)
  {
    var path :| IsPath(nodes, level, path) && path[0] == from && path[|path| - 1] == u;
    var longer := path + [v];
    assert IsPath(nodes, level, longer);
    assert longer[0] == from && longer[|longer| - 1] == v;
  }

  // The least closed set is exactly what paths reach.
  lemma ReachIsPaths(nodes: Nodes, level: nat, entry: Id, s: set<Id>)
    requires entry in nodes && IsReach(nodes, level, entry, s)
    ensures forall x :: x in s <==> HasPath(nodes, level, entry, x)
  {
    assert IsPath(nodes, level, [entry]) && [entry][0] == entry;
    var t := set x | x in s && HasPath(nodes, level, entry, x);
    assert Closed(nodes, level, t) by {
      forall u, v | u in t && v in NeighborsAt(nodes, u, level) && v in nodes ensures v in t {
        PathStep(nodes, level, entry, u, v);
      }
    }
    assert s <= t;
    forall x | HasPath(nodes, level, entry, x) ensures x in s {
      var path :| IsPath(nodes, level, path) && path[0] == entry && path[|path| - 1] == x;
      PathStaysInside(nodes, level, s, path);
    }
  }
}
