/** Edits of adjacency lists and what a sequence of them leaves behind. */
module Edits {
  import opened Core
  import opened Snapshot
  import opened Layers

  type Pair = (Id, Id)

  // Replace one stored list; a missing node or level is left alone (update_neighbors and
  // update_upper_level report false).
  function SetList(nodes: Nodes, id: Id, level: nat, list: seq<Id>): Nodes {
    if id in nodes && level < |nodes[id].lists|
    then nodes[id := nodes[id].(lists := nodes[id].lists[level := list])]
    else nodes
  }

  // Levels and the number of lists of every node, which list edits never change.
  ghost predicate SameShape(a: Nodes, b: Nodes) {
    && a.Keys == b.Keys
    && forall u :: u in a ==> a[u].level == b[u].level && |a[u].lists| == |b[u].lists|
  }

  lemma SetListEffect(nodes: Nodes, id: Id, level: nat, list: seq<Id>)
    ensures SameShape(nodes, SetList(nodes, id, level, list))
    ensures forall u, k :: NeighborsAt(SetList(nodes, id, level, list), u, k)
                        == if u == id && k == level && id in LayerNodes(nodes, level) then list
                          else NeighborsAt(nodes, u, k)
  {
  }

  lemma ShapeLayers(a: Nodes, b: Nodes, level: nat)
    requires SameShape(a, b)
    ensures LayerNodes(a, level) == LayerNodes(b, level)
  {
  }

  lemma ShapeTransitive(a: Nodes, b: Nodes, c: Nodes)
    requires SameShape(a, b) && SameShape(b, c)
    ensures SameShape(a, c)
  {
  }

  // The list `list` without its first `x`.
  function Without(list: seq<Id>, x: Id): seq<Id> {
    if list == [] then []
    else if list[0] == x then list[1..]
    else [list[0]] + Without(list[1..], x)
  }

  lemma {:induction false} WithoutMembers(list: seq<Id>, x: Id)
    requires NoDup(list)
    ensures NoDup(Without(list, x)) && |Without(list, x)| <= |list|
    ensures forall y :: y in Without(list, x) <==> y in list && y != x
  {
    if list != [] {
      assert list == [list[0]] + list[1..];
      if list[0] == x {
        assert x !in list[1..];
      } else {
        WithoutMembers(list[1..], x);
        assert list[0] !in Without(list[1..], x);
      }
    }
  }

  // Duplicate-free, no self-loop, within its cap, and only ids a slot exists for.
  ghost predicate ListOk(owner: Id, list: seq<Id>, cap: nat, maxNodes: nat) {
    NoDup(list) && owner !in list && |list| <= cap && forall x :: x in list ==> x < maxNodes
  }

  datatype Caps = Caps(layer0: nat, upper: nat, maxNodes: nat) {
    function At(level: nat): nat {
      if level == 0 then layer0 else upper
    }
  }

  ghost predicate ListsOk(nodes: Nodes, caps: Caps) {
    forall u, k :: ListOk(u, NeighborsAt(nodes, u, k), caps.At(k), caps.maxNodes)
  }

  lemma SetListOk(nodes: Nodes, id: Id, level: nat, list: seq<Id>, caps: Caps)
    requires ListsOk(nodes, caps) && ListOk(id, list, caps.At(level), caps.maxNodes)
    ensures ListsOk(SetList(nodes, id, level, list), caps)
  {
    hide ListOk, NeighborsAt, LayerNodes, SetList;
    SetListEffect(nodes, id, level, list);
    var after := SetList(nodes, id, level, list);
    forall u, k ensures ListOk(u, NeighborsAt(after, u, k), caps.At(k), caps.maxNodes) {
      assert ListOk(u, NeighborsAt(nodes, u, k), caps.At(k), caps.maxNodes);
    }
  }

  // Compared with `before`, the edges at `level` of every node but `id` lost `cut` and gained
  // exactly the edge to `id` at the members of `done`.
  ghost predicate EdgesAre(before: Nodes, after: Nodes, level: nat, cut: set<Pair>, id: Id, done: set<Id>) {
    forall u, v :: u != id ==>
      (v in NeighborsAt(after, u, level) <==> Edge(before, u, v, level, cut, id, done))
  }

  ghost predicate Edge(before: Nodes, u: Id, v: Id, level: nat, cut: set<Pair>, id: Id, done: set<Id>) {
    (v in NeighborsAt(before, u, level) && (u, v) !in cut) || (v == id && u in done)
  }

  // A cut joins members of `conns` only, and is made at both ends.
  ghost predicate CutWithin(cut: set<Pair>, conns: set<Id>) {
    forall u, v :: (u, v) in cut ==> u in conns && v in conns && (v, u) in cut
  }

  // The finished insert, seen at one level, is a splice.
  lemma EdgesMakeSplice(before: Nodes, after: Nodes, level: nat, cut: set<Pair>, id: Id, conns: set<Id>)
    requires Symmetric(before, level)
    requires Grown(before, after, level, id, conns)
    requires EdgesAre(before, after, level, cut, id, conns)
    requires CutWithin(cut, conns)
    requires forall v :: v in NeighborsAt(after, id, level) <==> v in conns
    ensures Spliced(before, after, level, id, conns)
  {
    hide NeighborsAt, LayerNodes;
    forall u ensures id !in NeighborsAt(before, u, level) {
      assert id in NeighborsAt(before, u, level) ==> id in LayerNodes(before, level);
    }
    forall v ensures v !in NeighborsAt(before, id, level) {
      LayerMember(before, level, id);
      assert v in NeighborsAt(before, id, level) ==> NeighborsAt(before, id, level) != [];
    }
    assert LinkedTo(before, after, level, id, conns) by {
      forall u | u in LayerNodes(before, level) ensures id in NeighborsAt(after, u, level) <==> u in conns {
        assert u != id;
        assert id in NeighborsAt(after, u, level) <==> Edge(before, u, id, level, cut, id, conns);
      }
    }
    assert DroppedAtBothEnds(after, level, conns) by {
      forall u, v | u in conns && v in conns && v in NeighborsAt(after, u, level)
        ensures u in NeighborsAt(after, v, level) {
        assert u != id && v != id;
        assert Edge(before, u, v, level, cut, id, conns);
        assert u in NeighborsAt(before, v, level);
        assert Edge(before, v, u, level, cut, id, conns);
      }
    }
    assert KeptOutside(before, after, level, conns) by {
      forall u, v | v in NeighborsAt(before, u, level) && !(u in conns && v in conns)
        ensures v in NeighborsAt(after, u, level) {
        assert Edge(before, u, v, level, cut, id, conns);
      }
    }
    assert NothingElseAdded(before, after, level, id) by {
      forall u, v | u != id && v != id && v in NeighborsAt(after, u, level) ensures v in NeighborsAt(before, u, level) {
        assert Edge(before, u, v, level, cut, id, conns);
      }
    }
  }

  // Dropping one directed edge.
  lemma EdgesAfterRemoval(before: Nodes, now: Nodes, level: nat, cut: set<Pair>, id: Id, caps: Caps, from: Id, to: Id)
    requires EdgesAre(before, now, level, cut, id, {}) && ListsOk(now, caps) && from != id
    ensures var after := SetList(now, from, level, Without(NeighborsAt(now, from, level), to));
            && EdgesAre(before, after, level, cut + {(from, to)}, id, {}) && ListsOk(after, caps)
              && SameShape(now, after)
            && forall u, k :: k != level ==> NeighborsAt(after, u, k) == NeighborsAt(now, u, k)
  {
    var list := NeighborsAt(now, from, level);
    var after := SetList(now, from, level, Without(list, to));
    SetListEffect(now, from, level, Without(list, to));
    assert ListOk(from, list, caps.At(level), caps.maxNodes);
    WithoutMembers(list, to);
    SetListOk(now, from, level, Without(list, to), caps);
    LayerMember(now, level, from);
    hide NeighborsAt, LayerNodes, SetList, Without, ListsOk, ListOk;
    forall u, v | u != id
      ensures v in NeighborsAt(after, u, level) <==> Edge(before, u, v, level, cut + {(from, to)}, id, {})
    {
      assert v in NeighborsAt(now, u, level) <==> Edge(before, u, v, level, cut, id, {});
    }
  }

  // Adding one reverse edge to a list that has room and does not hold it yet.
  lemma EdgesAfterLink(before: Nodes, now: Nodes, level: nat, cut: set<Pair>, id: Id, done: set<Id>, nid: Id)
    requires EdgesAre(before, now, level, cut, id, done)
    requires nid != id && nid in LayerNodes(now, level)
    ensures var after := SetList(now, nid, level, NeighborsAt(now, nid, level) + [id]);
            && EdgesAre(before, after, level, cut, id, done + {nid}) && SameShape(now, after)
            && forall u, k :: k != level || u == id ==> NeighborsAt(after, u, k) == NeighborsAt(now, u, k)
  {
    var list := NeighborsAt(now, nid, level) + [id];
    var after := SetList(now, nid, level, list);
    SetListEffect(now, nid, level, list);
    hide NeighborsAt, LayerNodes, SetList;
    forall u, v | u != id
      ensures v in NeighborsAt(after, u, level) <==> Edge(before, u, v, level, cut, id, done + {nid})
    {
      assert v in NeighborsAt(now, u, level) <==> Edge(before, u, v, level, cut, id, done);
    }
  }

  // ---- Lists, exactly ----

  // The list of `u` without the neighbours it was cut from, in the order it had.
  function Uncut(list: seq<Id>, u: Id, cut: set<Pair>): seq<Id> {
    if list == [] then []
    else if (u, list[0]) in cut then Uncut(list[1..], u, cut)
    else [list[0]] + Uncut(list[1..], u, cut)
  }

  // Every list at `level` is what the cuts left of it.
  ghost predicate ListsCut(before: Nodes, after: Nodes, level: nat, cut: set<Pair>) {
    forall u :: NeighborsAt(after, u, level) == Uncut(NeighborsAt(before, u, level), u, cut)
  }

  lemma {:induction false} UncutNothing(list: seq<Id>, u: Id)
    ensures Uncut(list, u, {}) == list
  {
    if list != [] {
      UncutNothing(list[1..], u);
    }
  }

  // Cutting what the list does not name changes nothing.
  lemma {:induction false} UncutOther(list: seq<Id>, u: Id, cut: set<Pair>, from: Id, to: Id)
    requires u != from || to !in list
    ensures Uncut(list, u, cut + {(from, to)}) == Uncut(list, u, cut)
  {
    if list != [] {
      UncutOther(list[1..], u, cut, from, to);
    }
  }

  lemma {:induction false} UncutWithout(list: seq<Id>, u: Id, cut: set<Pair>, to: Id)
    requires NoDup(list)
    ensures Uncut(list, u, cut + {(u, to)}) == Without(Uncut(list, u, cut), to)
  {
    if list != [] {
      var rest := list[1..];
      UncutWithout(rest, u, cut, to);
      var left := Uncut(rest, u, cut);
      assert ([list[0]] + left)[1..] == left && list == [list[0]] + rest;
      if list[0] == to {
        assert to !in rest;
        UncutOther(rest, u, cut, u, to);
        UncutMembers(rest, u, cut);
        WithoutAbsent(Uncut(rest, u, cut), to);
      }
    }
  }

  lemma {:induction false} UncutMembers(list: seq<Id>, u: Id, cut: set<Pair>)
    ensures forall v :: v in Uncut(list, u, cut) <==> v in list && (u, v) !in cut
  {
    if list != [] {
      UncutMembers(list[1..], u, cut);
    }
  }

  lemma {:induction false} WithoutAbsent(list: seq<Id>, x: Id)
    requires x !in list
    ensures Without(list, x) == list
  {
    if list != [] {
      WithoutAbsent(list[1..], x);
    }
  }

  lemma ListsCutStart(nodes: Nodes, level: nat)
    ensures ListsCut(nodes, nodes, level, {})
  {
    forall u ensures NeighborsAt(nodes, u, level) == Uncut(NeighborsAt(nodes, u, level), u, {}) {
      UncutNothing(NeighborsAt(nodes, u, level), u);
    }
  }

  lemma ListsCutOnce(before: Nodes, now: Nodes, level: nat, cut: set<Pair>, caps: Caps, from: Id, to: Id)
    requires ListsCut(before, now, level, cut) && ListsOk(before, caps)
    ensures ListsCut(before, SetList(now, from, level, Without(NeighborsAt(now, from, level), to)), level,
            cut + {(from, to)})
  {
    var list := Without(NeighborsAt(now, from, level), to);
    var after := SetList(now, from, level, list);
    SetListEffect(now, from, level, list);
    LayerMember(now, level, from);
    hide NeighborsAt, LayerNodes, SetList, Uncut;
    forall u ensures NeighborsAt(after, u, level) == Uncut(NeighborsAt(before, u, level), u, cut + {(from, to)}) {
      assert NeighborsAt(now, u, level) == Uncut(NeighborsAt(before, u, level), u, cut);
      if u == from {
        assert ListOk(u, NeighborsAt(before, u, level), caps.At(level), caps.maxNodes);
        UncutWithout(NeighborsAt(before, u, level), u, cut, to);
      } else {
        UncutOther(NeighborsAt(before, u, level), u, cut, from, to);
      }
    }
  }
}
