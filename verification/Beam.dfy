/** Beam search within one layer (search_layer) and the descent built on it. */
module Beam {
  import opened Core
  import opened Ranking
  import opened Scratch
  import opened Snapshot

  // An allow-bitset over node ids; None admits every node.
  type Filter = Option<seq<bv8>>

  predicate BitAllowed(filter: Filter, id: Id) {
    match filter
    case None => true
    case Some(bits) => id / 8 < |bits| && bits[id / 8] & ((1 as bv8) << (id % 8)) != 0
  }

  ghost function Admitted(filter: Filter, s: set<Id>): set<Id> {
    set x | x in s && BitAllowed(filter, x)
  }

  // The unvisited ids of a list below `maxNodes`, in order, each taken once.
  ghost function Unvisited(list: seq<Id>, maxNodes: nat, visited: set<Id>): seq<Id> {
    if list == [] then []
    else
      var last := |list| - 1;
      TakeOne(Unvisited(list[..last], maxNodes, visited), list[last], maxNodes, visited)
  }

  ghost function TakeOne(taken: seq<Id>, x: Id, maxNodes: nat, visited: set<Id>): seq<Id> {
    if x < maxNodes && x !in visited && x !in taken then taken + [x] else taken
  }

  lemma {:induction false} UnvisitedMembers(list: seq<Id>, maxNodes: nat, visited: set<Id>)
    ensures var r := Unvisited(list, maxNodes, visited);
            NoDup(r) && forall x :: x in r <==> x in list && x < maxNodes && x !in visited
  {
    if list != [] {
      var last := |list| - 1;
      UnvisitedMembers(list[..last], maxNodes, visited);
      assert forall x :: x in list <==> x in list[..last] || x == list[last];
    }
  }

  lemma UnvisitedStep(list: seq<Id>, i: nat, maxNodes: nat, visited: set<Id>)
    requires i < |list|
    ensures Unvisited(list[..i + 1], maxNodes, visited)
         == TakeOne(Unvisited(list[..i], maxNodes, visited), list[i], maxNodes, visited)
  {
    assert list[..i + 1][..i] == list[..i];
  }

  // The compaction loop: the kept prefix, the untouched tail and the visited set so far.
  ghost predicate CompactInv(
    list: seq<Id>, maxNodes: nat, visited: set<Id>, nbuf: seq<Id>, i: nat, kept: nat, contents: set<Id>)
  {
    && kept <= i && i <= |nbuf| && |nbuf| == |list|
    && nbuf[i..] == list[i..]
    && nbuf[..kept] == Unvisited(list[..i], maxNodes, visited)
    && contents == visited + Elems(nbuf[..kept])
  }

  lemma CompactStep(
    list: seq<Id>, maxNodes: nat, visited: set<Id>, nbuf: seq<Id>, i: nat, kept: nat, contents: set<Id>)
    requires CompactInv(list, maxNodes, visited, nbuf, i, kept, contents) && i < |nbuf|
    ensures var nid := nbuf[i];
            if nid < maxNodes && nid !in contents
            then CompactInv(list, maxNodes, visited, nbuf[kept := nid], i + 1, kept + 1, contents + {nid})
            else CompactInv(list, maxNodes, visited, nbuf, i + 1, kept, contents)
  {
    var nid := nbuf[i];
    assert nid == nbuf[i..][0] == list[i];
    UnvisitedStep(list, i, maxNodes, visited);
    ElemsSnoc(nbuf[..kept], nid);
    var after := nbuf[kept := nid];
    assert after[..kept + 1] == nbuf[..kept] + [nid];
    assert after[i + 1..] == nbuf[i..][1..] == list[i..][1..] == list[i + 1..];
    assert nbuf[i + 1..] == nbuf[i..][1..];
  }

  // unvisited_prefetched: compact `nbuf` in place to its unvisited ids, marking them visited.
  method CompactUnvisited(list: seq<Id>, maxNodes: nat, scratch: SearchScratch) returns (nbuf: seq<Id>, kept: nat)
    requires scratch.Valid()
    modifies scratch
    ensures scratch.Valid()
    ensures kept <= |nbuf|
    ensures nbuf[..kept] == Unvisited(list, maxNodes, old(scratch.Contents()))
    ensures scratch.Contents() == old(scratch.Contents()) + Elems(nbuf[..kept])
  {
    ghost var visited := scratch.Contents();
    nbuf, kept := list, 0;
    var i := 0;
    assert CompactInv(list, maxNodes, visited, nbuf, i, kept, scratch.Contents());
    hide *;
    while i < |nbuf|
      invariant 0 <= kept <= i <= |nbuf|
      invariant scratch.Valid()
      invariant CompactInv(list, maxNodes, visited, nbuf, i, kept, scratch.Contents())
    {
      var nid := nbuf[i];
      CompactStep(list, maxNodes, visited, nbuf, i, kept, scratch.Contents());
      if nid < maxNodes {
        ghost var seen := scratch.Contents();
        var first := scratch.Visit(nid);
        if first {
          nbuf := nbuf[kept := nid];
          kept := kept + 1;
        } else {
          assert seen + {nid} == seen;
        }
      }
      i := i + 1;
    }
    CompactEnd(list, maxNodes, visited, nbuf, i, kept, scratch.Contents());
  }

  lemma CompactEnd(list: seq<Id>, maxNodes: nat, visited: set<Id>, nbuf: seq<Id>, i: nat, kept: nat, contents: set<Id>)
    requires CompactInv(list, maxNodes, visited, nbuf, i, kept, contents) && i == |nbuf|
    ensures nbuf[..kept] == Unvisited(list, maxNodes, visited) && contents == visited + Elems(nbuf[..kept])
  {
    assert list[..i] == list;
  }

  // Beam width: at least one when the entry itself is a hit, since the entry is never evicted alone.
  function Width(ef: nat, filter: Filter, entry: Id): nat {
    if ef == 0 && BitAllowed(filter, entry) then 1 else ef
  }

  // A scored node was left out of the beam only against a full result set it could not improve.
  ghost predicate Skipped(results: set<Id>, skipped: set<Id>, width: nat, rank: Id -> real) {
    skipped != {} ==> width > 0 && |results| >= width && forall x, y ::
      x in results && y in skipped ==> rank(x) <= rank(y)
  }

  // Every live neighbour of an expanded node has been scored.
  ghost predicate Expanded(nodes: Nodes, level: nat, expanded: set<Id>, scored: set<Id>) {
    forall u, v :: u in expanded && v in NeighborsAt(nodes, u, level) && v in nodes ==> v in scored
  }

  // Nothing outside a closed set around the entry is ever scored.
  ghost predicate Confined(nodes: Nodes, level: nat, entry: Id, scored: set<Id>) {
    forall t: set<Id> :: entry in t && Closed(nodes, level, t) ==> scored <= t
  }

  // The heaps: `scored` is every node whose distance was taken, `pushed` those that entered the
  // candidate heap, `results` the bounded result heap.
  ghost predicate HeapInv(
    rank: Id -> real, width: nat, filter: Filter, scored: set<Id>, pushed: set<Id>, results: set<Id>) {
    && results <= pushed <= scored
    && Nearest(results, Admitted(filter, scored), width, rank)
    && Skipped(results, scored - pushed, width, rank)
  }

  ghost predicate IsWorst(w: Id, s: set<Id>, rank: Id -> real) {
    w in s && forall x :: x in s ==> rank(x) <= rank(w)
  }

  ghost predicate IsBest(b: Id, s: set<Id>, rank: Id -> real) {
    b in s && forall x :: x in s ==> rank(b) <= rank(x)
  }

  // The result heap's top: absent means an infinite bound.
  method PeekWorst(results: set<Id>, rank: Id -> real) returns (worst: Option<Id>)
    ensures worst.None? <==> results == {}
    ensures worst.Some? ==> IsWorst(worst.value, results, rank)
  {
    if results == {} {
      return None;
    }
    GreatestExists(results, rank);
    var w :| w in results && forall x :: x in results ==> rank(x) <= rank(w);
    worst := Some(w);
  }

  // The candidate heap's top; ties are broken arbitrarily.
  method PeekBest(candidates: set<Id>, rank: Id -> real) returns (c: Id)
    requires candidates != {}
    ensures IsBest(c, candidates, rank)
  {
    LeastExists(candidates, rank);
    c :| c in candidates && forall x :: x in candidates ==> rank(c) <= rank(x);
  }

  // Push an admitted node and pop the worst once past `ef`.
  method Admit(results: set<Id>, ghost from: set<Id>, x: Id, ef: nat, rank: Id -> real, ghost width: nat)
    returns (r: set<Id>)
    requires Nearest(results, from, width, rank) && x !in from
    requires width == ef || (ef == 0 && width == 1 && results != {})
    ensures Nearest(r, from + {x}, width, rank) && r <= results + {x}
    ensures |r| >= |results|
  {
    r := results + {x};
    assert |r| == |results| + 1;
    if |r| > ef {
      GreatestExists(r, rank);
      var w :| w in r && forall y :: y in r ==> rank(y) <= rank(w);
      ghost var full := r;
      r := r - {w};
      assert |r| == |full| - 1;
    }
  }

  // A scored node that cannot improve a full result set changes no heap.
  lemma SkipKeepsHeaps(
    rank: Id -> real, width: nat, filter: Filter, scored: set<Id>, pushed: set<Id>, results: set<Id>, x: Id)
    requires HeapInv(rank, width, filter, scored, pushed, results) && x !in scored
    requires width > 0 && |results| >= width && forall y :: y in results ==> rank(y) <= rank(x)
    ensures HeapInv(rank, width, filter, scored + {x}, pushed, results)
  {
    var from, after := Admitted(filter, scored), Admitted(filter, scored + {x});
    assert after == if BitAllowed(filter, x) then from + {x} else from;
    if |results| < |after| {
      assert Nearest(results, after, width, rank);
    } else {
      SubsetSize(results, after);
    }
    assert scored + {x} - pushed == (scored - pushed) + {x};
  }

  // A node may enter the beam when no skipped node is strictly nearer than it, or nothing is kept anyway.
  ghost predicate MayJoin(rank: Id -> real, width: nat, skipped: set<Id>, results: set<Id>, x: Id) {
    |results| < width || width == 0 || forall z :: z in skipped ==> rank(x) <= rank(z)
  }

  lemma BeatsWorst(
    rank: Id -> real, ef: nat, width: nat, filter: Filter, scored: set<Id>, pushed: set<Id>, results: set<Id>, x: Id,
    worst: Option<Id>)
    requires HeapInv(rank, width, filter, scored, pushed, results)
    requires width == ef || (ef == 0 && width == 1 && results != {})
    requires worst.None? <==> results == {}
    requires worst.Some? ==> IsWorst(worst.value, results, rank)
    ensures |results| < ef || worst.None? || rank(x) < rank(worst.value) ==>
              MayJoin(rank, width, scored - pushed, results, x)
    ensures !(|results| < ef || worst.None? || rank(x) < rank(worst.value)) ==>
              width > 0 && |results| >= width && forall y :: y in results ==> rank(y) <= rank(x)
  {
    assert |results| <= width;
    hide Nearest;
  }

  // A pushed node enters both heaps; the result heap stays the nearest `width` admitted.
  lemma PushKeepsHeaps(
    rank: Id -> real, width: nat, filter: Filter, scored: set<Id>, pushed: set<Id>, results: set<Id>, x: Id,
    after: set<Id>)
    requires HeapInv(rank, width, filter, scored, pushed, results) && x !in scored
    requires MayJoin(rank, width, scored - pushed, results, x)
    requires if BitAllowed(filter, x)
             then Nearest(after, Admitted(filter, scored) + {x}, width, rank) && after <= results + {x}
               && |after| >= |results|
             else after == results
    ensures HeapInv(rank, width, filter, scored + {x}, pushed + {x}, after)
  {
    var from, next := Admitted(filter, scored), Admitted(filter, scored + {x});
    assert next == if BitAllowed(filter, x) then from + {x} else from;
    assert scored + {x} - (pushed + {x}) == scored - pushed;
  }

  lemma HeapNearest(
    rank: Id -> real, width: nat, filter: Filter, scored: set<Id>, pushed: set<Id>, results: set<Id>, x: Id)
    requires HeapInv(rank, width, filter, scored, pushed, results)
    ensures Nearest(results, Admitted(filter, scored), width, rank) && results <= scored && pushed <= scored
    ensures x !in scored ==> x !in Admitted(filter, scored)
  {
  }

  // Offer one freshly scored node to the candidate and result heaps.
  method OfferNode(
    nid: Id, rank: Id -> real, ef: nat, filter: Filter, results0: set<Id>,
    ghost width: nat, ghost scored: set<Id>, ghost pushed: set<Id>)
    returns (joined: bool, results: set<Id>)
    requires HeapInv(rank, width, filter, scored, pushed, results0) && nid !in scored
    requires width == ef || (ef == 0 && width == 1 && results0 != {})
    ensures HeapInv(rank, width, filter, scored + {nid}, if joined then pushed + {nid} else pushed, results)
    ensures results0 != {} ==> results != {}
  {
    hide *;
    results := results0;
    var worst := PeekWorst(results, rank);
    BeatsWorst(rank, ef, width, filter, scored, pushed, results, nid, worst);
    joined := |results| < ef || worst.None? || rank(nid) < rank(worst.value);
    if joined {
      if BitAllowed(filter, nid) {
        HeapNearest(rank, width, filter, scored, pushed, results, nid);
        results := Admit(results, Admitted(filter, scored), nid, ef, rank, width);
      }
      PushKeepsHeaps(rank, width, filter, scored, pushed, results0, nid, results);
    } else {
      SkipKeepsHeaps(rank, width, filter, scored, pushed, results, nid);
    }
  }

  ghost predicate FreshBatch(nodes: Nodes, batch: seq<Id>, scored: set<Id>) {
    NoDup(batch) && forall x :: x in batch && x in nodes ==> x !in scored
  }

  // After `i` entries of a batch: what was scored, and which of it entered the candidate heap.
  ghost predicate BatchInv(
    nodes: Nodes, batch: seq<Id>, i: nat, scored0: set<Id>, pushed0: set<Id>, candidates0: set<Id>, visits0: nat,
    scored: set<Id>, pushed: set<Id>, candidates: set<Id>, visits: nat)
    requires i <= |batch|
  {
    && scored0 <= scored && (forall x :: x in scored - scored0 <==> x in batch[..i] && x in nodes)
    && pushed0 <= pushed && pushed <= scored && candidates == candidates0 + (pushed - pushed0)
    && pushed - pushed0 <= scored - scored0
    && visits == visits0 + |scored - scored0|
  }

  lemma BatchStart(nodes: Nodes, batch: seq<Id>, scored: set<Id>, pushed: set<Id>, candidates: set<Id>, visits: nat)
    requires pushed <= scored
    ensures BatchInv(nodes, batch, 0, scored, pushed, candidates, visits, scored, pushed, candidates, visits)
  {
    assert scored - scored == {} && pushed - pushed == {};
  }

  lemma BatchStep(
    nodes: Nodes, batch: seq<Id>, i: nat, scored0: set<Id>, pushed0: set<Id>, candidates0: set<Id>, visits0: nat,
    scored: set<Id>, pushed: set<Id>, candidates: set<Id>, visits: nat, joined: bool, pushed': set<Id>,
    candidates': set<Id>)
    requires i < |batch| && batch[i] in nodes && batch[i] !in scored
    requires BatchInv(nodes, batch, i, scored0, pushed0, candidates0, visits0, scored, pushed, candidates, visits)
    requires if joined then pushed' == pushed + {batch[i]} && candidates' == candidates + {batch[i]}
             else pushed' == pushed && candidates' == candidates
    ensures BatchInv(nodes, batch, i + 1, scored0, pushed0, candidates0, visits0, scored + {batch[i]}, pushed',
            candidates', visits + 1)
  {
    var x := batch[i];
    assert batch[..i + 1] == batch[..i] + [x];
    AddOutside(scored, scored0, x);
    AddOutside(pushed, pushed0, x);
  }

  lemma AddOutside(a: set<Id>, b: set<Id>, x: Id)
    requires x !in b
    ensures a + {x} - b == (a - b) + {x}
    ensures x !in a ==> |a + {x} - b| == |a - b| + 1
  {
    assert a + {x} - b == (a - b) + {x};
  }

  lemma BatchFresh(
    nodes: Nodes, batch: seq<Id>, i: nat, scored0: set<Id>, pushed0: set<Id>, candidates0: set<Id>, visits0: nat,
    scored: set<Id>, pushed: set<Id>, candidates: set<Id>, visits: nat)
    requires i < |batch| && FreshBatch(nodes, batch, scored0)
    requires BatchInv(nodes, batch, i, scored0, pushed0, candidates0, visits0, scored, pushed, candidates, visits)
    requires candidates0 <= pushed0
    ensures batch[i] in nodes ==> batch[i] !in scored && batch[i] !in candidates
    ensures batch[i] !in nodes ==>
              BatchInv(nodes, batch, i + 1, scored0, pushed0, candidates0, visits0, scored, pushed, candidates, visits)
  {
    assert batch[..i + 1] == batch[..i] + [batch[i]];
    NoDupPrefix(batch, i);
  }

  // The expansion's distance loop: score each fresh live neighbour and offer it to the heaps.
  method ScoreBatch(
    nodes: Nodes, rank: Id -> real, batch: seq<Id>, ef: nat, filter: Filter,
    candidates0: set<Id>, results0: set<Id>, visits0: nat,
    ghost width: nat, ghost scored0: set<Id>, ghost pushed0: set<Id>)
    returns (candidates: set<Id>, results: set<Id>, visits: nat, ghost scored: set<Id>, ghost pushed: set<Id>)
    requires HeapInv(rank, width, filter, scored0, pushed0, results0) && candidates0 <= pushed0 && pushed0 <= scored0
    requires FreshBatch(nodes, batch, scored0)
    requires width == ef || (ef == 0 && width == 1 && results0 != {})
    ensures HeapInv(rank, width, filter, scored, pushed, results)
    ensures BatchInv(nodes, batch, |batch|, scored0, pushed0, candidates0, visits0, scored, pushed, candidates, visits)
    ensures results0 != {} ==> results != {}
  {
    hide *;
    candidates, results, visits, scored, pushed := candidates0, results0, visits0, scored0, pushed0;
    BatchStart(nodes, batch, scored0, pushed0, candidates0, visits0);
    var i := 0;
    while i < |batch|
      invariant 0 <= i <= |batch|
      invariant HeapInv(rank, width, filter, scored, pushed, results)
      invariant BatchInv(nodes, batch, i, scored0, pushed0, candidates0, visits0, scored, pushed, candidates, visits)
      invariant results0 != {} ==> results != {}
    {
      var nid := batch[i];
      BatchFresh(nodes, batch, i, scored0, pushed0, candidates0, visits0, scored, pushed, candidates, visits);
      if nid in nodes {
        // the heaps can be sets because a node is scored, hence pushed, at most once
        assert nid !in scored && nid !in candidates;
        ghost var candidates1, pushed1 := candidates, pushed;
        var joined: bool;
        joined, results := OfferNode(nid, rank, ef, filter, results, width, scored, pushed);
        if joined {
          candidates, pushed := candidates + {nid}, pushed + {nid};
        }
        BatchStep(nodes, batch, i, scored0, pushed0, candidates0, visits0, scored, pushed1, candidates1, visits, joined,
          pushed, candidates);
        visits := visits + 1;
        scored := scored + {nid};
      }
      i := i + 1;
    }
  }

  // Between expansions: the heaps, what has been expanded, and how far scoring can have reached.
  ghost predicate BeamInv(
    nodes: Nodes, level: nat, rank: Id -> real, entry: Id, width: nat, filter: Filter,
    scored: set<Id>, pushed: set<Id>, candidates: set<Id>, results: set<Id>)
  {
    && entry in pushed && candidates <= pushed && pushed <= scored && scored <= nodes.Keys
    && HeapInv(rank, width, filter, scored, pushed, results)
    && Expanded(nodes, level, pushed - candidates, scored)
    && Confined(nodes, level, entry, scored)
  }

  lemma BeamStart(nodes: Nodes, level: nat, rank: Id -> real, entry: Id, ef: nat, filter: Filter)
    requires entry in nodes
    ensures var results := if BitAllowed(filter, entry) then {entry} else {};
            BeamInv(nodes, level, rank, entry, Width(ef, filter, entry), filter, {entry}, {entry}, {entry}, results)
    ensures ({} + {entry}) * nodes.Keys == {entry}
    ensures var width := Width(ef, filter, entry); width == ef || (ef == 0 && width == 1 && BitAllowed(filter, entry))
  {
    assert Admitted(filter, {entry}) == if BitAllowed(filter, entry) then {entry} else {};
  }

  // Expanding one more node keeps the scored set confined to every closed set around the entry.
  lemma ExpandKeepsConfined(nodes: Nodes, level: nat, entry: Id, scored: set<Id>, c: Id, after: set<Id>)
    requires Confined(nodes, level, entry, scored) && c in scored
    requires forall x :: x in after - scored ==> x in NeighborsAt(nodes, c, level) && x in nodes
    ensures Confined(nodes, level, entry, after)
  {
    forall t: set<Id> | entry in t && Closed(nodes, level, t) ensures after <= t {
      assert scored <= t;
    }
  }

  // Either something new was scored or the candidate heap shrank.
  ghost predicate Progress(nodes: Nodes, scored0: set<Id>, candidates0: set<Id>, scored: set<Id>, candidates: set<Id>) {
    |nodes.Keys - scored| < |nodes.Keys - scored0| || (scored == scored0 && |candidates| < |candidates0|)
  }

  lemma ProgressMade(nodes: Nodes, scored0: set<Id>, candidates0: set<Id>, scored: set<Id>, candidates: set<Id>, c: Id)
    requires scored0 <= scored && scored <= nodes.Keys && c in candidates0
    requires candidates <= (candidates0 - {c}) + (scored - scored0)
    ensures Progress(nodes, scored0, candidates0, scored, candidates)
  {
    if scored == scored0 {
      SubsetSize(candidates, candidates0 - {c});
    } else {
      assert nodes.Keys - scored0 == (nodes.Keys - scored) + (scored - scored0);
    }
  }

  // Expand one candidate: its unvisited live neighbours are scored and offered to the heaps.
  method Expand(
    nodes: Nodes, maxNodes: nat, rank: Id -> real, ghost entry: Id, ef: nat, level: nat, scratch: SearchScratch,
    filter: Filter, c: Id, candidates0: set<Id>, results0: set<Id>, visits0: nat,
    ghost width: nat, ghost scored0: set<Id>, ghost pushed0: set<Id>)
    returns (candidates: set<Id>, results: set<Id>, visits: nat, ghost scored: set<Id>, ghost pushed: set<Id>)
    requires Bounded(nodes, maxNodes)
    requires scratch.Valid() && scratch.Contents() * nodes.Keys == scored0
    requires BeamInv(nodes, level, rank, entry, width, filter, scored0, pushed0, candidates0, results0)
             && c in candidates0
    requires width == ef || (ef == 0 && width == 1 && results0 != {})
    modifies scratch
    ensures scratch.Valid() && scratch.Contents() * nodes.Keys == scored
    ensures BeamInv(nodes, level, rank, entry, width, filter, scored, pushed, candidates, results)
    ensures Progress(nodes, scored0, candidates0, scored, candidates)
    ensures visits + |scored0| == visits0 + |scored|
    ensures c in scored && scored0 <= scored
    ensures forall x :: x in scored - scored0 ==> x in NeighborsAt(nodes, c, level)
    ensures forall v :: v in NeighborsAt(nodes, c, level) && v in nodes ==> v in scored
    ensures pushed0 <= pushed && candidates == (candidates0 - {c}) + (pushed - pushed0)
    ensures results0 != {} ==> results != {}
  {
    hide HeapInv, NoDup, Confined, BitAllowed, Expanded, BatchInv, Unvisited, Elems;
    ghost var visited := scratch.Contents();
    var list := NeighborsAt(nodes, c, level);
    var nbuf, kept := CompactUnvisited(list, maxNodes, scratch);
    UnvisitedMembers(list, maxNodes, visited);
    candidates, results, visits, scored, pushed :=
      ScoreBatch(nodes, rank, nbuf[..kept], ef, filter, candidates0 - {c}, results0, visits0, width, scored0, pushed0);
    ExpandStep(nodes, maxNodes, level, rank, entry, width, filter, visited, nbuf[..kept], c,
               scored0, pushed0, candidates0, results0, visits0, scored, pushed, candidates, results, visits);
  }

  // The scored set after expanding `c` is what the visited set says, and covers c's neighbours.
  lemma ExpandScored(
    nodes: Nodes, maxNodes: nat, level: nat, visited: set<Id>, batch: seq<Id>, c: Id,
    scored0: set<Id>, pushed0: set<Id>, candidates0: set<Id>, visits0: nat,
    scored: set<Id>, pushed: set<Id>, candidates: set<Id>, visits: nat)
    requires Bounded(nodes, maxNodes) && visited * nodes.Keys == scored0
    requires forall x :: x in batch <==> x in NeighborsAt(nodes, c, level) && x < maxNodes && x !in visited
    requires BatchInv(nodes, batch, |batch|, scored0, pushed0, candidates0, visits0, scored, pushed, candidates, visits)
    ensures scored0 <= scored && scored <= nodes.Keys
    ensures (visited + Elems(batch)) * nodes.Keys == scored
    ensures forall v :: v in NeighborsAt(nodes, c, level) && v in nodes ==> v in scored
    ensures forall x :: x in scored - scored0 ==> x in NeighborsAt(nodes, c, level) && x in nodes
    ensures visits + |scored0| == visits0 + |scored|
  {
    assert batch[..|batch|] == batch;
    assert scored == scored0 + (scored - scored0);
    assert forall x :: x in scored - scored0 <==> x in batch && x in nodes;
  }

  lemma ExpandPushed(
    nodes: Nodes, batch: seq<Id>, c: Id, scored0: set<Id>, pushed0: set<Id>, candidates0: set<Id>, visits0: nat,
    scored: set<Id>, pushed: set<Id>, candidates: set<Id>, visits: nat)
    requires c in candidates0 && candidates0 <= pushed0
    requires BatchInv(nodes, batch, |batch|, scored0, pushed0, candidates0 - {c}, visits0, scored, pushed, candidates,
             visits)
    ensures pushed0 <= pushed && candidates <= pushed && pushed <= scored
    ensures pushed - candidates <= (pushed0 - candidates0) + {c}
    ensures candidates <= (candidates0 - {c}) + (scored - scored0)
    ensures candidates == (candidates0 - {c}) + (pushed - pushed0)
  {
  }

  lemma ExpandStep(
    nodes: Nodes, maxNodes: nat, level: nat, rank: Id -> real, entry: Id, width: nat, filter: Filter,
    visited: set<Id>, batch: seq<Id>, c: Id,
    scored0: set<Id>, pushed0: set<Id>, candidates0: set<Id>, results0: set<Id>, visits0: nat,
    scored: set<Id>, pushed: set<Id>, candidates: set<Id>, results: set<Id>, visits: nat)
    requires Bounded(nodes, maxNodes) && visited * nodes.Keys == scored0
    requires BeamInv(nodes, level, rank, entry, width, filter, scored0, pushed0, candidates0, results0)
             && c in candidates0
    requires forall x :: x in batch <==> x in NeighborsAt(nodes, c, level) && x < maxNodes && x !in visited
    requires HeapInv(rank, width, filter, scored, pushed, results)
    requires BatchInv(nodes, batch, |batch|, scored0, pushed0, candidates0 - {c}, visits0, scored, pushed, candidates,
             visits)
    ensures BeamInv(nodes, level, rank, entry, width, filter, scored, pushed, candidates, results)
    ensures (visited + Elems(batch)) * nodes.Keys == scored
    ensures Progress(nodes, scored0, candidates0, scored, candidates)
    ensures visits + |scored0| == visits0 + |scored|
    ensures c in scored && scored0 <= scored
    ensures forall x :: x in scored - scored0 ==> x in NeighborsAt(nodes, c, level)
    ensures forall v :: v in NeighborsAt(nodes, c, level) && v in nodes ==> v in scored
    ensures pushed0 <= pushed && candidates == (candidates0 - {c}) + (pushed - pushed0)
  {
    hide HeapInv, BatchInv, Confined, Expanded, NeighborsAt, Progress, Bounded, Elems;
    ExpandScored(nodes, maxNodes, level, visited, batch, c, scored0, pushed0, candidates0 - {c}, visits0, scored,
      pushed, candidates, visits);
    ExpandPushed(nodes, batch, c, scored0, pushed0, candidates0, visits0, scored, pushed, candidates, visits);
    ProgressMade(nodes, scored0, candidates0, scored, candidates, c);
    ExpandKeepsConfined(nodes, level, entry, scored0, c, scored);
    ExpandKeepsExpanded(nodes, level, pushed0 - candidates0, scored0, c, pushed - candidates, scored);
  }

  // Once all live neighbours of `c` are scored, `c` counts as expanded.
  lemma ExpandKeepsExpanded(
    nodes: Nodes, level: nat, expanded: set<Id>, scored: set<Id>, c: Id, expanded': set<Id>, scored': set<Id>)
    requires Expanded(nodes, level, expanded, scored) && scored <= scored'
    requires expanded' <= expanded + {c}
    requires forall v :: v in NeighborsAt(nodes, c, level) && v in nodes ==> v in scored'
    ensures Expanded(nodes, level, expanded', scored')
  {
  }

  // The loop's first exit: a full result set whose worst beats every candidate.
  ghost predicate NoneNearer(rank: Id -> real, width: nat, candidates: set<Id>, results: set<Id>) {
    candidates == {}
      || (|results| >= width && width > 0 && forall x, y :: x in candidates && y in results ==> rank(x) > rank(y))
  }

  lemma StopRule(rank: Id -> real, width: nat, candidates: set<Id>, results: set<Id>, c: Id, worst: Id)
    requires IsBest(c, candidates, rank) && IsWorst(worst, results, rank) && rank(c) > rank(worst)
    requires |results| == width
    ensures NoneNearer(rank, width, candidates, results)
  {
  }

  // With every result expanded and none pending nearer, the beam's verdict is complete.
  lemma BeamComplete(
    nodes: Nodes, level: nat, rank: Id -> real, entry: Id, width: nat, filter: Filter,
    scored: set<Id>, pushed: set<Id>, candidates: set<Id>, results: set<Id>)
    requires BeamInv(nodes, level, rank, entry, width, filter, scored, pushed, candidates, results)
    requires NoneNearer(rank, width, candidates, results)
    ensures Expanded(nodes, level, results, scored)
    ensures |results| < width || |scored| <= width ==> Closed(nodes, level, scored)
  {
    assert results !! candidates;
    if |results| < width || |scored| <= width {
      NoneUnexpanded(nodes, level, rank, entry, width, filter, scored, pushed, candidates, results);
    }
    assert Expanded(nodes, level, pushed - candidates, scored);
    hide HeapInv, Confined;
  }

  lemma NoneUnexpanded(
    nodes: Nodes, level: nat, rank: Id -> real, entry: Id, width: nat, filter: Filter,
    scored: set<Id>, pushed: set<Id>, candidates: set<Id>, results: set<Id>)
    requires BeamInv(nodes, level, rank, entry, width, filter, scored, pushed, candidates, results)
    requires NoneNearer(rank, width, candidates, results) && (|results| < width || |scored| <= width)
    ensures pushed - candidates == scored
  {
    hide Confined, Expanded;
    assert results !! candidates;
    if |results| < width {
      assert candidates == {} && scored - pushed == {};
    } else {
      SubsetSize(results, scored);
      SubsetSize(results, pushed);
      SubsetSize(pushed, scored);
      assert results == scored && candidates == {};
    }
  }

  lemma BeamSets(
    nodes: Nodes, level: nat, rank: Id -> real, entry: Id, width: nat, filter: Filter,
    scored: set<Id>, pushed: set<Id>, candidates: set<Id>, results: set<Id>)
    requires BeamInv(nodes, level, rank, entry, width, filter, scored, pushed, candidates, results)
    ensures entry in scored && scored <= nodes.Keys && results <= scored
    ensures Confined(nodes, level, entry, scored)
    ensures Nearest(results, Admitted(filter, scored), width, rank) && |results| <= width
  {
  }

  // ---- The beam as a best-first order of expansions ----

  // What has been scored once the nodes of `order` are expanded: the entry and their live neighbours.
  ghost function Seen(nodes: Nodes, level: nat, entry: Id, order: seq<Id>): set<Id> {
    set v | v in nodes && (v == entry || exists u :: u in order && v in NeighborsAt(nodes, u, level))
  }

  ghost function NearerThan(from: set<Id>, rank: Id -> real, c: Id): set<Id> {
    set x | x in from && rank(x) < rank(c)
  }

  ghost function NoFarther(from: set<Id>, rank: Id -> real, c: Id): set<Id> {
    set x | x in from && x != c && rank(x) <= rank(c)
  }

  // Of those left, the next is the nearest, and fewer than `width` of those in `from` are strictly nearer.
  ghost predicate NextAmong(rank: Id -> real, width: nat, from: set<Id>, left: set<Id>, c: Id) {
    && c in left && (forall x :: x in left ==> rank(c) <= rank(x))
    && (width > 0 ==> |NearerThan(from, rank, c)| < width)
  }

  // After the nodes of `front`, the next one expanded is the nearest one scored and not expanded yet.
  ghost predicate NextFrom(
    nodes: Nodes, level: nat, rank: Id -> real, entry: Id, width: nat, from: set<Id>, front: seq<Id>, c: Id)
  {
    NextAmong(rank, width, from, Seen(nodes, level, entry, front) - Elems(front), c)
  }

  // What the beam measures a candidate against are the admitted ones of all it has scored.
  ghost predicate NextOk(
    nodes: Nodes, level: nat, rank: Id -> real, entry: Id, width: nat, filter: Filter, front: seq<Id>, c: Id)
  {
    NextFrom(nodes, level, rank, entry, width, Admitted(filter, Seen(nodes, level, entry, front)), front, c)
  }

  ghost predicate BestFirst(
    nodes: Nodes, level: nat, rank: Id -> real, entry: Id, width: nat, filter: Filter, order: seq<Id>)
  {
    forall i :: 0 <= i < |order| ==> NextOk(nodes, level, rank, entry, width, filter, order[..i], order[i])
  }

  // Every node scored and not expanded has `width` of those in `from` that are no farther.
  ghost predicate Rests(rank: Id -> real, width: nat, from: set<Id>, scored: set<Id>, order: seq<Id>) {
    forall x :: x in scored - Elems(order) ==> width > 0 && |NoFarther(from, rank, x)| >= width
  }

  // What one beam did: where it started, which nodes it expanded in turn, all it scored, and its hits.
  datatype Look = Look(entry: Id, order: seq<Id>, scored: set<Id>, hits: seq<Scored>)

  ghost const NO_LOOK: Look := Look(0, [], {}, [])

  // It expanded best first, scored what that showed and nothing outside a closed set around the entry, and its hits are
  // the nearest of the admitted nodes it scored.
  ghost predicate LookOk(nodes: Nodes, level: nat, rank: Id -> real, ef: nat, filter: Filter, look: Look) {
    var width := Width(ef, filter, look.entry);
    && BestFirst(nodes, level, rank, look.entry, width, filter, look.order)
    && look.scored == Seen(nodes, level, look.entry, look.order)
    && look.entry in look.scored && look.scored <= nodes.Keys && Confined(nodes, level, look.entry, look.scored)
    && IsRanking(look.hits, Ids(look.hits), rank)
    && Nearest(Ids(look.hits), Admitted(filter, look.scored), width, rank)
  }

  // It ended for want of anything nearer: what it did not expand could not have improved a full result, every hit was
  // expanded, and with room left in the result it has scored everything within reach.
  ghost predicate LookDone(nodes: Nodes, level: nat, rank: Id -> real, ef: nat, filter: Filter, look: Look) {
    var width := Width(ef, filter, look.entry);
    && Rests(rank, width, Admitted(filter, look.scored), look.scored, look.order)
    && Expanded(nodes, level, Ids(look.hits), look.scored)
    && (|look.hits| < width || |look.scored| <= width ==> Closed(nodes, level, look.scored))
  }

  lemma SeenStart(nodes: Nodes, level: nat, entry: Id)
    requires entry in nodes
    ensures Seen(nodes, level, entry, []) == {entry} && Elems<Id>([]) == {}
  {
  }

  lemma SeenSnoc(nodes: Nodes, level: nat, entry: Id, order: seq<Id>, c: Id, scored: set<Id>)
    requires Seen(nodes, level, entry, order) <= scored <= nodes.Keys
    requires forall v :: v in NeighborsAt(nodes, c, level) && v in nodes ==> v in scored
    requires forall x :: x in scored - Seen(nodes, level, entry, order) ==> x in NeighborsAt(nodes, c, level)
    ensures Seen(nodes, level, entry, order + [c]) == scored
  {
    forall v | v in nodes ensures v in Seen(nodes, level, entry, order + [c]) <==> v in scored {
      if v in NeighborsAt(nodes, c, level) {
        assert c in order + [c];
      }
      if u :| u in order + [c] && v in NeighborsAt(nodes, u, level) {
        assert u in order || u == c;
      }
      if u :| u in order && v in NeighborsAt(nodes, u, level) {
        assert u in order + [c];
      }
    }
  }

  // In terms of the result heap: fewer than `width` are strictly nearer just when the heap is not full of them.
  lemma NearerOf(rank: Id -> real, width: nat, from: set<Id>, results: set<Id>, c: Id)
    requires Nearest(results, from, width, rank)
    requires |results| < width || exists y :: y in results && rank(c) <= rank(y)
    ensures |NearerThan(from, rank, c)| < width
  {
    var nearer := NearerThan(from, rank, c);
    if |results| < width {
      SubsetSize(nearer, from);
    } else {
      var y :| y in results && rank(c) <= rank(y);
      assert nearer <= results - {y};
      SubsetSize(nearer, results - {y});
    }
  }

  // The nearest candidate, when the result heap is not full of nearer ones, is next.
  lemma NextIsAmong(
    rank: Id -> real, width: nat, from: set<Id>, scored: set<Id>, pushed: set<Id>, candidates: set<Id>,
    results: set<Id>, order: seq<Id>, c: Id)
    requires Nearest(results, from, width, rank) && Skipped(results, scored - pushed, width, rank) && pushed <= scored
    requires candidates == pushed - Elems(order) && IsBest(c, candidates, rank)
    requires |results| >= width > 0 ==> exists y :: y in results && rank(c) <= rank(y)
    ensures NextAmong(rank, width, from, scored - Elems(order), c)
  {
    forall x | x in scored - Elems(order) ensures rank(c) <= rank(x) {
      assert x in candidates || x in scored - pushed;
    }
    if width > 0 {
      NearerOf(rank, width, from, results, c);
    }
    hide Nearest;
  }

  lemma NextIsFrom(
    nodes: Nodes, level: nat, rank: Id -> real, entry: Id, width: nat, from: set<Id>, scored: set<Id>, pushed: set<Id>,
    candidates: set<Id>, results: set<Id>, order: seq<Id>, c: Id)
    requires Nearest(results, from, width, rank) && Skipped(results, scored - pushed, width, rank) && pushed <= scored
    requires candidates == pushed - Elems(order) && IsBest(c, candidates, rank)
    requires scored == Seen(nodes, level, entry, order)
    requires |results| >= width > 0 ==> exists y :: y in results && rank(c) <= rank(y)
    ensures NextFrom(nodes, level, rank, entry, width, from, order, c)
  {
    hide Seen, Nearest, Skipped, NextAmong;
    NextIsAmong(rank, width, from, scored, pushed, candidates, results, order, c);
  }

  lemma NextIsOk(
    nodes: Nodes, level: nat, rank: Id -> real, entry: Id, ef: nat, width: nat, filter: Filter, scored: set<Id>,
    pushed: set<Id>, candidates: set<Id>, results: set<Id>, order: seq<Id>, c: Id, worst: Option<Id>)
    requires BeamInv(nodes, level, rank, entry, width, filter, scored, pushed, candidates, results)
    requires candidates == pushed - Elems(order) && IsBest(c, candidates, rank)
    requires scored == Seen(nodes, level, entry, order)
    requires width == ef || (ef == 0 && width == 1 && results != {})
    requires worst.None? <==> results == {}
    requires worst.Some? ==> IsWorst(worst.value, results, rank)
    requires !(|results| >= ef && worst.Some? && rank(c) > rank(worst.value))
    ensures NextOk(nodes, level, rank, entry, width, filter, order, c)
  {
    hide Seen, Nearest, Confined, Expanded, Skipped, NextFrom;
    assert |results| >= width > 0 ==> results != {} && worst.value in results;
    NextIsFrom(nodes, level, rank, entry, width, Admitted(filter, scored), scored, pushed, candidates, results, order,
      c);
  }

  lemma OrderSnoc(
    nodes: Nodes, level: nat, rank: Id -> real, entry: Id, width: nat, filter: Filter, order: seq<Id>, c: Id)
    requires BestFirst(nodes, level, rank, entry, width, filter, order)
    requires NextOk(nodes, level, rank, entry, width, filter, order, c)
    ensures BestFirst(nodes, level, rank, entry, width, filter, order + [c])
  {
    hide NextOk;
    var longer := order + [c];
    forall i | 0 <= i < |longer| ensures NextOk(nodes, level, rank, entry, width, filter, longer[..i], longer[i]) {
      assert i < |order| ==> longer[..i] == order[..i];
      assert i == |order| ==> longer[..i] == order;
    }
  }

  lemma BeamRests(
    rank: Id -> real, width: nat, from: set<Id>, scored: set<Id>, pushed: set<Id>, candidates: set<Id>,
    results: set<Id>, order: seq<Id>)
    requires NoneNearer(rank, width, candidates, results) && Nearest(results, from, width, rank)
    requires Skipped(results, scored - pushed, width, rank) && results <= pushed
    requires candidates == pushed - Elems(order)
    ensures Rests(rank, width, from, scored, order)
  {
    forall x | x in scored - Elems(order)
      ensures width > 0 && |NoFarther(from, rank, x)| >= width {
      assert x in candidates || x in scored - pushed;
      assert |results| >= width > 0 && forall y :: y in results ==> rank(y) <= rank(x);
      assert x !in results;
      SubsetSize(results, NoFarther(from, rank, x));
    }
  }

  // A budget is overrun by part of one expansion at most, and a spent one allows none.
  ghost predicate LastExpansion(nodes: Nodes, level: nat, scored: set<Id>, visits0: nat, visits: nat, budget: nat) {
    visits == visits0 || exists c :: c in scored && visits < budget + |NeighborsAt(nodes, c, level)|
  }

  lemma LastBegins(nodes: Nodes, level: nat, scored: set<Id>, visits0: nat, budget: nat)
    ensures LastExpansion(nodes, level, scored, visits0, visits0, budget)
  {
  }

  // The expansion that was begun within the budget scores no more than the node's list holds.
  lemma LastIsShort(
    nodes: Nodes, level: nat, scored0: set<Id>, c: Id, scored: set<Id>, visits0: nat, before: nat, visits: nat,
    budget: Option<nat>)
    requires c in scored && scored0 <= scored && visits + |scored0| == before + |scored|
    requires forall x :: x in scored - scored0 ==> x in NeighborsAt(nodes, c, level)
    requires budget.Some? ==> before < budget.value
    ensures budget.Some? ==> LastExpansion(nodes, level, scored, visits0, visits, budget.value)
  {
    var list := NeighborsAt(nodes, c, level);
    SubsetSize(scored - scored0, Elems(list));
    ElemsBound(list);
    assert scored == scored0 + (scored - scored0);
    assert |scored| == |scored0| + |scored - scored0|;
  }

  // The expansion loop. It ends for want of nearer candidates, or on the budget.
  method RunBeam(
    nodes: Nodes, maxNodes: nat, rank: Id -> real, entry: Id, ef: nat, level: nat,
    scratch: SearchScratch, visits0: nat, filter: Filter, budget: Option<nat>, ghost width: nat)
    returns (results: set<Id>, visits: nat, ghost scored: set<Id>, ghost pushed: set<Id>, ghost candidates': set<Id>,
            ghost order: seq<Id>)
    requires entry in nodes && Bounded(nodes, maxNodes) && width == Width(ef, filter, entry)
    requires scratch.Valid() && scratch.Contents() == {}
    modifies scratch
    ensures scratch.Valid()
    ensures visits + 1 == visits0 + |scored|
    ensures BeamInv(nodes, level, rank, entry, width, filter, scored, pushed, candidates', results)
    ensures NoneNearer(rank, width, candidates', results) || (budget.Some? && visits >= budget.value)
    ensures OrderInv(nodes, level, rank, entry, width, filter, scored, pushed, candidates', order)
    ensures budget.Some? ==> LastExpansion(nodes, level, scored, visits0, visits, budget.value)
  {
    hide *;
    BeamStart(nodes, level, rank, entry, ef, filter);
    var first := scratch.Visit(entry);
    var candidates := {entry};
    results := if BitAllowed(filter, entry) then {entry} else {};
    visits, scored, pushed, order := visits0, {entry}, {entry}, [];
    OrderStart(nodes, level, rank, entry, width, filter);
    if budget.Some? {
      LastBegins(nodes, level, scored, visits0, budget.value);
    }
    while candidates != {}
      invariant scratch.Valid() && scratch.Contents() * nodes.Keys == scored
      invariant BeamInv(nodes, level, rank, entry, width, filter, scored, pushed, candidates, results)
      invariant width == ef || (ef == 0 && width == 1 && results != {})
      invariant visits + 1 == visits0 + |scored|
      invariant OrderInv(nodes, level, rank, entry, width, filter, scored, pushed, candidates, order)
      invariant budget.Some? ==> LastExpansion(nodes, level, scored, visits0, visits, budget.value)
      decreases |nodes.Keys - scored|, |candidates|
    {
      var c := PeekBest(candidates, rank);
      var worst := PeekWorst(results, rank);
      if |results| >= ef && worst.Some? && rank(c) > rank(worst.value) {
        BeamSets(nodes, level, rank, entry, width, filter, scored, pushed, candidates, results);
        assert results != {} && |results| > 0;
        StopRule(rank, width, candidates, results, c, worst.value);
        candidates' := candidates;
        return;
      }
      if budget.Some? && visits >= budget.value {
        candidates' := candidates;
        return;
      }
      BestIsMember(c, candidates, rank);
      OrderNext(nodes, level, rank, entry, ef, width, filter, scored, pushed, candidates, results, order, c, worst);
      ghost var scored0, candidates0, pushed0, before := scored, candidates, pushed, visits;
      candidates, results, visits, scored, pushed :=
        Expand(nodes, maxNodes, rank, entry, ef, level, scratch, filter, c, candidates, results, visits, width, scored,
          pushed);
      ProgressDecreases(nodes, scored0, candidates0, scored, candidates);
      OrderStep(nodes, level, rank, entry, width, filter, scored0, pushed0, candidates0, order, c, scored, pushed,
        candidates, results);
      order := order + [c];
      LastIsShort(nodes, level, scored0, c, scored, visits0, before, visits, budget);
    }
    candidates' := candidates;
    NoneLeft(rank, width, results);
  }

  // What has been expanded so far, in order, and what is left of the candidate heap.
  ghost predicate OrderInv(
    nodes: Nodes, level: nat, rank: Id -> real, entry: Id, width: nat, filter: Filter, scored: set<Id>, pushed: set<Id>,
    candidates: set<Id>, order: seq<Id>)
  {
    && BestFirst(nodes, level, rank, entry, width, filter, order) && scored == Seen(nodes, level, entry, order)
    && candidates == pushed - Elems(order) && Elems(order) <= pushed
  }

  lemma OrderStart(nodes: Nodes, level: nat, rank: Id -> real, entry: Id, width: nat, filter: Filter)
    requires entry in nodes
    ensures OrderInv(nodes, level, rank, entry, width, filter, {entry}, {entry}, {entry}, [])
  {
    SeenStart(nodes, level, entry);
  }

  lemma OrderNext(
    nodes: Nodes, level: nat, rank: Id -> real, entry: Id, ef: nat, width: nat, filter: Filter, scored: set<Id>,
    pushed: set<Id>, candidates: set<Id>, results: set<Id>, order: seq<Id>, c: Id, worst: Option<Id>)
    requires BeamInv(nodes, level, rank, entry, width, filter, scored, pushed, candidates, results)
    requires OrderInv(nodes, level, rank, entry, width, filter, scored, pushed, candidates, order)
    requires IsBest(c, candidates, rank)
    requires width == ef || (ef == 0 && width == 1 && results != {})
    requires worst.None? <==> results == {}
    requires worst.Some? ==> IsWorst(worst.value, results, rank)
    requires !(|results| >= ef && worst.Some? && rank(c) > rank(worst.value))
    ensures c in candidates && BestFirst(nodes, level, rank, entry, width, filter, order + [c])
  {
    hide BestFirst, NextOk, BeamInv, Seen;
    NextIsOk(nodes, level, rank, entry, ef, width, filter, scored, pushed, candidates, results, order, c, worst);
    OrderSnoc(nodes, level, rank, entry, width, filter, order, c);
  }

  lemma OrderStep(
    nodes: Nodes, level: nat, rank: Id -> real, entry: Id, width: nat, filter: Filter, scored0: set<Id>,
    pushed0: set<Id>, candidates0: set<Id>, order: seq<Id>, c: Id, scored: set<Id>, pushed: set<Id>,
    candidates: set<Id>, results: set<Id>)
    requires OrderInv(nodes, level, rank, entry, width, filter, scored0, pushed0, candidates0, order)
    requires BestFirst(nodes, level, rank, entry, width, filter, order + [c])
    requires BeamInv(nodes, level, rank, entry, width, filter, scored, pushed, candidates, results)
    requires c in candidates0 && pushed0 <= pushed && candidates == (candidates0 - {c}) + (pushed - pushed0)
    requires scored0 <= scored && forall x :: x in scored - scored0 ==> x in NeighborsAt(nodes, c, level)
    requires forall v :: v in NeighborsAt(nodes, c, level) && v in nodes ==> v in scored
    ensures OrderInv(nodes, level, rank, entry, width, filter, scored, pushed, candidates, order + [c])
  {
    hide BestFirst, BeamInv, Seen, NeighborsAt;
    BeamSets(nodes, level, rank, entry, width, filter, scored, pushed, candidates, results);
    SeenSnoc(nodes, level, entry, order, c, scored);
    CandidatesLeft(order, c, pushed0, candidates0, pushed, candidates);
    hide Elems, Confined, Nearest, Admitted;
  }

  lemma CandidatesLeft(
    order: seq<Id>, c: Id, pushed0: set<Id>, candidates0: set<Id>, pushed: set<Id>, candidates: set<Id>)
    requires candidates0 == pushed0 - Elems(order) && c in candidates0 && pushed0 <= pushed
    requires candidates == (candidates0 - {c}) + (pushed - pushed0) && Elems(order) <= pushed0
    ensures candidates == pushed - Elems(order + [c]) && Elems(order + [c]) <= pushed
  {
    ElemsSnoc(order, c);
    hide Elems;
  }

  lemma ProgressDecreases(nodes: Nodes, scored0: set<Id>, candidates0: set<Id>, scored: set<Id>, candidates: set<Id>)
    requires Progress(nodes, scored0, candidates0, scored, candidates)
    ensures |nodes.Keys - scored| < |nodes.Keys - scored0| || (scored == scored0 && |candidates| < |candidates0|)
  {
  }

  lemma BestIsMember(b: Id, s: set<Id>, rank: Id -> real)
    requires IsBest(b, s, rank)
    ensures b in s
  {
  }

  lemma NoneLeft(rank: Id -> real, width: nat, results: set<Id>)
    ensures NoneNearer(rank, width, {}, results)
  {
  }

  // search_layer. `budget` None stands for the unlimited u64::MAX.
  method SearchLayer(
    nodes: Nodes, maxNodes: nat, rank: Id -> real, entry: Id, ef: nat, level: nat,
    scratch: SearchScratch, visits0: nat, filter: Filter, budget: Option<nat>)
    returns (out: seq<Scored>, visits: nat, ghost look: Look)
    requires entry in nodes && Bounded(nodes, maxNodes)
    requires scratch.Valid() && scratch.Contents() == {}
    modifies scratch
    ensures scratch.Valid()
    ensures look.entry == entry && look.hits == out && visits + 1 == visits0 + |look.scored|
    ensures LookOk(nodes, level, rank, ef, filter, look)
    ensures budget.None? || visits < budget.value ==> LookDone(nodes, level, rank, ef, filter, look)
    ensures budget.Some? ==> LastExpansion(nodes, level, look.scored, visits0, visits, budget.value)
  {
    hide *;
    ghost var width := Width(ef, filter, entry);
    ghost var scored: set<Id>, pushed: set<Id>, candidates: set<Id>, order: seq<Id>;
    var results: set<Id>;
    results, visits, scored, pushed, candidates, order :=
      RunBeam(nodes, maxNodes, rank, entry, ef, level, scratch, visits0, filter, budget, width);
    BeamSets(nodes, level, rank, entry, width, filter, scored, pushed, candidates, results);
    out := SortedHits(results, rank);
    RankingIds(out, results, rank);
    RankingSize(out, results, rank);
    look := Look(entry, order, scored, out);
    LookMade(nodes, level, rank, ef, filter, look);
    if NoneNearer(rank, width, candidates, results) {
      BeamComplete(nodes, level, rank, entry, width, filter, scored, pushed, candidates, results);
      BeamHeapsRest(nodes, level, rank, entry, width, filter, scored, pushed, candidates, results, order);
      DoneMade(nodes, level, rank, ef, filter, look);
    }
  }

  lemma BeamHeapsRest(
    nodes: Nodes, level: nat, rank: Id -> real, entry: Id, width: nat, filter: Filter, scored: set<Id>,
    pushed: set<Id>, candidates: set<Id>, results: set<Id>, order: seq<Id>)
    requires BeamInv(nodes, level, rank, entry, width, filter, scored, pushed, candidates, results)
    requires OrderInv(nodes, level, rank, entry, width, filter, scored, pushed, candidates, order)
    requires NoneNearer(rank, width, candidates, results)
    ensures Rests(rank, width, Admitted(filter, scored), scored, order)
  {
    BeamRests(rank, width, Admitted(filter, scored), scored, pushed, candidates, results, order);
  }

  lemma LookMade(nodes: Nodes, level: nat, rank: Id -> real, ef: nat, filter: Filter, look: Look)
    requires look.entry in look.scored && look.scored <= nodes.Keys && Confined(nodes, level, look.entry, look.scored)
    requires exists pushed, candidates ::
             OrderInv(nodes, level, rank, look.entry, Width(ef, filter, look.entry), filter,
             look.scored, pushed, candidates, look.order)
    requires IsRanking(look.hits, Ids(look.hits), rank)
    requires Nearest(Ids(look.hits), Admitted(filter, look.scored), Width(ef, filter, look.entry), rank)
    ensures LookOk(nodes, level, rank, ef, filter, look)
  {
  }

  lemma DoneMade(nodes: Nodes, level: nat, rank: Id -> real, ef: nat, filter: Filter, look: Look)
    requires Rests(rank, Width(ef, filter, look.entry), Admitted(filter, look.scored), look.scored, look.order)
    requires Expanded(nodes, level, Ids(look.hits), look.scored)
    requires |look.hits| < Width(ef, filter, look.entry) || |look.scored| <= Width(ef, filter, look.entry) ==>
               Closed(nodes, level, look.scored)
    ensures LookDone(nodes, level, rank, ef, filter, look)
  {
  }

  // A beam sees no more of a graph than its nodes and their lists at one level.
  lemma LookSame(a: Nodes, b: Nodes, level: nat, rank: Id -> real, ef: nat, filter: Filter, look: Look)
    requires a.Keys == b.Keys && forall u :: NeighborsAt(a, u, level) == NeighborsAt(b, u, level)
    ensures LookOk(a, level, rank, ef, filter, look) <==> LookOk(b, level, rank, ef, filter, look)
    ensures LookDone(a, level, rank, ef, filter, look) <==> LookDone(b, level, rank, ef, filter, look)
  {
    hide NeighborsAt;
    assert forall order: seq<Id> :: Seen(a, level, look.entry, order) == Seen(b, level, look.entry, order);
    assert forall t: set<Id> :: Closed(a, level, t) <==> Closed(b, level, t);
    hide Seen, Closed, Admitted, NearerThan, Nearest, IsRanking;
    assert forall front: seq<Id>, c: Id ::
      NextOk(a, level, rank, look.entry, Width(ef, filter, look.entry), filter, front, c) <==>
      NextOk(b, level, rank, look.entry, Width(ef, filter, look.entry), filter, front, c);
  }
}
