/** Choosing neighbours while others write: the construction beam, the selection and the prune, with lists and distances
    that may be different at every look. */
module Racing {
  import opened Core
  import opened Ranking
  import opened Scratch
  import opened Beam
  import opened Prune

  // What a reader finds at one expansion: any list for the node, any distance or none for each neighbour.
  datatype Moment = Moment(lists: Id -> seq<Id>, dist: Id -> Option<real>)
  type World = nat -> Moment

  // A connection list for `id`: part of what was seen, no duplicates, never `id` itself, within the limit.
  ghost predicate ChosenFrom(seen: set<Id>, id: Id, list: seq<Id>, limit: nat) {
    NoDup(list) && |list| <= limit && id !in list && forall x :: x in list ==> x in seen
  }

  // A selection of `whole` that fits: what a prune may leave.
  ghost predicate PrunedTo(whole: seq<Id>, cap: nat, part: seq<Id>) {
    NoDup(part) && |part| <= cap && forall x :: x in part ==> x in whole
  }

  // Some list that was read holds it.
  ghost predicate Shown(looks: seq<seq<Id>>, x: Id) {
    exists i :: 0 <= i < |looks| && x in looks[i]
  }

  // The i-th list read is what the world showed at that moment for some node.
  ghost predicate ReadFrom(world: World, looks: seq<seq<Id>>) {
    forall i :: 0 <= i < |looks| ==> ReadAt(world, i, looks[i])
  }

  ghost predicate ReadAt(world: World, i: nat, list: seq<Id>) {
    exists c: Id :: ListAt(world, i, c, list)
  }

  ghost predicate ListAt(world: World, i: nat, c: Id, list: seq<Id>) {
    list == world(i).lists(c)
  }

  ghost function Below(n: nat): set<Id>
    requires n <= NO_ID
  {
    if n == 0 then {} else Below(n - 1) + {n - 1}
  }

  lemma {:induction false} BelowMembers(n: nat)
    requires n <= NO_ID
    ensures forall x: Id :: x in Below(n) <==> x < n
  {
    if n > 0 {
      BelowMembers(n - 1);
    }
  }

  function DistOf(dists: map<Id, real>): Id -> real {
    (x: Id) => if x in dists then dists[x] else 0.0
  }

  // The distances one expansion takes: of the listed ids not met before, those still there.
  function TakenNow(list: seq<Id>, dist: Id -> Option<real>, maxNodes: nat, met: set<Id>): map<Id, real> {
    map x | x in list && x < maxNodes && x !in met && dist(x).Some? :: dist(x).value
  }

  function NewHere(list: seq<Id>, maxNodes: nat, met: set<Id>): set<Id> {
    set x | x in list && x < maxNodes && x !in met
  }

  // What has been met, and measured, once the nodes of `order` are expanded, each at its own moment.
  function Met(world: World, entry: Id, maxNodes: nat, order: seq<Id>): set<Id> {
    if order == [] then {entry}
    else
      var i := |order| - 1;
      var before := Met(world, entry, maxNodes, order[..i]);
      before + NewHere(world(i).lists(order[i]), maxNodes, before)
  }

  function Measured(world: World, entry: Id, dist: real, maxNodes: nat, order: seq<Id>): map<Id, real> {
    if order == [] then map[entry := dist]
    else
      var i := |order| - 1;
      Measured(world, entry, dist, maxNodes, order[..i]) +
      TakenNow(world(i).lists(order[i]), world(i).dist, maxNodes, Met(world, entry, maxNodes, order[..i]))
  }

  // Each node expanded was the nearest measured and not expanded, by the distances read, with fewer than `width`
  // strictly nearer.
  ghost predicate RacingNext(
    world: World, entry: Id, dist: real, maxNodes: nat, width: nat, order: seq<Id>, i: nat)
    requires i < |order|
  {
    var known := Measured(world, entry, dist, maxNodes, order[..i]);
    NextAmong(DistOf(known), width, known.Keys, known.Keys - Elems(order[..i]), order[i])
  }

  ghost predicate RacingOrder(world: World, entry: Id, dist: real, maxNodes: nat, width: nat, order: seq<Id>) {
    forall i :: 0 <= i < |order| ==> RacingNext(world, entry, dist, maxNodes, width, order, i)
  }

  // A whole beam beside other writers: best first by the distances read, until nothing measured and not expanded could
  // improve a full result; its hits are the nearest of all it measured.
  ghost predicate Raced(
    world: World, entry: Id, dist: real, maxNodes: nat, ef: nat, order: seq<Id>, hits: seq<Scored>)
  {
    var (known, width) := (Measured(world, entry, dist, maxNodes, order), RacingWidth(ef));
    && RacingOrder(world, entry, dist, maxNodes, width, order)
    && IsRanking(hits, Ids(hits), DistOf(known)) && Nearest(Ids(hits), known.Keys, width, DistOf(known))
    && Rests(DistOf(known), width, known.Keys, known.Keys, order)
  }

  function RacingWidth(ef: nat): nat {
    if ef == 0 then 1 else ef
  }

  // The lists that were read, in turn.
  function ListsRead(world: World, order: seq<Id>): seq<seq<Id>> {
    seq(|order|, i requires 0 <= i < |order| => world(i).lists(order[i]))
  }

  // ---- One expansion's distance loop ----

  ghost predicate Heaps(
    known: map<Id, real>, pushed: set<Id>, candidates: set<Id>, results: set<Id>, order: seq<Id>, ef: nat)
  {
    && HeapInv(DistOf(known), RacingWidth(ef), None, known.Keys, pushed, results)
    && candidates == pushed - Elems(order) && Elems(order) <= pushed && results != {}
  }

  // A distance read for a new id changes none of those read before.
  lemma KnowsOneMore(known: map<Id, real>, x: Id, d: real, pushed: set<Id>, results: set<Id>, width: nat)
    requires HeapInv(DistOf(known), width, None, known.Keys, pushed, results) && x !in known
    ensures HeapInv(DistOf(known[x := d]), width, None, known.Keys, pushed, results) && DistOf(known[x := d])(x) == d
  {
    var (rank, rank') := (DistOf(known), DistOf(known[x := d]));
    assert forall y :: y in known ==> rank(y) == rank'(y);
    assert Admitted(None, known.Keys) == known.Keys;
  }

  // What the loop has taken of the first `i` neighbours.
  ghost predicate Scoring(
    batch: seq<Id>, dist: Id -> Option<real>, i: nat, known0: map<Id, real>, known: map<Id, real>)
  {
    && i <= |batch| && known0.Keys <= known.Keys
    && (forall x :: x in known <==> x in known0 || (x in batch[..i] && dist(x).Some?))
    && (forall x :: x in known0 ==> known[x] == known0[x])
    && (forall x :: x in known && x !in known0 ==> dist(x) == Some(known[x]))
  }

  lemma ScoringStep(
    batch: seq<Id>, dist: Id -> Option<real>, i: nat, known0: map<Id, real>, known: map<Id, real>)
    requires Scoring(batch, dist, i, known0, known) && i < |batch| && NoDup(batch)
    requires forall x :: x in batch ==> x !in known0
    ensures batch[i] !in known
    ensures Scoring(batch, dist, i + 1, known0,
                    if dist(batch[i]).Some? then known[batch[i] := dist(batch[i]).value] else known)
  {
    NoDupPrefix(batch, i);
    assert batch[..i + 1] == batch[..i] + [batch[i]];
  }

  // A neighbour that is gone by now is passed over.
  method ScoreRacing(
    batch: seq<Id>, dist: Id -> Option<real>, ef: nat, candidates0: set<Id>, results0: set<Id>, known0: map<Id, real>,
    ghost pushed0: set<Id>, ghost order: seq<Id>)
    returns (candidates: set<Id>, results: set<Id>, known: map<Id, real>, ghost pushed: set<Id>)
    requires NoDup(batch) && forall x :: x in batch ==> x !in known0
    requires Heaps(known0, pushed0, candidates0, results0, order, ef)
    ensures Heaps(known, pushed, candidates, results, order, ef)
    ensures Scoring(batch, dist, |batch|, known0, known) && pushed0 <= pushed
    ensures candidates <= candidates0 + Elems(batch)
  {
    candidates, results, known, pushed := candidates0, results0, known0, pushed0;
    var i := 0;
    hide HeapInv, NoDup, Nearest, Skipped;
    while i < |batch|
      invariant 0 <= i <= |batch|
      invariant Heaps(known, pushed, candidates, results, order, ef)
      invariant Scoring(batch, dist, i, known0, known) && pushed0 <= pushed
      invariant candidates <= candidates0 + Elems(batch)
    {
      var nid := batch[i];
      var d := dist(nid);
      ScoringStep(batch, dist, i, known0, known);
      if d.Some? {
        ghost var was := known;
        KnowsOneMore(known, nid, d.value, pushed, results, RacingWidth(ef));
        HeapsFresh(known, pushed, candidates, results, order, ef, nid);
        known := known[nid := d.value];
        var joined;
        joined, results := OfferNode(nid, DistOf(known), ef, None, results, RacingWidth(ef), was.Keys, pushed);
        assert known.Keys == was.Keys + {nid};
        if joined {
          candidates, pushed := candidates + {nid}, pushed + {nid};
        }
      }
      i := i + 1;
    }
  }

  lemma HeapsFresh(
    known: map<Id, real>, pushed: set<Id>, candidates: set<Id>, results: set<Id>, order: seq<Id>, ef: nat, x: Id)
    requires Heaps(known, pushed, candidates, results, order, ef) && x !in known
    ensures x !in pushed && x !in candidates && x !in Elems(order)
  {
  }

  // ---- The beam ----

  // search_layer as an insert runs it beside other writers: the hits are the nearest of all it measured, by the
  // distances read, and each is the entry or was in some list that was read.
  method RacingBeam(world: World, entry: Id, dist: real, ef: nat, maxNodes: nat, scratch: SearchScratch)
    returns (hits: seq<Scored>, ghost order: seq<Id>)
    requires scratch.Valid() && scratch.Contents() == {} && entry < maxNodes <= NO_ID
    modifies scratch
    ensures scratch.Valid()
    ensures Raced(world, entry, dist, maxNodes, ef, order, hits)
    ensures DistinctIds(hits) && SortedByDist(hits) && |hits| <= if ef == 0 then 1 else ef
    ensures Ids(hits) <= Met(world, entry, maxNodes, order)
  {
    hide *;
    var first := scratch.Visit(entry);
    var candidates: set<Id>, results: set<Id> := {entry}, {entry};
    var known: map<Id, real> := map[entry := dist];
    ghost var pushed := {entry};
    order := [];
    var i := 0;
    RacingStart(world, entry, dist, ef, maxNodes);
    while candidates != {}
      invariant scratch.Valid() && scratch.Contents() == Met(world, entry, maxNodes, order) && i == |order|
      invariant RacingInv(world, entry, dist, maxNodes, ef, order, known, pushed, candidates, results)
      decreases |Below(maxNodes) - Met(world, entry, maxNodes, order)|, |candidates|
    {
      var c := PeekBest(candidates, DistOf(known));
      var worst := PeekWorst(results, DistOf(known));
      if |results| >= ef && worst.Some? && DistOf(known)(c) > DistOf(known)(worst.value) {
        RacingStops(world, entry, dist, maxNodes, ef, order, known, pushed, candidates, results, c, worst.value);
        break;
      }
      RacingGoes(world, entry, dist, maxNodes, ef, order, known, pushed, candidates, results, c, worst);
      ghost var (candidates0, met0) := (candidates, Met(world, entry, maxNodes, order));
      candidates, results, known, pushed :=
        RacingExpand(world, entry, dist, ef, maxNodes, scratch, i, c, candidates, results, known, pushed, order);
      order := order + [c];
      FartherMeans(maxNodes, met0, Met(world, entry, maxNodes, order), candidates0, candidates);
      i := i + 1;
    }
    hits := SortedHits(results, DistOf(known));
    RacingDone(world, entry, dist, maxNodes, ef, order, known, pushed, candidates, results, hits);
  }

  // Expand one candidate, at the moment it is.
  method RacingExpand(
    world: World, ghost entry: Id, ghost dist: real, ef: nat, maxNodes: nat, scratch: SearchScratch, i: nat, c: Id,
    candidates0: set<Id>, results0: set<Id>, known0: map<Id, real>, ghost pushed0: set<Id>, ghost order: seq<Id>)
    returns (candidates: set<Id>, results: set<Id>, known: map<Id, real>, ghost pushed: set<Id>)
    requires scratch.Valid() && scratch.Contents() == Met(world, entry, maxNodes, order) && i == |order|
    requires RacingInv(world, entry, dist, maxNodes, ef, order, known0, pushed0, candidates0, results0)
    requires RacingOrder(world, entry, dist, maxNodes, RacingWidth(ef), order + [c]) && c in candidates0
    requires maxNodes <= NO_ID
    modifies scratch
    ensures scratch.Valid() && scratch.Contents() == Met(world, entry, maxNodes, order + [c])
    ensures RacingInv(world, entry, dist, maxNodes, ef, order + [c], known, pushed, candidates, results)
    ensures Farther(maxNodes, Met(world, entry, maxNodes, order), Met(world, entry, maxNodes, order + [c]), candidates0,
              candidates)
  {
    hide *;
    var list := world(i).lists(c);
    ghost var met := Met(world, entry, maxNodes, order);
    var nbuf, kept := CompactUnvisited(list, maxNodes, scratch);
    UnvisitedMembers(list, maxNodes, met);
    var batch := nbuf[..kept];
    RacingReady(world, entry, dist, maxNodes, ef, order, known0, pushed0, candidates0, results0, c, batch);
    candidates, results, known, pushed :=
      ScoreRacing(batch, world(i).dist, ef, candidates0 - {c}, results0, known0, pushed0, order + [c]);
    RacingStep(world, entry, dist, maxNodes, ef, order, c, batch, candidates0, known0, known, pushed, candidates,
      results);
  }

  // More has been met, or fewer candidates are left.
  ghost predicate Farther(maxNodes: nat, met0: set<Id>, met: set<Id>, candidates0: set<Id>, candidates: set<Id>)
    requires maxNodes <= NO_ID
  {
    |Below(maxNodes) - met| < |Below(maxNodes) - met0|
    || (|Below(maxNodes) - met| == |Below(maxNodes) - met0| && |candidates| < |candidates0|)
  }

  lemma FartherMeans(maxNodes: nat, met0: set<Id>, met: set<Id>, candidates0: set<Id>, candidates: set<Id>)
    requires maxNodes <= NO_ID && Farther(maxNodes, met0, met, candidates0, candidates)
    ensures |Below(maxNodes) - met| < |Below(maxNodes) - met0|
            || (|Below(maxNodes) - met| == |Below(maxNodes) - met0| && |candidates| < |candidates0|)
  {
  }

  // Between expansions.
  ghost predicate RacingInv(
    world: World, entry: Id, dist: real, maxNodes: nat, ef: nat, order: seq<Id>, known: map<Id, real>,
    pushed: set<Id>, candidates: set<Id>, results: set<Id>)
  {
    && known == Measured(world, entry, dist, maxNodes, order)
    && known.Keys <= Met(world, entry, maxNodes, order)
    && RacingOrder(world, entry, dist, maxNodes, RacingWidth(ef), order)
    && Heaps(known, pushed, candidates, results, order, ef)
  }

  lemma RacingStart(world: World, entry: Id, dist: real, ef: nat, maxNodes: nat)
    ensures RacingInv(world, entry, dist, maxNodes, ef, [], map[entry := dist], {entry}, {entry}, {entry})
    ensures {} + {entry} == Met(world, entry, maxNodes, [])
  {
    assert Admitted(None, {entry}) == {entry};
    assert map[entry := dist].Keys == {entry};
  }

  // A full result of nearer ones ends it.
  lemma RacingStops(
    world: World, entry: Id, dist: real, maxNodes: nat, ef: nat, order: seq<Id>, known: map<Id, real>, pushed: set<Id>,
    candidates: set<Id>, results: set<Id>, c: Id, worst: Id)
    requires RacingInv(world, entry, dist, maxNodes, ef, order, known, pushed, candidates, results)
    requires IsBest(c, candidates, DistOf(known)) && IsWorst(worst, results, DistOf(known))
    requires |results| >= ef && DistOf(known)(c) > DistOf(known)(worst)
    ensures NoneNearer(DistOf(known), RacingWidth(ef), candidates, results)
  {
    assert |results| <= RacingWidth(ef) && |results| > 0;
    StopRule(DistOf(known), RacingWidth(ef), candidates, results, c, worst);
  }

  lemma RacingGoes(
    world: World, entry: Id, dist: real, maxNodes: nat, ef: nat, order: seq<Id>, known: map<Id, real>, pushed: set<Id>,
    candidates: set<Id>, results: set<Id>, c: Id, worst: Option<Id>)
    requires RacingInv(world, entry, dist, maxNodes, ef, order, known, pushed, candidates, results)
    requires IsBest(c, candidates, DistOf(known)) && (worst.None? <==> results == {})
    requires worst.Some? ==> IsWorst(worst.value, results, DistOf(known))
    requires !(|results| >= ef && worst.Some? && DistOf(known)(c) > DistOf(known)(worst.value))
    ensures c in candidates && RacingOrder(world, entry, dist, maxNodes, RacingWidth(ef), order + [c])
  {
    var (rank, width, more) := (DistOf(known), RacingWidth(ef), order + [c]);
    assert Admitted(None, known.Keys) == known.Keys;
    assert |results| >= width ==> worst.value in results && rank(c) <= rank(worst.value);
    NextIsAmong(rank, width, known.Keys, known.Keys, pushed, candidates, results, order, c);
    hide NextAmong, Measured, Heaps, Nearest, Skipped, HeapInv;
    forall i | 0 <= i < |more| ensures RacingNext(world, entry, dist, maxNodes, width, more, i) {
      assert i < |order| ==> more[..i] == order[..i] && RacingNext(world, entry, dist, maxNodes, width, order, i);
      assert i == |order| ==> more[..i] == order;
    }
  }

  lemma RacingReady(
    world: World, entry: Id, dist: real, maxNodes: nat, ef: nat, order: seq<Id>, known: map<Id, real>, pushed: set<Id>,
    candidates: set<Id>, results: set<Id>, c: Id, batch: seq<Id>)
    requires RacingInv(world, entry, dist, maxNodes, ef, order, known, pushed, candidates, results) && c in candidates
    requires forall x :: x in batch ==> x !in Met(world, entry, maxNodes, order)
    ensures Heaps(known, pushed, candidates - {c}, results, order + [c], ef) && forall x :: x in batch ==> x !in known
    ensures known == Measured(world, entry, dist, maxNodes, order) && known.Keys <= Met(world, entry, maxNodes, order)
  {
    ElemsSnoc(order, c);
    hide HeapInv, Measured, Met, RacingOrder, Elems;
  }

  lemma RacingStep(
    world: World, entry: Id, dist: real, maxNodes: nat, ef: nat, order0: seq<Id>, c: Id, batch: seq<Id>,
    candidates0: set<Id>, known0: map<Id, real>, known: map<Id, real>, pushed: set<Id>, candidates: set<Id>,
    results: set<Id>)
    requires known0 == Measured(world, entry, dist, maxNodes, order0) && maxNodes <= NO_ID && c in candidates0
    requires known0.Keys <= Met(world, entry, maxNodes, order0)
    requires forall x :: x in batch <==>
               x in world(|order0|).lists(c) && x < maxNodes && x !in Met(world, entry, maxNodes, order0)
    requires Scoring(batch, world(|order0|).dist, |batch|, known0, known)
    requires RacingOrder(world, entry, dist, maxNodes, RacingWidth(ef), order0 + [c])
    requires Heaps(known, pushed, candidates, results, order0 + [c], ef)
    requires candidates <= candidates0 - {c} + Elems(batch)
    ensures RacingInv(world, entry, dist, maxNodes, ef, order0 + [c], known, pushed, candidates, results)
    ensures Met(world, entry, maxNodes, order0) + Elems(batch) == Met(world, entry, maxNodes, order0 + [c])
    ensures Farther(maxNodes, Met(world, entry, maxNodes, order0), Met(world, entry, maxNodes, order0 + [c]),
            candidates0, candidates)
  {
    hide Heaps, RacingOrder, Below;
    KnownThen(world, entry, dist, maxNodes, order0, c, batch, known0, known);
    BelowMembers(maxNodes);
    hide Met, Measured, Scoring;
    RacingProgress(maxNodes, Met(world, entry, maxNodes, order0), Elems(batch), candidates0, c, candidates);
  }

  lemma KnownThen(
    world: World, entry: Id, dist: real, maxNodes: nat, order0: seq<Id>, c: Id, batch: seq<Id>,
    known0: map<Id, real>, known: map<Id, real>)
    requires known0 == Measured(world, entry, dist, maxNodes, order0)
    requires known0.Keys <= Met(world, entry, maxNodes, order0)
    requires forall x :: x in batch <==>
               x in world(|order0|).lists(c) && x < maxNodes && x !in Met(world, entry, maxNodes, order0)
    requires Scoring(batch, world(|order0|).dist, |batch|, known0, known)
    ensures known == Measured(world, entry, dist, maxNodes, order0 + [c])
    ensures Met(world, entry, maxNodes, order0) + Elems(batch) == Met(world, entry, maxNodes, order0 + [c])
    ensures known.Keys <= Met(world, entry, maxNodes, order0 + [c])
    ensures Elems(batch) !! Met(world, entry, maxNodes, order0) && forall x :: x in batch ==> x < maxNodes
  {
    var (more, i) := (order0 + [c], |order0|);
    assert more[..i] == order0 && more[i] == c && batch[..|batch|] == batch;
    var met := Met(world, entry, maxNodes, order0);
    var taken := TakenNow(world(i).lists(c), world(i).dist, maxNodes, met);
    assert Elems(batch) == NewHere(world(i).lists(c), maxNodes, met);
    assert known.Keys == (known0 + taken).Keys;
    forall x | x in known ensures known[x] == (known0 + taken)[x] {
      assert x in taken ==> x !in known0;
    }
    assert known == known0 + taken;
  }

  lemma RacingDone(
    world: World, entry: Id, dist: real, maxNodes: nat, ef: nat, order: seq<Id>, known: map<Id, real>, pushed: set<Id>,
    candidates: set<Id>, results: set<Id>, hits: seq<Scored>)
    requires RacingInv(world, entry, dist, maxNodes, ef, order, known, pushed, candidates, results)
    requires candidates == {} || NoneNearer(DistOf(known), RacingWidth(ef), candidates, results)
    requires IsRanking(hits, results, DistOf(known))
    ensures Raced(world, entry, dist, maxNodes, ef, order, hits)
    ensures DistinctIds(hits) && SortedByDist(hits) && |hits| <= if ef == 0 then 1 else ef
    ensures Ids(hits) <= Met(world, entry, maxNodes, order)
  {
    RankingIds(hits, results, DistOf(known));
    RankingSize(hits, results, DistOf(known));
    assert Admitted(None, known.Keys) == known.Keys;
    NoneLeft(DistOf(known), RacingWidth(ef), results);
    hide RacingOrder, Measured, Met, Rests, NoneNearer;
    BeamRests(DistOf(known), RacingWidth(ef), known.Keys, known.Keys, pushed, candidates, results, order);
  }

  // Either something new was marked or a candidate went.
  lemma RacingProgress(
    maxNodes: nat, visited: set<Id>, batch: set<Id>, candidates0: set<Id>, c: Id, candidates: set<Id>)
    requires maxNodes <= NO_ID && batch <= Below(maxNodes) && batch !! visited && c in candidates0
    requires candidates <= candidates0 - {c} + batch
    ensures |Below(maxNodes) - (visited + batch)| < |Below(maxNodes) - visited|
            || (batch == {} && |candidates| < |candidates0|)
  {
    if batch == {} {
      SubsetSize(candidates, candidates0 - {c});
    } else {
      var before, after := Below(maxNodes) - visited, Below(maxNodes) - (visited + batch);
      assert before == after + batch;
    }
  }

  // What was met was shown by a list that was read, but for the entry.
  lemma {:induction false} MetIsShown(world: World, entry: Id, maxNodes: nat, order: seq<Id>)
    ensures ReadFrom(world, ListsRead(world, order))
    ensures forall x :: x in Met(world, entry, maxNodes, order) - {entry} ==>
                          Shown(ListsRead(world, order), x) && x < maxNodes
  {
    var looks := ListsRead(world, order);
    forall i | 0 <= i < |looks| ensures ReadAt(world, i, looks[i]) {
      assert ListAt(world, i, order[i], looks[i]);
    }
    if order != [] {
      var i := |order| - 1;
      MetIsShown(world, entry, maxNodes, order[..i]);
      forall x | x in Met(world, entry, maxNodes, order) - {entry} ensures Shown(looks, x) && x < maxNodes {
        if x in Met(world, entry, maxNodes, order[..i]) {
          var front := ListsRead(world, order[..i]);
          assert Shown(front, x);
          var j :| 0 <= j < |front| && x in front[j];
          assert front[j] == looks[j];
        } else {
          assert x in looks[i];
        }
      }
    }
  }

  // ---- The selection ----

  // The candidate at position `i` is taken. Whether it is skipped hangs on lists and distances that may have changed
  // since, so with optimizeRouting it is any function of its position.
  predicate TakenAt(
    neighbors: seq<Scored>, id: Id, m: nat, level: nat, optimize: bool, skip: nat -> bool, i: nat)
  {
    i < |neighbors| && neighbors[i].id != id && if optimize then !skip(i) else i < if level > 0 then m else 2 * m
  }

  // The candidates taken of the first `n`, in their order.
  function Taking(
    neighbors: seq<Scored>, id: Id, m: nat, level: nat, optimize: bool, skip: nat -> bool, n: nat): seq<Id>
    requires n <= |neighbors|
  {
    if n == 0 then []
    else
      Taking(neighbors, id, m, level, optimize, skip, n - 1)
        + if TakenAt(neighbors, id, m, level, optimize, skip, n - 1) then [neighbors[n - 1].id] else []
  }

  // The selection over the nearest 2m hits.
  method RacingSelect(
    hits: seq<Scored>, id: Id, m: nat, level: nat, optimize: bool, skip: nat -> bool) returns (conns: seq<Id>)
    requires DistinctIds(hits)
    ensures ChosenFrom(Ids(hits), id, conns, 2 * m)
    ensures conns == Taking(Truncate(hits, 2 * m), id, m, level, optimize, skip, Min(2 * m, |hits|))
  {
    var neighbors := Truncate(hits, 2 * m);
    conns := [];
    var i := 0;
    while i < |neighbors|
      invariant 0 <= i <= |neighbors| && |conns| <= i
      invariant NoDup(conns) && id !in conns
      invariant forall x :: x in conns ==> exists j :: 0 <= j < i && neighbors[j].id == x
      invariant conns == Taking(neighbors, id, m, level, optimize, skip, i)
    {
      var nid := neighbors[i].id;
      var taken := nid != id && if optimize then !skip(i) else i < if level > 0 then m else 2 * m;
      if taken {
        forall x | x in conns ensures x != nid {
          var j :| 0 <= j < i && neighbors[j].id == x;
        }
        NoDupSnoc(conns, nid);
        conns := conns + [nid];
      }
      i := i + 1;
    }
    forall x | x in conns ensures x in Ids(hits) {
      var j :| 0 <= j < i && neighbors[j].id == x;
      assert hits[j].id == x;
    }
  }

  // One level of an insert, whatever the others do meanwhile: what it may link to. The candidates are the nearest 2m of
  // the beam's hits, by the distances read.
  method RacingLevel(
    world: World, entry: Id, dist: real, id: Id, m: nat, ef: nat, level: nat, optimize: bool, skip: nat -> bool,
    maxNodes: nat, scratch: SearchScratch)
    returns (conns: seq<Id>, ghost seen: set<Id>, ghost looks: seq<seq<Id>>, ghost order: seq<Id>,
            ghost hits: seq<Scored>)
    requires scratch.Valid() && scratch.Contents() == {} && entry < maxNodes <= NO_ID
    modifies scratch
    ensures scratch.Valid() && ChosenFrom({entry} + seen, id, conns, 2 * m)
    ensures Raced(world, entry, dist, maxNodes, ef, order, hits) && looks == ListsRead(world, order)
    ensures conns == Taking(Truncate(hits, 2 * m), id, m, level, optimize, skip, Min(2 * m, |hits|))
    ensures ReadFrom(world, looks) && forall x :: x in seen ==> Shown(looks, x) && x < maxNodes
  {
    var found;
    found, order := RacingBeam(world, entry, dist, ef, maxNodes, scratch);
    hits, looks := found, ListsRead(world, order);
    seen := Met(world, entry, maxNodes, order) - {entry};
    MetIsShown(world, entry, maxNodes, order);
    hide Raced, Met, Taking;
    conns := RacingSelect(found, id, m, level, optimize, skip);
    assert {entry} + seen >= Met(world, entry, maxNodes, order);
  }

  // A prune beside other writers: distances between members may change from one hunt to the next, so the victim
  // may be any of the last sixteen.
  ghost predicate RacesTo(all: seq<Scored>, kept: seq<Scored>, cap: nat)
    decreases |all|
  {
    if |all| <= cap then kept == all
    else exists v :: CheckFrom(|all|) <= v < |all| && RacesTo(RemoveAt(all, v), kept, cap)
  }

  // With distances that stand still it is the prune of Prune.
  lemma {:induction false} EvictsRaces(between: Between, all: seq<Scored>, kept: seq<Scored>, cap: nat)
    requires EvictsTo(between, all, kept, cap)
    ensures RacesTo(all, kept, cap)
    decreases |all|
  {
    if |all| > cap {
      var v: nat :| IsVictim(between, all, v) && EvictsTo(between, RemoveAt(all, v), kept, cap);
      assert |RemoveAt(all, v)| == |all| - 1;
      EvictsRaces(between, RemoveAt(all, v), kept, cap);
    }
  }

  lemma {:induction false} RacesKeeps(all: seq<Scored>, kept: seq<Scored>, cap: nat)
    requires RacesTo(all, kept, cap) && SortedByDist(all)
    ensures |kept| == Min(cap, |all|) <= cap && SortedByDist(kept) && multiset(kept) <= multiset(all)
    ensures forall i :: 0 <= i < |kept| && i + HUNT <= cap ==> kept[i] == all[i]
    decreases |all|
  {
    if |all| > cap {
      var v: nat :| CheckFrom(|all|) <= v < |all| && RacesTo(RemoveAt(all, v), kept, cap);
      RemoveAtKeeps(all, v);
      hide SortedByDist, RemoveAt;
      assert |RemoveAt(all, v)| == |all| - 1;
      RacesKeeps(RemoveAt(all, v), kept, cap);
    }
  }

  // However the distances move, a prune leaves a duplicate-free part of the list, within the cap.
  lemma RacingPruneFits(between: Between, base: Id, list: seq<Id>, kept: seq<Scored>, cap: nat)
    requires NoDup(list) && RacesTo(SortByDist(ScoreLive(between, base, list)), kept, cap)
    ensures PrunedTo(list, cap, IdsOf(kept))
  {
    hide *;
    var live := ScoreLive(between, base, list);
    SortSorts(live);
    RacesKeeps(SortByDist(live), kept, cap);
    ScoreLiveOnce(between, base, list);
    OnceSmaller(multiset(live), multiset(kept));
    OnceMeansDistinct(kept);
    IdsOfDistinct(kept, live, list);
    Fits(list, cap, IdsOf(kept));
  }

  lemma Fits(whole: seq<Id>, cap: nat, part: seq<Id>)
    requires NoDup(part) && |part| <= cap && forall x :: x in part ==> x in whole
    ensures PrunedTo(whole, cap, part)
  {
  }
}
