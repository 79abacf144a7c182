/** Whole runs of one handle: grow a plane record by record, then search it. */
module Run {
  import opened Core
  import opened Ranking
  import opened Scratch
  import opened Snapshot
  import opened Layers
  import opened Edits
  import opened Beam
  import opened Descent
  import opened GraphPlane
  import opened Plane
  import opened Traces

  // What a plane is created with.
  datatype Sizes = Sizes(m: nat, efConstruction: nat, optimizeRouting: real, layer0Cap: nat, maxNodes: nat)

  // What one insert brings: its random level, its distances to stored nodes, the distances between stored nodes.
  datatype Record = Record(level: nat, rank: Rank, between: Between, upperOk: bool)

  function SizesOf(g: Graph): Sizes {
    Sizes(g.m, g.efConstruction, g.optimizeRouting, g.layer0Cap, g.maxNodes)
  }

  function SettingFor(sizes: Sizes, record: Record): Setting {
    Setting(sizes.m, sizes.layer0Cap, Caps(sizes.layer0Cap, Min(2 * sizes.m, UPPER_CAP), sizes.maxNodes),
      record.between)
  }

  function GuideFor(sizes: Sizes, record: Record): Guide {
    Guide(record.rank, sizes.efConstruction, sizes.optimizeRouting)
  }

  // Every id of the plane is live.
  ghost predicate FullPlane(nodes: Nodes, maxNodes: nat) {
    forall x: Id :: x < maxNodes ==> x in nodes
  }

  // One record's part of a run: an insert from the entry point of the time, that its trace accounts for and whose
  // connections were chosen as they should be; or nothing, on a full plane.
  ghost predicate Stepped(
    before: Nodes, after: Nodes, entry: Option<EntryPoint>, sizes: Sizes, record: Record, trace: Option<Trace>) {
    match trace
    case None => after == before && FullPlane(before, sizes.maxNodes)
    case Some(t) =>
      && t.level == record.level && t.path.entry == entry
      && InsertedBy(before, after, t, record.upperOk, SettingFor(sizes, record))
      && ChosenBy(before, t, SettingFor(sizes, record), GuideFor(sizes, record))
  }

  // The entry point after the first `n` records: each insert claims it or tops it.
  function EntryOf(traces: seq<Option<Trace>>, n: nat): Option<EntryPoint>
    requires n <= |traces|
  {
    if n == 0 then None else EntryThen(EntryOf(traces, n - 1), traces[n - 1])
  }

  function EntryThen(entry: Option<EntryPoint>, trace: Option<Trace>): Option<EntryPoint> {
    if trace.None? then entry else EntryAfter(entry, trace.value.id, trace.value.level)
  }

  // A run from the empty plane: graph after graph, each made from the last by one insert.
  ghost predicate RunOf(graphs: seq<Nodes>, sizes: Sizes, records: seq<Record>, traces: seq<Option<Trace>>) {
    && |traces| == |records| && |graphs| == |records| + 1 && graphs[0] == map[]
    && forall i :: 0 <= i < |records| ==> StepAt(graphs, sizes, records, traces, i)
  }

  ghost predicate StepAt(graphs: seq<Nodes>, sizes: Sizes, records: seq<Record>, traces: seq<Option<Trace>>, i: nat)
    requires i < |records| && i < |traces| && |graphs| > i + 1
  {
    Stepped(graphs[i], graphs[i + 1], EntryOf(traces, i), sizes, records[i], traces[i])
  }

  // Insert i of the run stored less than it wanted.
  predicate DegradedAt(sizes: Sizes, record: Record, trace: Option<Trace>) {
    trace.Some? && |trace.value.connections| > 0
    && Degrades(trace.value, record.upperOk, SettingFor(sizes, record))
  }

  predicate SomeDegraded(sizes: Sizes, records: seq<Record>, traces: seq<Option<Trace>>) {
    exists i :: 0 <= i < |records| && i < |traces| && DegradedAt(sizes, records[i], traces[i])
  }

  // A reverse edge of insert i met a list at its cap.
  predicate OverflowAt(sizes: Sizes, record: Record, trace: Option<Trace>) {
    trace.Some? && AnyOverflow(trace.value.links, trace.value.id, SettingFor(sizes, record).caps)
  }

  predicate SomeOverflow(sizes: Sizes, records: seq<Record>, traces: seq<Option<Trace>>) {
    exists i :: 0 <= i < |records| && i < |traces| && OverflowAt(sizes, records[i], traces[i])
  }

  // Room for 2m in every list, and an upper entry for every record that wants one.
  predicate Roomy(sizes: Sizes, records: seq<Record>) {
    2 * sizes.m <= sizes.layer0Cap && 2 * sizes.m <= UPPER_CAP && forall i ::
      0 <= i < |records| ==> records[i].level == 0 || records[i].upperOk
  }

  // With room, a run degrades exactly when some reverse edge overflows.
  lemma RoomyDegradesByOverflow(
    graphs: seq<Nodes>, sizes: Sizes, records: seq<Record>, traces: seq<Option<Trace>>)
    requires RunOf(graphs, sizes, records, traces) && Roomy(sizes, records)
    ensures SomeDegraded(sizes, records, traces) <==>
              SomeOverflow(sizes, records, traces)
  {
    forall i | 0 <= i < |records|
      ensures DegradedAt(sizes, records[i], traces[i]) <==>
                OverflowAt(sizes, records[i], traces[i])
    {
      assert StepAt(graphs, sizes, records, traces, i);
      if traces[i].Some? {
        OnlyOverflowDegrades(graphs[i], traces[i].value, records[i].upperOk,
          SettingFor(sizes, records[i]));
      }
    }
    hide Stepped, DegradedAt, OverflowAt;
  }

  lemma RunSnoc(
    graphs: seq<Nodes>, sizes: Sizes, records: seq<Record>, traces: seq<Option<Trace>>, i: nat,
    after: Nodes, trace: Option<Trace>)
    requires i < |records| && RunOf(graphs, sizes, records[..i], traces)
    requires Stepped(graphs[i], after, EntryOf(traces, i), sizes, records[i], trace)
    ensures RunOf(graphs + [after], sizes, records[..i + 1], traces + [trace])
    ensures SomeDegraded(sizes, records[..i + 1], traces + [trace]) <==>
            SomeDegraded(sizes, records[..i], traces)
              || DegradedAt(sizes, records[i], trace)
    ensures EntryOf(traces + [trace], i + 1) == EntryThen(EntryOf(traces, i), trace)
  {
    hide Stepped, DegradedAt, EntryThen;
    EntryPrefix(traces, trace, i);
    var (gs, ts, rs) := (graphs + [after], traces + [trace], records[..i + 1]);
    forall k | 0 <= k < |ts| ensures StepAt(gs, sizes, rs, ts, k) {
      EntryPrefix(traces, trace, k);
      assert k < i ==> StepAt(graphs, sizes, records[..i], traces, k);
    }
    var (was, now) := (records[..i], records[..i + 1]);
    assert forall k :: 0 <= k < i ==> now[k] == was[k];
    if SomeDegraded(sizes, was, traces) {
      var k :| 0 <= k < |was| && DegradedAt(sizes, was[k], traces[k]);
      assert DegradedAt(sizes, now[k], (traces + [trace])[k]);
    }
    if DegradedAt(sizes, records[i], trace) {
      assert DegradedAt(sizes, now[i], (traces + [trace])[i]);
    }
  }

  lemma {:induction false} EntryPrefix(traces: seq<Option<Trace>>, trace: Option<Trace>, n: nat)
    requires n <= |traces|
    ensures EntryOf(traces + [trace], n) == EntryOf(traces, n)
  {
    if n > 0 {
      EntryPrefix(traces, trace, n - 1);
    }
  }

  lemma RunStart(sizes: Sizes, records: seq<Record>)
    ensures RunOf([map[]], sizes, records[..0], []) && !SomeDegraded(sizes, records[..0], []) && EntryOf([], 0) == None
  {
  }

  // What it takes for an insert of the run to store less than it wants, read off the records alone: a missing
  // upper entry, caps below 2m, or more records than a list holds.
  ghost predicate MayDegrade(m: nat, layer0Cap: nat, records: seq<Record>) {
    || (exists i :: 0 <= i < |records| && records[i].level > 0 && !records[i].upperOk)
    || 2 * m > layer0Cap || 2 * m > UPPER_CAP || |records| > 2 * m
  }

  // In a linked graph a list names other live nodes, once each, so small graphs have no full list.
  lemma FullListNeedsNodes(nodes: Nodes, caps: Caps, bound: nat)
    requires AllLayersLinked(nodes) && ListsOk(nodes, caps) && SomeListFull(nodes, caps)
    requires caps.layer0 >= bound && caps.upper >= bound >= 1
    ensures |nodes| > bound
  {
    var u, k: nat :| |NeighborsAt(nodes, u, k)| >= caps.At(k);
    var list := NeighborsAt(nodes, u, k);
    assert Symmetric(nodes, k) && ListOk(u, list, caps.At(k), caps.maxNodes);
    forall v | v in list ensures v in nodes.Keys - {u} {
      assert v in NeighborsAt(nodes, u, k) && v in LayerNodes(nodes, k) && u !in list;
    }
    ElemsSize(list);
    SubsetSize(Elems(list), nodes.Keys - {u});
    assert list[0] in list && u in NeighborsAt(nodes, list[0], k);
    assert u in LayerNodes(nodes, k);
    assert |nodes.Keys - {u}| == |nodes.Keys| - 1;
  }

  // A linked graph of no more nodes than records is cramped only for reasons the records show.
  lemma CrampedMeans(g: Graph, records: seq<Record>, i: nat)
    requires i < |records| && g.Valid() && g.Linked() && g.m >= 1 && |g.nodes| <= |records|
    requires g.Cramped(g.nodes, records[i].level, records[i].upperOk)
    ensures MayDegrade(g.m, g.layer0Cap, records)
  {
    if SomeListFull(g.nodes, g.Limits()) && 2 * g.m <= g.layer0Cap && 2 * g.m <= UPPER_CAP {
      FullListNeedsNodes(g.nodes, g.Limits(), 2 * g.m);
    }
  }

  // One insert of a run. While the graph is linked, either it stays so or something was cramped.
  method GrowOne(g: Graph, record: Record, scratch: SearchScratch)
    returns (found: bool, worse: bool, ghost trace: Option<Trace>)
    requires g.Valid() && scratch.Valid() && record.level <= MAX_UPPER_LEVELS
    modifies g, scratch
    ensures g.Valid() && scratch.Valid()
    ensures Stepped(old(g.nodes), g.nodes, old(g.entry), SizesOf(g), record, trace)
    ensures g.entry == EntryThen(old(g.entry), trace)
    ensures worse <==> DegradedAt(SizesOf(g), record, trace)
    ensures |g.nodes| == |old(g.nodes)| + if found then 1 else 0
    ensures found <==> trace.Some?
    ensures found <==> !FullPlane(old(g.nodes), g.maxNodes)
    ensures !found ==> g.nodes == old(g.nodes)
    ensures old(g.Linked()) && g.m >= 1 && !worse ==> g.Linked()
    ensures old(g.Linked()) && g.m >= 1 && worse ==> g.Cramped(old(g.nodes), record.level, record.upperOk)
  {
    hide *;
    ghost var before, entry0 := g.nodes, g.entry;
    var r;
    r, worse, trace := g.Insert(record.level, record.rank, record.between, record.upperOk, scratch);
    found := r.Inserted?;
    SizesApply(g, record);
    FullMeans(before, g.maxNodes);
    if trace.Some? {
      DoneSteps(before, g.nodes, entry0, r.id, trace.value, worse, SizesOf(g), record);
      KeptKeys(before, g.nodes, r.id);
    } else {
      NothingSteps(before, entry0, SizesOf(g), record);
    }
  }

  lemma SizesApply(g: Graph, record: Record)
    ensures g.SettingOf(record.between) == SettingFor(SizesOf(g), record)
    ensures g.GuideOf(record.rank) == GuideFor(SizesOf(g), record) && SizesOf(g).maxNodes == g.maxNodes
  {
  }

  lemma FullMeans(nodes: Nodes, maxNodes: nat)
    ensures FullPlane(nodes, maxNodes) <==> forall x: Id :: x < maxNodes ==> x in nodes
  {
  }

  lemma DoneSteps(
    before: Nodes, after: Nodes, entry: Option<EntryPoint>, id: Id, trace: Trace, degraded: bool, sizes: Sizes,
    record: Record)
    requires InsertDone(before, after, entry, id, record.level, trace, degraded, record.upperOk,
             SettingFor(sizes, record), GuideFor(sizes, record))
    ensures Stepped(before, after, entry, sizes, record, Some(trace)) && id !in before
    ensures EntryThen(entry, Some(trace)) == EntryAfter(entry, id, record.level)
    ensures degraded <==> DegradedAt(sizes, record, Some(trace))
  {
    hide ChosenBy, PlacedOk, LinkedThrough, Degrades, SettingFor, GuideFor;
  }

  lemma NothingSteps(nodes: Nodes, entry: Option<EntryPoint>, sizes: Sizes, record: Record)
    requires FullPlane(nodes, sizes.maxNodes)
    ensures Stepped(nodes, nodes, entry, sizes, record, None) && EntryThen(entry, None) == entry
    ensures !DegradedAt(sizes, record, None)
  {
  }

  // Inserts in sequence on one handle. `stored` is how many found an id, `degraded` exactly whether one of them
  // stored less than it wanted; `graphs` and `traces` account for the run.
  method Grow(g: Graph, records: seq<Record>, scratch: SearchScratch)
    returns (stored: nat, degraded: bool, ghost graphs: seq<Nodes>, ghost traces: seq<Option<Trace>>)
    requires g.Valid() && scratch.Valid() && g.nodes == map[] && g.entry == None
    requires forall i :: 0 <= i < |records| ==> records[i].level <= MAX_UPPER_LEVELS
    modifies g, scratch
    ensures g.Valid() && scratch.Valid()
    ensures |g.nodes| == stored <= |records|
    ensures stored < |records| ==> FullPlane(g.nodes, g.maxNodes)
    ensures RunOf(graphs, SizesOf(g), records, traces) && g.nodes == graphs[|records|]
    ensures g.entry == EntryOf(traces, |records|)
    ensures degraded <==> SomeDegraded(SizesOf(g), records, traces)
    ensures old(g.Linked()) && g.m >= 1 && !degraded ==> g.Linked()
    ensures old(g.Linked()) && g.m >= 1 && degraded ==> MayDegrade(g.m, g.layer0Cap, records)
  {
    hide *;
    stored, degraded, graphs, traces := 0, false, [map[]], [];
    var i := 0;
    RunStart(SizesOf(g), records);
    ghost var linked := g.Linked() && g.m >= 1;
    while i < |records|
      invariant 0 <= i <= |records|
      invariant g.Valid() && scratch.Valid() && stored <= i && |g.nodes| == stored
      invariant stored < i ==> FullPlane(g.nodes, g.maxNodes)
      invariant |graphs| == i + 1 && g.nodes == graphs[i]
      invariant RunOf(graphs, SizesOf(g), records[..i], traces) && |traces| == i && g.entry == EntryOf(traces, i)
      invariant degraded <==> SomeDegraded(SizesOf(g), records[..i], traces)
      invariant linked && !degraded ==> g.Linked()
      invariant linked && degraded ==> MayDegrade(g.m, g.layer0Cap, records)
    {
      if linked && !degraded && g.Cramped(g.nodes, records[i].level, records[i].upperOk) {
        CrampedMeans(g, records, i);
      }
      var found, worse;
      ghost var trace;
      found, worse, trace := GrowOne(g, records[i], scratch);
      RunSnoc(graphs, SizesOf(g), records, traces, i, g.nodes, trace);
      graphs, traces := graphs + [g.nodes], traces + [trace];
      degraded := degraded || worse;
      stored := if found then stored + 1 else stored;
      i := i + 1;
    }
    assert records[..i] == records;
  }

  // The promise of the index: build it from any records, and unless an insert had to store less than it wanted, a
  // search whose result has room for every admitted node, and whose budget covers them all, answers as an exhaustive
  // scan of the admitted does. With room in the caps that is the run in which no reverse edge met a full list, however
  // many records there are. In every run that scan is had of what is reachable from where the descent ended.
  method GrowAndSearch(
    sizes: Sizes, records: seq<Record>, rank: Rank, k: nat, ef: nat, filter: Filter, filterExpansion: nat)
    returns (hits: seq<Scored>, live: set<Id>, degraded: bool, ghost graphs: seq<Nodes>,
            ghost traces: seq<Option<Trace>>, ghost look: Look, ghost descent: seq<Look>)
    requires sizes.m >= 1 && sizes.layer0Cap >= 1 && sizes.maxNodes <= NO_ID
    requires forall i :: 0 <= i < |records| ==> records[i].level <= MAX_UPPER_LEVELS
    ensures |live| <= |records| && (|live| < |records| ==> forall x: Id :: x < sizes.maxNodes ==> x in live)
    ensures RunOf(graphs, sizes, records, traces) && live == graphs[|records|].Keys
    ensures degraded <==> SomeDegraded(sizes, records, traces)
    ensures degraded ==> MayDegrade(sizes.m, sizes.layer0Cap, records)
    ensures !degraded && Covers(filter, live, ef, Budget(ef, filterExpansion)) ==>
              BruteForce(hits, Admitted(filter, live), rank, k)
    ensures Roomy(sizes, records) && !SomeOverflow(sizes, records, traces)
            && Covers(filter, live, ef, Budget(ef, filterExpansion)) ==>
              BruteForce(hits, Admitted(filter, live), rank, k)
    ensures !degraded && filter.None? && ef >= |records| ==> BruteForce(hits, live, rank, k)
    ensures live != {} ==>
              var e := EntryOf(traces, |traces|);
              && e.Some?
              && (exists visits ::
                Searched(graphs[|records|], e.value, rank, k, ef, filter, Budget(ef, filterExpansion),
                hits, visits, look, descent))
              && Exhausts(graphs[|records|], filter, look, hits, ef, Budget(ef, filterExpansion), rank, k)
  {
    var g := new Graph(sizes.m, sizes.efConstruction, sizes.optimizeRouting, sizes.layer0Cap, sizes.maxNodes);
    var scratch := new SearchScratch();
    assert SizesOf(g) == sizes;
    var stored;
    stored, degraded, graphs, traces := Grow(g, records, scratch);
    hide g.Valid, g.Linked, RunOf, EntryOf, SomeDegraded, SomeOverflow, MayDegrade, BruteForce, Searched, Exhausts,
      Covers,
      Budget, Admitted;
    if Roomy(sizes, records) {
      RoomyDegradesByOverflow(graphs, sizes, records, traces);
    }
    var visits;
    EntryWhenLive(g);
    hits, visits, look, descent := g.Search(rank, k, ef, filter, filterExpansion, scratch);
    live := g.nodes.Keys;
    assert |live| == |g.nodes|;
    if filter.None? && ef >= |records| {
      WideIsCovered(records, live, ef, Budget(ef, filterExpansion));
    }
  }

  lemma EntryWhenLive(g: Graph)
    requires g.Valid()
    ensures g.nodes.Keys != {} ==> g.entry.Some?
  {
  }

  // With room for every record in the result, and no filter, nothing else is asked of a search.
  lemma WideIsCovered(records: seq<Record>, live: set<Id>, ef: nat, budget: nat)
    requires |live| <= |records| <= ef
    ensures Covers(None, live, ef, budget) && Admitted(None, live) == live
  {
    assert Admitted(None, live) == live;
  }
}
