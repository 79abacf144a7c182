/** What one insert did to the graph, step by step: the exact effect of each reverse edge, and which of them overflowed.
    */
module Traces {
  import opened Core
  import opened Ranking
  import opened Snapshot
  import opened Edits
  import opened Beam
  import opened Descent
  import opened Selection
  import opened GraphPlane
  import Prune

  // One reverse edge from `nid` to the new node: the graph it found and the graph it left.
  datatype Link = Link(nid: Id, level: nat, before: Nodes, after: Nodes)

  // One insert: its connections and the edges selection cut, the graph once the node is written, the reverse edges.
  datatype Trace = Trace(
    id: Id, level: nat, connections: seq<seq<Scored>>, cuts: seq<set<Pair>>, placed: Nodes, links: seq<Link>,
    path: Path)

  // How it found its candidates: from which entry point, down by which beams, and by which beam at each level it shares
  // with the graph.
  datatype Path = Path(entry: Option<EntryPoint>, descent: seq<Look>, looks: seq<Look>)

  // What guides the choice of connections: the new vector's distances, the beam's width, the tolerance of the routing.
  datatype Guide = Guide(rank: Rank, efConstruction: nat, optimizeRouting: real)

  // The sizes a plane is created with, and how the distances between stored nodes fall.
  datatype Setting = Setting(m: nat, layer0Cap: nat, caps: Caps, between: Between)

  // An upper entry holds 64 ids a level, whatever the list it is given.
  function Fit(list: seq<Id>, level: nat): seq<Id> {
    if level > 0 then Truncate(list, UPPER_CAP) else list
  }

  function CapAt(cfg: Setting, level: nat): nat {
    if level == 0 then cfg.layer0Cap else 2 * cfg.m
  }

  // What the prune makes of a list: the list itself while it fits the cap, else what repeated evictions leave.
  ghost predicate PrunedAs(between: Prune.Between, nid: Id, whole: seq<Id>, cap: nat, pruned: seq<Id>) {
    if |whole| <= cap then pruned == whole
    else
      exists kept :: Prune.EvictsTo(between, Prune.SortByDist(Prune.ScoreLive(between, nid, whole)), kept, cap)
                     && pruned == Prune.IdsOf(kept)
  }

  // The list stored in place of `list` once `id` is added.
  ghost predicate StoredFor(
    between: Prune.Between, nid: Id, list: seq<Id>, id: Id, level: nat, cap: nat, stored: seq<Id>)
  {
    exists pruned :: PrunedAs(between, nid, list + [id], cap, pruned) && stored == Fit(pruned, level)
  }

  lemma PrunedAsKept(between: Prune.Between, nid: Id, whole: seq<Id>, cap: nat, kept: seq<Scored>)
    requires |whole| > cap
    requires Prune.EvictsTo(between, Prune.SortByDist(Prune.ScoreLive(between, nid, whole)), kept, cap)
    ensures PrunedAs(between, nid, whole, cap, Prune.IdsOf(kept))
  {
  }

  // The reverse edge has a list to go to and is not there yet.
  predicate Applies(link: Link, id: Id) {
    link.nid in LayerNodes(link.before, link.level) && id !in NeighborsAt(link.before, link.nid, link.level)
  }

  // The exact effect of one reverse edge: that one list is replaced, or nothing changes.
  ghost predicate LinkOk(link: Link, id: Id, cfg: Setting) {
    var (nid, level) := (link.nid, link.level);
    if Applies(link, id) then
      && link.after == SetList(link.before, nid, level, NeighborsAt(link.after, nid, level))
      && StoredFor(Stored(link.before, cfg.between), nid, NeighborsAt(link.before, nid, level), id, level,
                   CapAt(cfg, level), NeighborsAt(link.after, nid, level))
    else link.after == link.before
  }

  // The list was already at its cap: the id goes on top of it and something has to give.
  predicate Overflows(link: Link, id: Id, caps: Caps) {
    Applies(link, id) && |NeighborsAt(link.before, link.nid, link.level)| >= caps.At(link.level)
  }

  // A replaced list makes a good link, and it overflowed just when something had to give.
  lemma LinkReplaced(
    before: Nodes, nid: Id, id: Id, level: nat, cfg: Setting, snapshot: seq<Id>, pruned: seq<Id>)
    requires nid in LayerNodes(before, level) && snapshot == NeighborsAt(before, nid, level) && id !in snapshot
    requires cfg.caps.layer0 == cfg.layer0Cap && cfg.caps.upper == Min(2 * cfg.m, UPPER_CAP)
    requires PrunedAs(Stored(before, cfg.between), nid, snapshot + [id], CapAt(cfg, level), pruned)
    ensures var link := Link(nid, level, before, SetList(before, nid, level, Fit(pruned, level)));
            && LinkOk(link, id, cfg)
            && (Overflows(link, id, cfg.caps) <==>
                  |snapshot| + 1 > CapAt(cfg, level) || (level > 0 && |snapshot| + 1 > UPPER_CAP))
  {
    hide PrunedAs;
    var stored := Fit(pruned, level);
    SetListEffect(before, nid, level, stored);
    assert NeighborsAt(SetList(before, nid, level, stored), nid, level) == stored;
  }

  // Without an overflow the id simply comes on at the end.
  lemma LinkAppends(link: Link, id: Id, cfg: Setting)
    requires LinkOk(link, id, cfg) && Applies(link, id) && !Overflows(link, id, cfg.caps)
    requires cfg.caps.layer0 == cfg.layer0Cap && cfg.caps.upper == Min(2 * cfg.m, UPPER_CAP)
    ensures link.after ==
            SetList(link.before, link.nid, link.level, NeighborsAt(link.before, link.nid, link.level) + [id])
  {
  }

  predicate AnyOverflow(links: seq<Link>, id: Id, caps: Caps) {
    exists i :: 0 <= i < |links| && Overflows(links[i], id, caps)
  }

  lemma AnyOverflowSnoc(links: seq<Link>, link: Link, id: Id, caps: Caps)
    ensures AnyOverflow(links + [link], id, caps) <==> AnyOverflow(links, id, caps) || Overflows(link, id, caps)
  {
    var more := links + [link];
    if AnyOverflow(links, id, caps) {
      var i :| 0 <= i < |links| && Overflows(links[i], id, caps);
      assert more[i] == links[i];
    }
    assert more[|links|] == link;
  }

  // `links` are the reverse edges of the levels below `l` and the first j of level l, in order, and lead from one graph
  // to the other.
  ghost predicate LinkedThrough(
    from: Nodes, links: seq<Link>, to: Nodes, id: Id, cfg: Setting, connections: seq<seq<Scored>>, l: nat, j: nat)
    requires l <= |connections| && j <= if l < |connections| then |connections[l]| else 0
    decreases l, j
  {
    if j > 0 then
      && links != []
      && var (front, last) := (links[..|links| - 1], links[|links| - 1]);
      && last.nid == connections[l][j - 1].id && last.level == l && last.after == to
      && LinkOk(last, id, cfg)
      && LinkedThrough(from, front, last.before, id, cfg, connections, l, j - 1)
    else if l > 0 then LinkedThrough(from, links, to, id, cfg, connections, l - 1, |connections[l - 1]|)
    else links == [] && from == to
  }

  lemma LinkedOnce(
    from: Nodes, links: seq<Link>, link: Link, id: Id, cfg: Setting, connections: seq<seq<Scored>>, l: nat, j: nat)
    requires l < |connections| && j < |connections[l]|
    requires LinkedThrough(from, links, link.before, id, cfg, connections, l, j)
    requires link.nid == connections[l][j].id && link.level == l && LinkOk(link, id, cfg)
    ensures LinkedThrough(from, links + [link], link.after, id, cfg, connections, l, j + 1)
  {
    assert (links + [link])[..|links|] == links;
  }

  lemma LinkedStart(from: Nodes, id: Id, cfg: Setting, connections: seq<seq<Scored>>)
    ensures LinkedThrough(from, [], from, id, cfg, connections, 0, 0)
  {
  }

  lemma LinkedLevel(
    from: Nodes, links: seq<Link>, to: Nodes, id: Id, cfg: Setting, connections: seq<seq<Scored>>, l: nat)
    requires l < |connections| && LinkedThrough(from, links, to, id, cfg, connections, l, |connections[l]|)
    ensures LinkedThrough(from, links, to, id, cfg, connections, l + 1, 0)
  {
  }

  // A node with no connections has no reverse edges.
  lemma {:induction false} LinkedNothing(from: Nodes, id: Id, cfg: Setting, connections: seq<seq<Scored>>, l: nat)
    requires l <= |connections| && forall k :: 0 <= k < |connections| ==> connections[k] == []
    ensures LinkedThrough(from, [], from, id, cfg, connections, l, 0)
  {
    if l > 0 {
      LinkedNothing(from, id, cfg, connections, l - 1);
    }
  }

  // The lists a node is written with: one per level it gets, each cut to what the slot or the entry holds.
  function WrittenLists(connections: seq<seq<Scored>>, upperOk: bool, layer0Cap: nat): seq<seq<Id>>
    requires |connections| > 0
  {
    [Truncate(Prune.IdsOf(connections[0]), layer0Cap)] + if |connections| > 1 && upperOk then UpperLists(connections)
      else []
  }

  // The upper entry's lists: levels 1..=level, each cut to the entry's capacity.
  function UpperLists(connections: seq<seq<Scored>>): seq<seq<Id>>
    requires |connections| > 0
  {
    seq(|connections| - 1,
        k requires 0 <= k < |connections| - 1 => Truncate(Prune.IdsOf(connections[k + 1]), UPPER_CAP))
  }

  // A list of the new node's own did not fit, or it got no upper entry.
  predicate Thin(connections: seq<seq<Scored>>, upperOk: bool, layer0Cap: nat)
    requires |connections| > 0
  {
    || |connections[0]| > layer0Cap
    || (|connections| > 1 && (!upperOk || exists k :: 0 < k < |connections| && |connections[k]| > UPPER_CAP))
  }

  // The graph once selection is done and the node is written: others lost the cut edges only.
  ghost predicate PlacedOk(before: Nodes, trace: Trace, upperOk: bool, cfg: Setting) {
    && |trace.connections| == trace.level + 1
    && AllConns(before, trace.id, trace.connections, trace.cuts, 2 * cfg.m)
    && OthersKept(before, trace.placed, trace.id)
    && EdgesAll(before, trace.placed, trace.cuts, trace.id, Empties(trace.level + 1))
    && trace.placed[trace.id] == Node(trace.level, WrittenLists(trace.connections, upperOk, cfg.layer0Cap))
  }

  // A whole insert led from one graph to the other in the way its trace says.
  ghost predicate InsertedBy(before: Nodes, after: Nodes, trace: Trace, upperOk: bool, cfg: Setting) {
    && trace.id !in before && PlacedOk(before, trace, upperOk, cfg)
    && LinkedThrough(trace.placed, trace.links, after, trace.id, cfg, trace.connections, trace.level + 1, 0)
  }

  // The candidates of a level are the nearest 2m of the beam's hits, and the next level is entered at the first.
  function Candidates(look: Look, m: nat): seq<Scored> {
    Truncate(look.hits, 2 * m)
  }

  function NextEntry(look: Look, m: nat): Id {
    if Candidates(look, m) != [] then Candidates(look, m)[0].id else look.entry
  }

  // One level's connections and cuts are what selection makes of the candidates of a whole beam.
  ghost predicate LevelChosen(
    nodes: Nodes, level: nat, look: Look, conns: seq<Scored>, cut: set<Pair>, m: nat, between: Between, guide: Guide)
  {
    && LookOk(nodes, level, guide.rank, guide.efConstruction, None, look)
    && LookDone(nodes, level, guide.rank, guide.efConstruction, None, look)
    && Selected(nodes, level, Candidates(look, m), guide.optimizeRouting, m, Stored(nodes, between)) ==
      Choice(conns, cut)
  }

  // From the top level shared with the graph down to above `l`, each entered where the one above led.
  ghost predicate LevelsChosen(
    before: Nodes, level: nat, e: EntryPoint, connections: seq<seq<Scored>>, cuts: seq<set<Pair>>, looks: seq<Look>,
    m: nat, between: Between, guide: Guide, l: int)
  {
    var top := Min(level, e.level);
    && |looks| == top + 1 && |connections| == level + 1 && |cuts| == level + 1
    && (forall k :: 0 <= k && l < k <= top ==>
      LevelChosen(before, k, looks[k], connections[k], cuts[k], m, between, guide))
    && (forall k :: 0 <= k && l < k < top ==> looks[k].entry == NextEntry(looks[k + 1], m))
  }

  // The whole choice: the descent from the entry point, then level by level, and every list without just what was cut.
  ghost predicate Chosen(
    before: Nodes, after: Nodes, id: Id, level: nat, connections: seq<seq<Scored>>, cuts: seq<set<Pair>>, path: Path,
    cfg: Setting, guide: Guide)
  {
    && (forall u, k: nat :: u != id ==> NeighborsAt(after, u, k) == Uncut(NeighborsAt(before, u, k), u, At(cuts, k)))
    && match path.entry
       case None => before == map[] && path.descent == [] && path.looks == []
       case Some(e) =>
         var top := Min(level, e.level);
         && LevelsChosen(before, level, e, connections, cuts, path.looks, cfg.m, cfg.between, guide, -1)
         && DescentDone(before, guide.rank, DESCENT_EF, e.id, e.level, top, path.descent, path.looks[top].entry)
  }

  ghost predicate ChosenBy(before: Nodes, trace: Trace, cfg: Setting, guide: Guide) {
    Chosen(before, trace.placed, trace.id, trace.level, trace.connections, trace.cuts, trace.path, cfg, guide)
  }

  // Every list is what the cuts at its level left of it.
  ghost predicate AllCut(before: Nodes, now: Nodes, cuts: seq<set<Pair>>) {
    forall u, k: nat :: NeighborsAt(now, u, k) == Uncut(NeighborsAt(before, u, k), u, At(cuts, k))
  }

  lemma AllCutStep(before: Nodes, mid: Nodes, now: Nodes, cuts: seq<set<Pair>>, l: nat, cut: set<Pair>)
    requires AllCut(before, mid, cuts) && l < |cuts| && cuts[l] == {} && ListsCut(mid, now, l, cut)
    requires forall u, k :: k != l ==> NeighborsAt(now, u, k) == NeighborsAt(mid, u, k)
    ensures AllCut(before, now, cuts[l := cut])
    ensures forall u :: NeighborsAt(mid, u, l) == NeighborsAt(before, u, l)
  {
    hide NeighborsAt, Uncut;
    forall u ensures NeighborsAt(mid, u, l) == NeighborsAt(before, u, l) {
      assert NeighborsAt(mid, u, l) == Uncut(NeighborsAt(before, u, l), u, At(cuts, l));
      UncutNothing(NeighborsAt(before, u, l), u);
    }
  }

  // Between two levels of the loop: levels above `l` are chosen, and the next is entered at `ep`.
  ghost predicate Choosing(
    before: Nodes, now: Nodes, level: nat, e: EntryPoint, connections: seq<seq<Scored>>, cuts: seq<set<Pair>>,
    looks: seq<Look>, m: nat, between: Between, guide: Guide, first: Id, ep: Id, l: int)
  {
    var top := Min(level, e.level);
    && -1 <= l <= top && |looks| == top + 1 && |connections| == level + 1 && |cuts| == level + 1
    && LevelsChosen(before, level, e, connections, cuts, looks, m, between, guide, l)
    && AllCut(before, now, cuts) && (forall k :: 0 <= k <= l ==> cuts[k] == {})
    && (if l == top then ep == first else looks[top].entry == first && ep == NextEntry(looks[l + 1], m))
  }

  lemma ChoosingStart(
    nodes: Nodes, level: nat, e: EntryPoint, connections: seq<seq<Scored>>, cuts: seq<set<Pair>>, looks: seq<Look>,
    m: nat, between: Between, guide: Guide, first: Id)
    requires |connections| == level + 1 && cuts == seq(level + 1, _ => {}) && |looks| == Min(level, e.level) + 1
    ensures Choosing(nodes, nodes, level, e, connections, cuts, looks, m, between, guide, first, first,
            Min(level, e.level))
  {
    forall u, k: nat ensures NeighborsAt(nodes, u, k) == Uncut(NeighborsAt(nodes, u, k), u, At(cuts, k)) {
      UncutNothing(NeighborsAt(nodes, u, k), u);
    }
    assert AllCut(nodes, nodes, cuts);
    hide LevelChosen, NeighborsAt, Uncut, AllCut;
  }

  lemma LevelsChosenStep(
    before: Nodes, level: nat, e: EntryPoint, connections: seq<seq<Scored>>, cuts: seq<set<Pair>>, looks: seq<Look>,
    m: nat, between: Between, guide: Guide, l: nat, conns: seq<Scored>, cut: set<Pair>, look: Look)
    requires LevelsChosen(before, level, e, connections, cuts, looks, m, between, guide, l) && l <= Min(level, e.level)
    requires LevelChosen(before, l, look, conns, cut, m, between, guide)
    requires |looks| == Min(level, e.level) + 1 && (l < |looks| - 1 ==> look.entry == NextEntry(looks[l + 1], m))
    ensures |connections| == level + 1 && |cuts| == level + 1 && l <= level
    ensures LevelsChosen(before, level, e, connections[l := conns], cuts[l := cut], looks[l := look], m, between,
            guide, l - 1)
  {
    hide LevelChosen, NextEntry;
  }

  lemma ChoosingStep(
    before: Nodes, mid: Nodes, now: Nodes, level: nat, e: EntryPoint, connections: seq<seq<Scored>>,
    cuts: seq<set<Pair>>, looks: seq<Look>, m: nat, between: Between, guide: Guide, first: Id, ep: Id, l: nat,
    conns: seq<Scored>, cut: set<Pair>, look: Look)
    requires Choosing(before, mid, level, e, connections, cuts, looks, m, between, guide, first, ep, l)
    requires LevelChosen(mid, l, look, conns, cut, m, between, guide) && look.entry == ep && before.Keys == mid.Keys
    requires ListsCut(mid, now, l, cut)
    requires forall u, k :: k != l ==> NeighborsAt(now, u, k) == NeighborsAt(mid, u, k)
    ensures l <= Min(level, e.level) && |looks| == Min(level, e.level) + 1
    ensures |connections| == level + 1 && |cuts| == level + 1
    ensures Choosing(before, now, level, e, connections[l := conns], cuts[l := cut], looks[l := look], m, between,
            guide, first, NextEntry(look, m), l - 1)
  {
    hide LevelChosen, NeighborsAt, Uncut, NextEntry, AllCut, ListsCut, LevelsChosen;
    AllCutStep(before, mid, now, cuts, l, cut);
    LevelChosenSame(before, mid, l, look, conns, cut, m, between, guide);
    LevelsChosenStep(before, level, e, connections, cuts, looks, m, between, guide, l, conns, cut, look);
  }

  lemma ChoosingEnd(
    before: Nodes, now: Nodes, id: Id, level: nat, e: EntryPoint, connections: seq<seq<Scored>>, cuts: seq<set<Pair>>,
    looks: seq<Look>, descent: seq<Look>, cfg: Setting, guide: Guide, first: Id, ep: Id)
    requires Choosing(before, now, level, e, connections, cuts, looks, cfg.m, cfg.between, guide, first, ep, -1)
    requires DescentDone(before, guide.rank, DESCENT_EF, e.id, e.level, Min(level, e.level), descent, first)
    ensures Chosen(before, now, id, level, connections, cuts, Path(Some(e), descent, looks), cfg, guide)
  {
    hide LevelChosen, NeighborsAt, Uncut, NextEntry, DescentDone;
  }

  // Writing the new node leaves the others' lists.
  lemma ChosenPublished(
    before: Nodes, mid: Nodes, id: Id, node: Node, level: nat, connections: seq<seq<Scored>>, cuts: seq<set<Pair>>,
    path: Path, cfg: Setting, guide: Guide)
    requires Chosen(before, mid, id, level, connections, cuts, path, cfg, guide)
    ensures Chosen(before, mid[id := node], id, level, connections, cuts, path, cfg, guide)
  {
    hide LevelsChosen, DescentDone, Uncut;
    assert forall u, k: nat :: u != id ==> NeighborsAt(mid[id := node], u, k) == NeighborsAt(mid, u, k);
  }

  // A level is searched and chosen at as in the graph before the insert, while its own lists are untouched.
  lemma LevelChosenSame(
    before: Nodes, mid: Nodes, level: nat, look: Look, conns: seq<Scored>, cut: set<Pair>, m: nat, between: Between,
    guide: Guide)
    requires LevelChosen(mid, level, look, conns, cut, m, between, guide) && before.Keys == mid.Keys
    requires forall u :: NeighborsAt(mid, u, level) == NeighborsAt(before, u, level)
    ensures LevelChosen(before, level, look, conns, cut, m, between, guide)
  {
    LookSame(before, mid, level, guide.rank, guide.efConstruction, None, look);
    SelectedSame(before, mid, level, Candidates(look, m), guide.optimizeRouting, m, Stored(mid, between));
    hide LookOk, LookDone, Selected;
  }

  // The insert stored less than it wanted: some own list did not fit, or some reverse edge overflowed.
  predicate Degrades(trace: Trace, upperOk: bool, cfg: Setting)
    requires |trace.connections| > 0
  {
    Thin(trace.connections, upperOk, cfg.layer0Cap) || AnyOverflow(trace.links, trace.id, cfg.caps)
  }

  // With room for 2m everywhere and an upper entry to be had, only an overflowing reverse edge degrades an insert.
  lemma OnlyOverflowDegrades(before: Nodes, trace: Trace, upperOk: bool, cfg: Setting)
    requires PlacedOk(before, trace, upperOk, cfg)
    requires 2 * cfg.m <= cfg.layer0Cap && 2 * cfg.m <= UPPER_CAP && (trace.level > 0 ==> upperOk)
    ensures Degrades(trace, upperOk, cfg) <==> AnyOverflow(trace.links, trace.id, cfg.caps)
  {
    forall k | 0 <= k < |trace.connections| ensures |trace.connections[k]| <= 2 * cfg.m {
      assert ConnsOk(before, trace.id, trace.connections[k], trace.cuts[k], 2 * cfg.m);
    }
  }

  // One list of the new node's own is short: what that can come from.
  lemma ThinMeans(before: Nodes, trace: Trace, upperOk: bool, cfg: Setting)
    requires PlacedOk(before, trace, upperOk, cfg) && Thin(trace.connections, upperOk, cfg.layer0Cap)
    ensures (trace.level > 0 && !upperOk) || 2 * cfg.m > cfg.layer0Cap || 2 * cfg.m > UPPER_CAP
  {
    forall k | 0 <= k < |trace.connections| ensures |trace.connections[k]| <= 2 * cfg.m {
      assert ConnsOk(before, trace.id, trace.connections[k], trace.cuts[k], 2 * cfg.m);
    }
  }

  // The pieces of an insert put together.
  lemma TraceDone(before: Nodes, after: Nodes, placed: Trace, trace: Trace, upperOk: bool, cfg: Setting)
    requires PlacedOk(before, placed, upperOk, cfg) && trace.(links := placed.links) == placed && trace.id !in before
    requires LinkedThrough(trace.placed, trace.links, after, trace.id, cfg, trace.connections, trace.level + 1, 0)
    ensures InsertedBy(before, after, trace, upperOk, cfg) && |trace.connections| > 0
    ensures Degrades(trace, upperOk, cfg) <==>
              Thin(trace.connections, upperOk, cfg.layer0Cap) || AnyOverflow(trace.links, trace.id, cfg.caps)
    ensures Thin(trace.connections, upperOk, cfg.layer0Cap) ==>
              (trace.level > 0 && !upperOk) || 2 * cfg.m > cfg.layer0Cap || 2 * cfg.m > UPPER_CAP
  {
    if Thin(trace.connections, upperOk, cfg.layer0Cap) {
      ThinMeans(before, placed, upperOk, cfg);
    }
    hide LinkedThrough, Thin, AnyOverflow, AllConns, EdgesAll;
  }

  // Reverse edges move no node and no level.
  lemma {:induction false} LinksKeepShape(
    from: Nodes, links: seq<Link>, to: Nodes, id: Id, cfg: Setting, connections: seq<seq<Scored>>, l: nat, j: nat)
    requires l <= |connections| && j <= if l < |connections| then |connections[l]| else 0
    requires LinkedThrough(from, links, to, id, cfg, connections, l, j)
    ensures SameShape(from, to)
    decreases l, j
  {
    if j > 0 {
      var (front, last) := (links[..|links| - 1], links[|links| - 1]);
      LinksKeepShape(from, front, last.before, id, cfg, connections, l, j - 1);
      LinkKeepsShape(last, id, cfg);
      ShapeTransitive(from, last.before, to);
    } else if l > 0 {
      LinksKeepShape(from, links, to, id, cfg, connections, l - 1, |connections[l - 1]|);
    }
  }

  lemma LinkKeepsShape(link: Link, id: Id, cfg: Setting)
    requires LinkOk(link, id, cfg)
    ensures SameShape(link.before, link.after)
  {
    if Applies(link, id) {
      SetListEffect(link.before, link.nid, link.level, NeighborsAt(link.after, link.nid, link.level));
    }
  }

  // A traced insert adds its node and leaves everybody's level and number of lists.
  lemma InsertedKeeps(before: Nodes, after: Nodes, trace: Trace, upperOk: bool, cfg: Setting)
    requires InsertedBy(before, after, trace, upperOk, cfg)
    ensures OthersKept(before, after, trace.id) && trace.id in after && after[trace.id].level == trace.level
  {
    LinksKeepShape(trace.placed, trace.links, after, trace.id, cfg, trace.connections, trace.level + 1, 0);
    hide LinkedThrough, EdgesAll, AllConns;
  }
}
