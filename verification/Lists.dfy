/** Stored adjacency lists, of slots and of upper entries, under concurrent inserts and deletes on a standalone plane. A
    list is changed in one step under its own lock; everything read before that may be stale by then: what selection
    saw, the snapshot of a reverse edge, and the entry index behind an upper list. Ids and entries are reused, and a
    free entry's link lies where the degree of its level-1 list does. */
module Lists {
  import opened Core
  import opened Ranking
  import opened Edits
  import opened Racing
  import opened UpperPool

  type ThreadId = nat

  // `upper` is the entry a live slot names.
  datatype Slot = Slot(live: bool, list: seq<Id>, upper: Option<nat>)

  // An upper entry: the node it was last written for, whether it has levels, the ids stored at level 1 (as many of them
  // count as the entry's word says), and the lists of the levels above.
  datatype Entry = Entry(owner: Id, full: bool, first: seq<Id>, rest: seq<seq<Id>>)
  datatype Place = Never | Free | Held(t: ThreadId) | Bound(id: Id)

  // An insert first chooses and writes its node (`seen`: the ids it has read, `at`: an entry index it has read, `up`:
  // the entry it took, with whether it has been written, is named by the slot, and whether the slot is out), then
  // links back. A cut holds the entry index it read. A delete gives up, empties and frees.
  datatype Pc =
    | Idle
    | Choosing(id: Id, seen: set<Id>, at: Option<nat>, up: Option<nat>, written: bool, bound: bool, published: bool)
    | Linking(id: Id, seen: set<Id>)
    | Trying(id: Id, seen: set<Id>, nid: Id, tries: nat)
    | Prepared(id: Id, seen: set<Id>, nid: Id, snapshot: seq<Id>, next: seq<Id>, tries: nat)
    | Merging(id: Id, seen: set<Id>, nid: Id)
    | Pushing(id: Id, seen: set<Id>, e: nat, level: nat)
    | Cutting(e: nat, level: nat, to: Id)
    | Deleting(id: Id, extra: Option<nat>)
    | Emptying(id: Id, e: nat, extra: Option<nat>)
    | Freeing(back: Option<Id>, first: Option<nat>, second: Option<nat>)

  // Ids below `highWater` have been allocated; those in `freeIds` may be again. `wild`: a freed id was written to or
  // freed again, so the ids' own chain means nothing any more. `stack` lists the free entries beside the links.
  datatype State = State(
    cap: nat, m: nat, slots: map<Id, Slot>, entries: map<nat, Entry>, pool: Pool, stack: seq<nat>,
    place: map<nat, Place>,
    freeIds: set<Id>, highWater: nat, wild: bool, threads: map<ThreadId, Pc>)

  datatype Step =
    | AllocateId(t: ThreadId, id: Id)
    | SeeEntryPoint(t: ThreadId, x: Id)
    | SeeList(t: ThreadId, u: Id)
    | FindList(t: ThreadId, u: Id)
    | SeeUpper(t: ThreadId, level: nat)
    | TakeEntry(t: ThreadId)
    | WriteEntry(t: ThreadId, lists: seq<seq<Id>>)
    | Publish(t: ThreadId, list: seq<Id>)
    | GiveUp(t: ThreadId)
    | StartLinking(t: ThreadId)
    | Done(t: ThreadId)
    | StartReverse(t: ThreadId, nid: Id)
    | Snapshot(t: ThreadId, pruned: seq<Id>)
    | SetIf(t: ThreadId)
    | Merge(t: ThreadId)
    | FindUpper(t: ThreadId, nid: Id, level: nat)
    | Push(t: ThreadId, pruned: seq<Id>)
    | RemoveEdge(from: Id, to: Id)
    | FindCut(t: ThreadId, from: Id, level: nat, to: Id)
    | Cut(t: ThreadId)
    | StartDelete(t: ThreadId, id: Id)
    | Tombstone(t: ThreadId)
    | Empty(t: ThreadId, ok: bool)
    | FreeNext(t: ThreadId)
    | WreckSlot(id: Id)
    | WreckEntry(e: nat)

  // ---- Views of a state ----

  function PcOf(s: State, t: ThreadId): Pc {
    if t in s.threads then s.threads[t] else Idle
  }

  function Goto(s: State, t: ThreadId, pc: Pc): State {
    s.(threads := s.threads[t := pc])
  }

  predicate IsLive(s: State, id: Id) {
    id in s.slots && s.slots[id].live
  }

  function ListOf(s: State, id: Id): seq<Id> {
    if id in s.slots then s.slots[id].list else []
  }

  // upper_idx_of: the entry a live slot names.
  function UpperOf(s: State, id: Id): Option<nat> {
    if IsLive(s, id) then s.slots[id].upper else None
  }

  // An entry of a fresh file.
  function Blank(): Entry {
    Entry(0, false, seq(UPPER_CAP, _ => 0), [])
  }

  function EntryOf(s: State, e: nat): Entry {
    if e in s.entries then s.entries[e] else Blank()
  }

  function WordOf(s: State, e: nat): nat {
    if e < |s.pool.words| then s.pool.words[e] else 0
  }

  // What a look at level 1 finds: as many ids as the word's low half says, and at most 64.
  function LowList(s: State, e: nat): seq<Id> {
    Truncate(EntryOf(s, e).first, Degree(WordOf(s, e)))
  }

  function LevelsOf(s: State, e: nat): seq<seq<Id>> {
    if EntryOf(s, e).full then [LowList(s, e)] + EntryOf(s, e).rest else []
  }

  function OwnerOf(s: State, e: nat): Option<Id> {
    if e in s.entries then Some(s.entries[e].owner) else None
  }

  function PlaceOf(s: State, e: nat): Place {
    if e in s.place then s.place[e] else Never
  }

  predicate HasLevel(s: State, e: nat, level: nat) {
    1 <= level <= |LevelsOf(s, e)|
  }

  function UpperList(s: State, e: nat, level: nat): seq<Id>
    requires HasLevel(s, e, level)
  {
    LevelsOf(s, e)[level - 1]
  }

  function SetList(s: State, id: Id, list: seq<Id>): State
    requires id in s.slots
  {
    s.(slots := s.slots[id := s.slots[id].(list := list)])
  }

  // Ids stored over the first of those that stand there.
  function Overlay(first: seq<Id>, list: seq<Id>): seq<Id> {
    if |list| <= |first| then list + first[|list|..] else first
  }

  function SetUpper(s: State, e: nat, level: nat, list: seq<Id>): State
    requires HasLevel(s, e, level)
  {
    var entry := EntryOf(s, e);
    if level == 1 then
      s.(entries := s.entries[e := entry.(first := Overlay(entry.first, list))], pool := Store(s.pool, e, |list|))
    else s.(entries := s.entries[e := entry.(rest := entry.rest[level - 2 := list])])
  }

  // A whole entry is written: for no levels, only that it has none.
  function Rewritten(s: State, e: nat, id: Id, lists: seq<seq<Id>>): State {
    var entry := EntryOf(s, e);
    if lists == [] then s.(entries := s.entries[e := entry.(owner := id, full := false)])
    else
      s.(entries := s.entries[e := Entry(id, true, Overlay(entry.first, lists[0]), lists[1..])],
         pool := Store(s.pool, e, |lists[0]|))
  }

  function ClearUpper(s: State, e: nat): State {
    if e in s.entries then s.(entries := s.entries[e := s.entries[e].(full := false)]) else s
  }

  function SetPlace(s: State, e: nat, p: Place): State {
    s.(place := s.place[e := p])
  }

  // ---- What an update does to a list ----

  // add_reverse_edge's replacement for a layer-0 list: appended, and pruned only when over the cap.
  ghost predicate Reversed(list: seq<Id>, id: Id, cap: nat, next: seq<Id>) {
    if id in list then next == list
    else if |list| < cap then next == list + [id]
    else PrunedTo(list + [id], cap, next)
  }

  // merge_neighbor_capped: the tail makes room, never the id being added.
  function Merged(list: seq<Id>, id: Id, cap: nat): seq<Id> {
    if id in list then list
    else if |list| >= cap then list[..if cap == 0 then 0 else cap - 1] + [id]
    else list + [id]
  }

  // The upper closure of add_reverse_edge, then update_upper_level's own truncation to the entry's 64.
  function Pushed(list: seq<Id>, id: Id, limit: nat, pruned: seq<Id>): seq<Id> {
    if id in list then list
    else if |list| < limit then Truncate(list + [id], UPPER_CAP)
    else Truncate(pruned, UPPER_CAP)
  }

  // What is given as pruned must be a prune's result where one is needed: of a list that repeats an id, it may too.
  ghost predicate PruneFits(list: seq<Id>, id: Id, limit: nat, pruned: seq<Id>) {
    id !in list && |list| >= limit ==>
      && |pruned| <= limit && (forall x :: x in pruned ==> x in list || x == id)
      && (NoDup(list) ==> PrunedTo(list + [id], limit, pruned))
  }

  // ---- Steps ----

  ghost function Apply(s: State, step: Step): State {
    match step
    case AllocateId(t, id) => ApplyAllocate(s, t, id)
    case TakeEntry(t) => ApplyTake(s, t)
    case WriteEntry(t, lists) => ApplyWriteEntry(s, t, lists)
    case Publish(t, list) => ApplyPublish(s, t, list)
    case Snapshot(t, pruned) => ApplySnapshot(s, t, pruned)
    case SetIf(t) => ApplySetIf(s, t)
    case Merge(t) => ApplyMerge(s, t)
    case Push(t, pruned) => ApplyPush(s, t, pruned)
    case RemoveEdge(from, to) => if IsLive(s, from) then SetList(s, from, Without(ListOf(s, from), to)) else s
    case Cut(t) =>
      var pc := PcOf(s, t);
      if !pc.Cutting? then s
      else if HasLevel(s, pc.e, pc.level) then
        Goto(SetUpper(s, pc.e, pc.level, Without(UpperList(s, pc.e, pc.level), pc.to)), t, Idle)
      else Goto(s, t, Idle)
    case Tombstone(t) => ApplyTombstone(s, t)
    case Empty(t, ok) =>
      var pc := PcOf(s, t);
      if !pc.Emptying? then s
      else if ok then Goto(ClearUpper(s, pc.e), t, Freeing(Some(pc.id), Some(pc.e), pc.extra))
      else Goto(s, t, Freeing(None, None, pc.extra))
    case FreeNext(t) => ApplyFreeNext(s, t)
    // a writer died holding the lock: the takeover clears what it guarded
    case WreckSlot(id) => if id in s.slots then s.(slots := s.slots[id := Slot(false, ListOf(s, id), None)]) else s
    case WreckEntry(e) => ClearUpper(s, e)
    case _ => Goto(s, step.t, if Looks(step) then LookPc(s, step.t, step) else NextPc(s, step.t, step))
  }

  // What an insert that is choosing reads: the entry point, a node's list, an entry index, a list of that entry.
  predicate Looks(step: Step) {
    step.SeeEntryPoint? || step.SeeList? || step.FindList? || step.SeeUpper?
  }

  function LookPc(s: State, t: ThreadId, step: Step): Pc {
    var pc := PcOf(s, t);
    if !pc.Choosing? then pc
    else
      match step
      case SeeEntryPoint(_, x) => if x < s.highWater then Seen(pc, {x}) else pc
      case SeeList(_, u) => if IsLive(s, u) then Seen(pc, Elems(ListOf(s, u))) else pc
      case FindList(_, u) => Choosing(pc.id, pc.seen, UpperOf(s, u), pc.up, pc.written, pc.bound, pc.published)
      case SeeUpper(_, level) =>
        if pc.at.Some? && HasLevel(s, pc.at.value, level) then Seen(pc, Elems(UpperList(s, pc.at.value, level))) else pc
      case _ => pc
  }

  // The steps that begin or end a stage of a thread's work.
  predicate GoesOn(step: Step) {
    || step.GiveUp? || step.StartLinking? || step.Done? || step.StartReverse? || step.FindUpper? || step.FindCut?
      || step.StartDelete?
  }

  function NextPc(s: State, t: ThreadId, step: Step): Pc {
    var pc := PcOf(s, t);
    match step
    case GiveUp(_) =>
      if !pc.Choosing? then pc
      else if pc.published then Deleting(pc.id, if pc.bound then None else pc.up)
      else Freeing(Some(pc.id), pc.up, None)
    case StartLinking(_) => if pc.Choosing? && pc.published then Linking(pc.id, pc.seen) else pc
    case Done(_) => if pc.Linking? || (pc.Choosing? && pc.published) then Idle else pc
    case StartReverse(_, nid) =>
      if pc.Linking? && nid in pc.seen && nid != pc.id then Trying(pc.id, pc.seen, nid, 0) else pc
    case FindUpper(_, nid, level) =>
      if pc.Linking? && nid in pc.seen && nid != pc.id && UpperOf(s, nid).Some? then
        Pushing(pc.id, pc.seen, UpperOf(s, nid).value, level)
      else pc
    case FindCut(_, from, level, to) =>
      if pc.Idle? && UpperOf(s, from).Some? then Cutting(UpperOf(s, from).value, level, to) else pc
    case StartDelete(_, id) => if pc.Idle? && id < s.highWater then Deleting(id, None) else pc
    case _ => pc
  }

  // An insert at its start is given an id that was given back, or the next new one; once the ids' chain is broken, any.
  function ApplyAllocate(s: State, t: ThreadId, id: Id): State {
    if PcOf(s, t).Idle? && (id in s.freeIds || id == s.highWater || s.wild) then
      Goto(s.(freeIds := s.freeIds - {id}, highWater := if id >= s.highWater then id + 1 else s.highWater), t,
           Choosing(id, {}, None, None, false, false, false))
    else s
  }

  // allocate_upper: what comes off the chain, or the next entry never issued.
  function ApplyTake(s: State, t: ThreadId): State {
    var pc := PcOf(s, t);
    var (pool, r) := Pop(s.pool);
    if pc.Choosing? && pc.up.None? && r.Some? then
      Goto(SetPlace(s.(pool := pool, stack := Rest(s.stack)), r.value, Held(t)), t,
           Choosing(pc.id, pc.seen, pc.at, r, false, false, pc.published))
    else s
  }

  function Seen(pc: Pc, more: set<Id>): Pc
    requires pc.Choosing?
  {
    Choosing(pc.id, pc.seen + more, pc.at, pc.up, pc.written, pc.bound, pc.published)
  }

  // write_upper or rewrite_upper: the whole entry at once, each list cut to what a level holds.
  ghost function ApplyWriteEntry(s: State, t: ThreadId, lists: seq<seq<Id>>): State {
    var pc := PcOf(s, t);
    if pc.Choosing? && pc.up.Some? && forall l ::
      0 <= l < |lists| ==> ChosenFrom(pc.seen, pc.id, lists[l], 2 * s.m) then
      Goto(Rewritten(s, pc.up.value, pc.id, CutLists(lists)), t,
           Choosing(pc.id, pc.seen, pc.at, pc.up, true, pc.bound, pc.published))
    else s
  }

  function CutLists(lists: seq<seq<Id>>): seq<seq<Id>> {
    seq(Min(|lists|, MAX_UPPER_LEVELS), l requires 0 <= l < Min(|lists|, MAX_UPPER_LEVELS) =>
      Truncate(lists[l], UPPER_CAP))
  }

  // The slot goes out, edgeless or final, naming the entry if that has been written.
  ghost function ApplyPublish(s: State, t: ThreadId, list: seq<Id>): State {
    var pc := PcOf(s, t);
    if pc.Choosing? && ChosenFrom(pc.seen, pc.id, list, 2 * s.m) then
      var named := if pc.written then pc.up else None;
      var s1 := s.(slots := s.slots[pc.id := Slot(true, Truncate(list, s.cap), named)],
                   wild := s.wild || pc.id in s.freeIds);
      Goto(if named.Some? then SetPlace(s1, named.value, Bound(pc.id)) else s1, t,
           Choosing(pc.id, pc.seen, pc.at, pc.up, pc.written, named.Some?, true))
    else s
  }

  // Read the list, and work out its replacement with no lock held; `pruned` is what a prune would leave.
  ghost function ApplySnapshot(s: State, t: ThreadId, pruned: seq<Id>): State {
    var pc := PcOf(s, t);
    if !pc.Trying? then s
    else if !IsLive(s, pc.nid) || pc.id in ListOf(s, pc.nid) then Goto(s, t, Linking(pc.id, pc.seen))
    else
      var list := ListOf(s, pc.nid);
      if |list| < s.cap then Goto(s, t, Prepared(pc.id, pc.seen, pc.nid, list, list + [pc.id], pc.tries))
      else if PrunedTo(list + [pc.id], s.cap, pruned)
        then Goto(s, t, Prepared(pc.id, pc.seen, pc.nid, list, pruned, pc.tries))
      else s
  }

  function ApplySetIf(s: State, t: ThreadId): State {
    var pc := PcOf(s, t);
    if !pc.Prepared? then s
    else if IsLive(s, pc.nid) && ListOf(s, pc.nid) == pc.snapshot then
      Goto(SetList(s, pc.nid, pc.next), t, Linking(pc.id, pc.seen))
    else Goto(s, t, if pc.tries == 0 then Trying(pc.id, pc.seen, pc.nid, 1) else Merging(pc.id, pc.seen, pc.nid))
  }

  // update_neighbors stores at most `cap` of what it is given.
  function ApplyMerge(s: State, t: ThreadId): State {
    var pc := PcOf(s, t);
    if !pc.Merging? then s
    else if IsLive(s, pc.nid) then
      Goto(SetList(s, pc.nid, Truncate(Merged(ListOf(s, pc.nid), pc.id, s.cap), s.cap)), t, Linking(pc.id, pc.seen))
    else Goto(s, t, Linking(pc.id, pc.seen))
  }

  // The push lands in the entry whose index was read, whoever's it is by now.
  ghost function ApplyPush(s: State, t: ThreadId, pruned: seq<Id>): State {
    var pc := PcOf(s, t);
    if !pc.Pushing? then s
    else if !HasLevel(s, pc.e, pc.level) then Goto(s, t, Linking(pc.id, pc.seen))
    else
      var list := UpperList(s, pc.e, pc.level);
      if PruneFits(list, pc.id, 2 * s.m, pruned) then
        Goto(SetUpper(s, pc.e, pc.level, Pushed(list, pc.id, 2 * s.m, pruned)), t, Linking(pc.id, pc.seen))
      else s
  }

  // delete_node's locked section: only a live slot gives up its entry and, in time, its id.
  function ApplyTombstone(s: State, t: ThreadId): State {
    var pc := PcOf(s, t);
    if !pc.Deleting? then s
    else if !IsLive(s, pc.id) then Goto(s, t, Freeing(None, None, pc.extra))
    else
      var up := UpperOf(s, pc.id);
      var s1 := s.(slots := s.slots[pc.id := Slot(false, ListOf(s, pc.id), None)]);
      if up.None? then Goto(s1, t, Freeing(Some(pc.id), None, pc.extra))
      else Goto(SetPlace(s1, up.value, Held(t)), t, Emptying(pc.id, up.value, pc.extra))
  }

  // free_upper: the entry's first list word becomes its link.
  function FreeEntry(s: State, e: nat): State {
    SetPlace(s.(pool := UpperPool.Push(s.pool, e), stack := [e] + s.stack), e, Free)
  }

  // free_upper of the slot's entry, free_id, and an abandoned insert's spare entry.
  function ApplyFreeNext(s: State, t: ThreadId): State {
    var pc := PcOf(s, t);
    if !pc.Freeing? then s
    else if pc.first.Some? then Goto(FreeEntry(s, pc.first.value), t, Freeing(pc.back, None, pc.second))
    else if pc.back.Some? then
      Goto(s.(freeIds := s.freeIds + {pc.back.value}, wild := s.wild || pc.back.value in s.freeIds), t,
           Freeing(None, None, pc.second))
    else if pc.second.Some? then Goto(FreeEntry(s, pc.second.value), t, Freeing(None, None, None))
    else Goto(s, t, Idle)
  }

  function Init(cap: nat, m: nat, entries: nat): State {
    State(cap, m, map[], map[], Pool(NO_UPPER, seq(entries, _ => 0), 0), [], map[], {}, 0, false, map[])
  }

  ghost function Run(s: State, steps: seq<Step>): State
    decreases |steps|
  {
    if steps == [] then s else Run(Apply(s, steps[0]), steps[1..])
  }

  // ---- What holds of every list in every run ----

  function UpperCap(s: State): nat {
    Min(2 * s.m, UPPER_CAP)
  }

  // Duplicate-free, within the cap, allocated ids only.
  ghost predicate Well(list: seq<Id>, cap: nat, highWater: nat) {
    NoDup(list) && |list| <= cap && forall x :: x in list ==> x < highWater
  }

  predicate Inserting(pc: Pc) {
    pc.Choosing? || pc.Linking? || pc.Trying? || pc.Prepared? || pc.Merging? || pc.Pushing?
  }

  predicate Reversing(pc: Pc) {
    pc.Trying? || pc.Prepared? || pc.Merging?
  }

  ghost predicate ThreadOk(s: State, t: ThreadId) {
    var pc := PcOf(s, t);
    && (pc.Choosing? && pc.up.Some? ==> pc.up.value < |s.pool.words|)
    && (Inserting(pc) ==> pc.id < s.highWater && forall x :: x in pc.seen ==> x < s.highWater)
    && (Reversing(pc) ==> pc.nid != pc.id)
    && (pc.Prepared? ==> pc.id !in pc.snapshot && Reversed(pc.snapshot, pc.id, s.cap, pc.next))
    && (pc.Deleting? || pc.Emptying? ==> pc.id < s.highWater)
    && (pc.Freeing? && pc.back.Some? ==> pc.back.value < s.highWater)
  }

  ghost predicate SlotOk(s: State, id: Id) {
    id in s.slots ==> id < s.highWater && ListOk(id, s.slots[id].list, s.cap, s.highWater)
  }

  // The ids an entry holds are allocated ones, beside those never written; its lists above level 1 are well formed.
  ghost predicate EntryOk(s: State, e: nat) {
    e in s.entries ==>
      var entry := s.entries[e];
      && e < |s.pool.words| && |entry.first| == UPPER_CAP && (entry.full ==> s.highWater > 0)
      && (forall x :: x in entry.first ==> x == 0 || x < s.highWater)
      && forall l :: 0 <= l < |entry.rest| ==> Well(entry.rest[l], UpperCap(s), s.highWater)
  }

  ghost predicate Inv(s: State) {
    && s.cap >= 1
    && (forall x :: x in s.freeIds ==> x < s.highWater)
    && (forall id: Id :: SlotOk(s, id)) && (forall e: nat :: EntryOk(s, e)) && (forall t: ThreadId :: ThreadOk(s, t))
  }

  lemma ReversedOk(u: Id, list: seq<Id>, id: Id, cap: nat, next: seq<Id>, highWater: nat)
    requires ListOk(u, list, cap, highWater) && u != id && id < highWater && Reversed(list, id, cap, next)
    ensures ListOk(u, next, cap, highWater)
  {
  }

  lemma MergedOk(u: Id, list: seq<Id>, id: Id, cap: nat, highWater: nat)
    requires ListOk(u, list, cap, highWater) && u != id && id < highWater && cap >= 1
    ensures ListOk(u, Merged(list, id, cap), cap, highWater)
    ensures id in Merged(list, id, cap) && Reversed(list, id, cap, Merged(list, id, cap))
    ensures id !in list ==> Merged(list, id, cap) == Truncate(list, cap - 1) + [id]
  {
    if id !in list && |list| >= cap {
      var kept := list[..cap - 1];
      assert forall x :: x in kept ==> x in list;
    }
  }

  lemma WithoutOk(u: Id, list: seq<Id>, to: Id, cap: nat, highWater: nat)
    requires ListOk(u, list, cap, highWater)
    ensures ListOk(u, Without(list, to), cap, highWater)
  {
    WithoutMembers(list, to);
  }

  // What can be said of any list of an entry with levels: at most 64 ids, all allocated.
  ghost predicate Stored(list: seq<Id>, highWater: nat) {
    |list| <= UPPER_CAP && forall x :: x in list ==> x < highWater
  }

  lemma ReadsUpper(s: State, e: nat, level: nat)
    requires EntryOk(s, e) && HasLevel(s, e, level)
    ensures e in s.entries && e < |s.pool.words| && Stored(UpperList(s, e, level), s.highWater)
    ensures level >= 2 ==> Well(UpperList(s, e, level), UpperCap(s), s.highWater)
  {
    assert LowList(s, e) <= EntryOf(s, e).first;
    assert forall x :: x in LowList(s, e) ==> x in EntryOf(s, e).first;
  }

  lemma PushedOk(list: seq<Id>, id: Id, limit: nat, pruned: seq<Id>, highWater: nat)
    requires |list| <= UPPER_CAP && PruneFits(list, id, limit, pruned)
    ensures |Pushed(list, id, limit, pruned)| <= UPPER_CAP
    ensures forall x :: x in Pushed(list, id, limit, pruned) ==> x in list || x == id
    ensures Well(list, Min(limit, UPPER_CAP), highWater) && id < highWater ==>
              Well(Pushed(list, id, limit, pruned), Min(limit, UPPER_CAP), highWater)
  {
    var next := Pushed(list, id, limit, pruned);
    if id !in list {
      var whole := if |list| < limit then list + [id] else pruned;
      if |list| < limit && NoDup(list) {
        NoDupSnoc(list, id);
      }
      assert next <= whole;
      assert forall x :: x in next ==> x in whole;
    }
  }

  lemma {:induction false} WithoutPart(list: seq<Id>, x: Id)
    ensures |Without(list, x)| <= |list| && forall y :: y in Without(list, x) ==> y in list
  {
    if list != [] && list[0] != x {
      WithoutPart(list[1..], x);
    }
  }

  // A stored list reads back, and the others stay.
  lemma SetUpperReads(s: State, e: nat, level: nat, list: seq<Id>)
    requires EntryOk(s, e) && HasLevel(s, e, level) && |list| <= UPPER_CAP
    ensures LevelsOf(SetUpper(s, e, level, list), e) == LevelsOf(s, e)[level - 1 := list]
  {
    ReadsUpper(s, e, level);
    var s' := SetUpper(s, e, level, list);
    if level == 1 {
      SetDegreeReads(s.pool.words[e], |list|);
      OverlayHolds(EntryOf(s, e).first, list);
      assert WordOf(s', e) == SetDegree(s.pool.words[e], |list|) && EntryOf(s', e).rest == EntryOf(s, e).rest;
      assert LowList(s', e) == list;
    } else {
      assert LowList(s', e) == LowList(s, e);
    }
  }

  lemma SetUpperOk(s: State, e: nat, level: nat, list: seq<Id>)
    requires EntryOk(s, e) && HasLevel(s, e, level) && Stored(list, s.highWater)
    requires level >= 2 ==> Well(list, UpperCap(s), s.highWater)
    ensures EntryOk(SetUpper(s, e, level, list), e)
  {
    ReadsUpper(s, e, level);
    var first := EntryOf(s, e).first;
    OverlayHolds(first, list);
    hide Well;
  }

  lemma OverlayHolds(first: seq<Id>, list: seq<Id>)
    requires |list| <= |first|
    ensures |Overlay(first, list)| == |first| && Overlay(first, list)[..|list|] == list
    ensures forall x :: x in Overlay(first, list) ==> x in list || x in first
  {
    assert forall x :: x in first[|list|..] ==> x in first;
  }

  // A written entry holds what was written.
  lemma RewrittenOk(s: State, e: nat, id: Id, lists: seq<seq<Id>>)
    requires EntryOk(s, e) && e < |s.pool.words| && id < s.highWater
    requires forall l :: 0 <= l < |lists| ==> |lists[l]| <= UPPER_CAP && Well(lists[l], UpperCap(s), s.highWater)
    ensures EntryOk(Rewritten(s, e, id, lists), e) && LevelsOf(Rewritten(s, e, id, lists), e) == lists
  {
    if lists != [] {
      OverlayHolds(EntryOf(s, e).first, lists[0]);
      SetDegreeReads(s.pool.words[e], |lists[0]|);
      var s' := Rewritten(s, e, id, lists);
      assert WordOf(s', e) == SetDegree(s.pool.words[e], |lists[0]|);
      assert LowList(s', e) == lists[0];
      assert lists == [lists[0]] + lists[1..];
    }
  }

  lemma CutOk(seen: set<Id>, id: Id, list: seq<Id>, limit: nat, cap: nat, highWater: nat)
    requires ChosenFrom(seen, id, list, limit) && forall x :: x in seen ==> x < highWater
    ensures ListOk(id, Truncate(list, cap), cap, highWater) && Well(Truncate(list, cap), Min(limit, cap), highWater)
  {
    assert Truncate(list, cap) <= list;
    assert forall x :: x in Truncate(list, cap) ==> x in list;
  }

  // Everything but one thread, at most one slot and at most one entry is as it was; ids may have been allocated or
  // given back.
  ghost predicate Moved(s: State, s': State, t: ThreadId, id: Option<Id>, e: Option<nat>) {
    && s'.cap == s.cap && s'.m == s.m && s.highWater <= s'.highWater
    && (forall x :: x in s'.freeIds ==> x < s'.highWater)
    && (forall u: ThreadId :: u != t ==> PcOf(s', u) == PcOf(s, u))
    && (forall x: Id :: Some(x) != id && x in s'.slots ==> x in s.slots && s'.slots[x] == s.slots[x])
    && (forall x: nat :: Some(x) != e && x in s'.entries ==> x in s.entries && s'.entries[x] == s.entries[x])
    && |s'.pool.words| == |s.pool.words|
  }

  lemma InvMoved(s: State, s': State, t: ThreadId, id: Option<Id>, e: Option<nat>)
    requires Inv(s) && Moved(s, s', t, id, e)
    requires ThreadOk(s', t) && (id.Some? ==> SlotOk(s', id.value)) && (e.Some? ==> EntryOk(s', e.value))
    ensures Inv(s')
  {
    forall u: ThreadId ensures ThreadOk(s', u) {
      assert ThreadOk(s, u);
    }
    forall x: Id ensures SlotOk(s', x) {
      assert SlotOk(s, x);
    }
    forall x: nat ensures EntryOk(s', x) {
      assert EntryOk(s, x);
    }
  }

  // A move of one thread that changes nothing else.
  lemma GotoKeeps(s: State, t: ThreadId, pc: Pc)
    requires Inv(s) && ThreadOk(Goto(s, t, pc), t)
    ensures Inv(Goto(s, t, pc))
  {
    hide ThreadOk, SlotOk, EntryOk;
    InvMoved(s, Goto(s, t, pc), t, None, None);
  }

  lemma LookStep(s: State, step: Step)
    requires Inv(s) && Looks(step)
    ensures Inv(Goto(s, step.t, LookPc(s, step.t, step)))
  {
    var t := step.t;
    var pc := PcOf(s, t);
    assert ThreadOk(s, t);
    if step.SeeList? {
      assert SlotOk(s, step.u);
    } else if step.SeeUpper? && pc.Choosing? && pc.at.Some? {
      assert EntryOk(s, pc.at.value);
      if HasLevel(s, pc.at.value, step.level) {
        ReadsUpper(s, pc.at.value, step.level);
      }
    }
    assert ThreadOk(Goto(s, t, LookPc(s, step.t, step)), t);
    hide Inv, ThreadOk, SlotOk, EntryOk, LookPc;
    GotoKeeps(s, t, LookPc(s, step.t, step));
  }

  lemma GoOnStep(s: State, step: Step)
    requires Inv(s) && GoesOn(step)
    ensures Inv(Goto(s, step.t, NextPc(s, step.t, step)))
  {
    var t := step.t;
    assert ThreadOk(s, t);
    assert ThreadOk(Goto(s, t, NextPc(s, step.t, step)), t);
    hide Inv, ThreadOk, SlotOk, EntryOk, NextPc;
    GotoKeeps(s, t, NextPc(s, step.t, step));
  }

  lemma SnapshotStep(s: State, t: ThreadId, pruned: seq<Id>)
    requires Inv(s)
    ensures Inv(ApplySnapshot(s, t, pruned))
  {
    assert ThreadOk(s, t);
    var s' := ApplySnapshot(s, t, pruned);
    if s' != s {
      assert s' == Goto(s, t, PcOf(s', t));
      assert ThreadOk(s', t);
      hide Inv, ThreadOk, SlotOk, EntryOk;
      GotoKeeps(s, t, PcOf(s', t));
    }
  }

  lemma AllocateStep(s: State, t: ThreadId, id: Id)
    requires Inv(s)
    ensures Inv(ApplyAllocate(s, t, id))
  {
    var s' := ApplyAllocate(s, t, id);
    assert ThreadOk(s, t);
    assert ThreadOk(s', t);
    hide ThreadOk, SlotOk, EntryOk;
    InvMoved(s, s', t, None, None);
  }

  lemma TakeStep(s: State, t: ThreadId)
    requires Inv(s)
    ensures Inv(ApplyTake(s, t))
  {
    var s' := ApplyTake(s, t);
    assert ThreadOk(s, t);
    assert ThreadOk(s', t);
    hide ThreadOk, SlotOk, EntryOk;
    InvMoved(s, s', t, None, None);
  }

  // Entries and ids change hands; no list does.
  lemma HandOver(s: State, s': State, t: ThreadId, pc: Pc)
    requires Inv(s) && |s'.pool.words| == |s.pool.words|
    requires s' ==
             Goto(s, t, pc).(place := s'.place, freeIds := s'.freeIds, pool := s'.pool, stack := s'.stack,
             wild := s'.wild)
    requires ThreadOk(Goto(s, t, pc), t) && forall x :: x in s'.freeIds ==> x < s.highWater
    ensures Inv(s')
  {
    assert ThreadOk(s', t);
    hide ThreadOk, SlotOk, EntryOk;
    InvMoved(s, s', t, None, None);
  }

  lemma FreeingOk(s: State, t: ThreadId, pc: Pc)
    requires ThreadOk(s, t) && PcOf(s, t).Freeing?
             && (pc.Idle? || (pc.Freeing? && (pc.back.None? || pc.back == PcOf(s, t).back)))
    ensures ThreadOk(Goto(s, t, pc), t)
    ensures PcOf(s, t).back.Some? ==> PcOf(s, t).back.value < s.highWater
  {
  }

  lemma FreeStep(s: State, t: ThreadId)
    requires Inv(s)
    ensures Inv(ApplyFreeNext(s, t))
  {
    var pc := PcOf(s, t);
    assert ThreadOk(s, t) && forall x :: x in s.freeIds ==> x < s.highWater;
    hide ThreadOk, SlotOk, EntryOk, Inv;
    if pc.Freeing? {
      var next := PcOf(ApplyFreeNext(s, t), t);
      FreeingOk(s, t, next);
      HandOver(s, ApplyFreeNext(s, t), t, next);
    }
  }

  // ---- Steps that write a list ----

  lemma WriteEntryStep(s: State, t: ThreadId, lists: seq<seq<Id>>)
    requires Inv(s)
    ensures Inv(ApplyWriteEntry(s, t, lists))
  {
    var pc := PcOf(s, t);
    var s' := ApplyWriteEntry(s, t, lists);
    if s' != s {
      var e := pc.up.value;
      var mid := Rewritten(s, e, pc.id, CutLists(lists));
      assert ThreadOk(s, t) && EntryOk(s, e);
      CutsOk(s, pc.seen, pc.id, lists);
      hide Well, CutLists, ChosenFrom, Inv, SlotOk;
      RewrittenOk(s, e, pc.id, CutLists(lists));
      WrittenMove(s, t, e, CutLists(lists));
    }
  }

  lemma WrittenMove(s: State, t: ThreadId, e: nat, lists: seq<seq<Id>>)
    requires Inv(s) && PcOf(s, t).Choosing? && PcOf(s, t).up == Some(e)
    requires EntryOk(Rewritten(s, e, PcOf(s, t).id, lists), e)
    ensures var pc := PcOf(s, t);
            Inv(Goto(Rewritten(s, e, pc.id, lists), t,
              Choosing(pc.id, pc.seen, pc.at, pc.up, true, pc.bound, pc.published)))
  {
    var pc := PcOf(s, t);
    var mid := Rewritten(s, e, pc.id, lists);
    var next := Choosing(pc.id, pc.seen, pc.at, pc.up, true, pc.bound, pc.published);
    var s' := Goto(mid, t, next);
    assert ThreadOk(s, t);
    SameEntry(mid, s', e);
    assert mid == s.(entries := mid.entries, pool := mid.pool) && |mid.pool.words| == |s.pool.words|;
    assert forall x: nat :: x != e && x in mid.entries ==> x in s.entries && mid.entries[x] == s.entries[x];
    hide Rewritten, EntryOk, SlotOk;
    assert ThreadOk(s', t);
    hide ThreadOk;
    InvMoved(s, s', t, None, Some(e));
  }

  lemma CutsOk(s: State, seen: set<Id>, id: Id, lists: seq<seq<Id>>)
    requires forall l :: 0 <= l < |lists| ==> ChosenFrom(seen, id, lists[l], 2 * s.m)
    requires forall x :: x in seen ==> x < s.highWater
    ensures forall l :: 0 <= l < |CutLists(lists)| ==>
              |CutLists(lists)[l]| <= UPPER_CAP && Well(CutLists(lists)[l], UpperCap(s), s.highWater)
  {
    forall l | 0 <= l < |CutLists(lists)|
      ensures |CutLists(lists)[l]| <= UPPER_CAP && Well(CutLists(lists)[l], UpperCap(s), s.highWater) {
      CutOk(seen, id, lists[l], 2 * s.m, UPPER_CAP, s.highWater);
    }
  }

  lemma SameEntry(s: State, s': State, e: nat)
    requires EntryOk(s, e) && s'.entries == s.entries && s'.pool == s.pool && s'.m == s.m && s'.highWater == s.highWater
    ensures EntryOk(s', e)
  {
  }

  lemma PublishStep(s: State, t: ThreadId, list: seq<Id>)
    requires Inv(s)
    ensures Inv(ApplyPublish(s, t, list))
  {
    var pc := PcOf(s, t);
    var s' := ApplyPublish(s, t, list);
    if s' != s {
      assert ThreadOk(s, t);
      CutOk(pc.seen, pc.id, list, 2 * s.m, s.cap, s.highWater);
      assert SlotOk(s', pc.id) && ThreadOk(s', t);
      hide ThreadOk, SlotOk, EntryOk, ChosenFrom;
      InvMoved(s, s', t, Some(pc.id), None);
    }
  }

  // A slot's list is replaced by a well-formed one.
  lemma SetListKeeps(s: State, t: ThreadId, id: Id, list: seq<Id>, pc: Pc)
    requires Inv(s) && id in s.slots && ListOk(id, list, s.cap, s.highWater) && ThreadOk(Goto(s, t, pc), t)
    ensures Inv(Goto(SetList(s, id, list), t, pc))
  {
    var s' := Goto(SetList(s, id, list), t, pc);
    assert SlotOk(s, id);
    assert SlotOk(s', id) && ThreadOk(s', t);
    hide ThreadOk, SlotOk, EntryOk, ListOk;
    InvMoved(s, s', t, Some(id), None);
  }

  // So is a list of an entry.
  lemma SetUpperKeeps(s: State, t: ThreadId, e: nat, level: nat, list: seq<Id>, pc: Pc)
    requires Inv(s) && HasLevel(s, e, level) && Stored(list, s.highWater) && ThreadOk(Goto(s, t, pc), t)
    requires level >= 2 ==> Well(list, UpperCap(s), s.highWater)
    ensures Inv(Goto(SetUpper(s, e, level, list), t, pc))
  {
    var s' := Goto(SetUpper(s, e, level, list), t, pc);
    assert EntryOk(s, e);
    SetUpperOk(s, e, level, list);
    SameEntry(SetUpper(s, e, level, list), s', e);
    assert ThreadOk(s', t);
    hide ThreadOk, SlotOk, EntryOk, Well, Stored;
    InvMoved(s, s', t, None, Some(e));
  }

  lemma SetIfStep(s: State, t: ThreadId)
    requires Inv(s)
    ensures Inv(ApplySetIf(s, t))
  {
    var pc := PcOf(s, t);
    assert ThreadOk(s, t);
    if pc.Prepared? {
      if IsLive(s, pc.nid) && ListOf(s, pc.nid) == pc.snapshot {
        assert SlotOk(s, pc.nid);
        ReversedOk(pc.nid, pc.snapshot, pc.id, s.cap, pc.next, s.highWater);
        SetListKeeps(s, t, pc.nid, pc.next, Linking(pc.id, pc.seen));
      } else {
        GotoKeeps(s, t, if pc.tries == 0 then Trying(pc.id, pc.seen, pc.nid, 1) else Merging(pc.id, pc.seen, pc.nid));
      }
    }
  }

  lemma MergeStep(s: State, t: ThreadId)
    requires Inv(s)
    ensures Inv(ApplyMerge(s, t))
  {
    var pc := PcOf(s, t);
    assert ThreadOk(s, t);
    if pc.Merging? {
      if IsLive(s, pc.nid) {
        assert SlotOk(s, pc.nid);
        MergedOk(pc.nid, ListOf(s, pc.nid), pc.id, s.cap, s.highWater);
        SetListKeeps(s, t, pc.nid, Merged(ListOf(s, pc.nid), pc.id, s.cap), Linking(pc.id, pc.seen));
      } else {
        GotoKeeps(s, t, Linking(pc.id, pc.seen));
      }
    }
  }

  lemma PushStep(s: State, t: ThreadId, pruned: seq<Id>)
    requires Inv(s)
    ensures Inv(ApplyPush(s, t, pruned))
  {
    var pc := PcOf(s, t);
    assert ThreadOk(s, t);
    if pc.Pushing? {
      if !HasLevel(s, pc.e, pc.level) {
        GotoKeeps(s, t, Linking(pc.id, pc.seen));
      } else if PruneFits(UpperList(s, pc.e, pc.level), pc.id, 2 * s.m, pruned) {
        assert EntryOk(s, pc.e);
        ReadsUpper(s, pc.e, pc.level);
        PushedOk(UpperList(s, pc.e, pc.level), pc.id, 2 * s.m, pruned, s.highWater);
        SetUpperKeeps(s, t, pc.e, pc.level, Pushed(UpperList(s, pc.e, pc.level), pc.id, 2 * s.m, pruned),
          Linking(pc.id, pc.seen));
      }
    }
  }

  lemma CutStep(s: State, t: ThreadId)
    requires Inv(s)
    ensures Inv(Apply(s, Cut(t)))
  {
    var pc := PcOf(s, t);
    if pc.Cutting? {
      if HasLevel(s, pc.e, pc.level) {
        var list := UpperList(s, pc.e, pc.level);
        assert EntryOk(s, pc.e);
        ReadsUpper(s, pc.e, pc.level);
        WithoutPart(list, pc.to);
        if pc.level >= 2 {
          WithoutMembers(list, pc.to);
        }
        SetUpperKeeps(s, t, pc.e, pc.level, Without(list, pc.to), Idle);
      } else {
        GotoKeeps(s, t, Idle);
      }
    }
  }

  lemma RemoveEdgeStep(s: State, from: Id, to: Id)
    requires Inv(s)
    ensures Inv(Apply(s, RemoveEdge(from, to)))
  {
    if IsLive(s, from) {
      assert SlotOk(s, from) && ThreadOk(s, 0);
      WithoutOk(from, ListOf(s, from), to, s.cap, s.highWater);
      var s' := SetList(s, from, Without(ListOf(s, from), to));
      assert SlotOk(s', from) && ThreadOk(s', 0);
      hide ThreadOk, SlotOk, EntryOk, ListOk;
      InvMoved(s, s', 0, Some(from), None);
    }
  }

  // A slot dies or loses its entry; its list stays what it was.
  lemma SlotMove(s: State, t: ThreadId, id: Id, slot: Slot, place: map<nat, Place>, pc: Pc)
    requires Inv(s) && id in s.slots && slot.list == s.slots[id].list && ThreadOk(Goto(s, t, pc), t)
    ensures Inv(Goto(s, t, pc).(slots := s.slots[id := slot], place := place))
  {
    var s' := Goto(s, t, pc).(slots := s.slots[id := slot], place := place);
    assert SlotOk(s, id);
    assert SlotOk(s', id) && ThreadOk(s', t);
    hide ThreadOk, SlotOk, EntryOk, ListOk;
    InvMoved(s, s', t, Some(id), None);
  }

  lemma TombstonePc(s: State, t: ThreadId)
    requires ThreadOk(s, t) && PcOf(s, t).Deleting?
    ensures ThreadOk(Goto(s, t, PcOf(ApplyTombstone(s, t), t)), t)
  {
  }

  lemma TombstoneStep(s: State, t: ThreadId)
    requires Inv(s)
    ensures Inv(ApplyTombstone(s, t))
  {
    var pc := PcOf(s, t);
    var s' := ApplyTombstone(s, t);
    assert ThreadOk(s, t);
    if pc.Deleting? {
      if IsLive(s, pc.id) {
        TombstonePc(s, t);
        hide Inv, ThreadOk, ListOk;
        SlotMove(s, t, pc.id, Slot(false, ListOf(s, pc.id), None), s'.place, PcOf(s', t));
      } else {
        GotoKeeps(s, t, Freeing(None, None, pc.extra));
      }
    }
  }

  lemma ClearedOk(s: State, e: nat)
    requires EntryOk(s, e)
    ensures EntryOk(ClearUpper(s, e), e) && ClearUpper(s, e) == s.(entries := ClearUpper(s, e).entries)
    ensures forall x: nat ::
            x != e && x in ClearUpper(s, e).entries ==> x in s.entries && ClearUpper(s, e).entries[x] == s.entries[x]
  {
    hide Well;
  }

  lemma ClearStep(s: State, t: ThreadId, e: nat, pc: Pc)
    requires Inv(s) && ThreadOk(Goto(s, t, pc), t)
    ensures Inv(Goto(ClearUpper(s, e), t, pc))
  {
    var s' := Goto(ClearUpper(s, e), t, pc);
    assert EntryOk(s, e);
    ClearedOk(s, e);
    SameEntry(ClearUpper(s, e), s', e);
    assert ThreadOk(s', t);
    hide ThreadOk, SlotOk, EntryOk, ClearUpper;
    InvMoved(s, s', t, None, Some(e));
  }

  lemma EmptyStep(s: State, t: ThreadId, ok: bool)
    requires Inv(s)
    ensures Inv(Apply(s, Empty(t, ok)))
  {
    var pc := PcOf(s, t);
    assert ThreadOk(s, t);
    if pc.Emptying? {
      if ok {
        ClearStep(s, t, pc.e, Freeing(Some(pc.id), Some(pc.e), pc.extra));
      } else {
        GotoKeeps(s, t, Freeing(None, None, pc.extra));
      }
    }
  }

  lemma WreckSlotStep(s: State, id: Id)
    requires Inv(s)
    ensures Inv(Apply(s, WreckSlot(id)))
  {
    var s' := Apply(s, WreckSlot(id));
    assert ThreadOk(s, 0) && SlotOk(s, id);
    if id in s.slots {
      assert s' == s.(slots := s.slots[id := Slot(false, ListOf(s, id), None)]);
      assert SlotOk(s', id) && ThreadOk(s', 0);
      hide ThreadOk, SlotOk, EntryOk, ListOk, Apply;
      InvMoved(s, s', 0, Some(id), None);
    }
  }

  lemma WreckEntryStep(s: State, e: nat)
    requires Inv(s)
    ensures Inv(ClearUpper(s, e))
  {
    var s' := ClearUpper(s, e);
    assert ThreadOk(s, 0) && EntryOk(s, e);
    ClearedOk(s, e);
    assert ThreadOk(s', 0) by {
      hide EntryOk, SlotOk;
    }
    hide ThreadOk, SlotOk, EntryOk, ClearUpper;
    InvMoved(s, s', 0, None, Some(e));
  }

  lemma InvStep(s: State, step: Step)
    requires Inv(s)
    ensures Inv(Apply(s, step))
  {
    hide Inv, ApplyAllocate, ApplyTake, ApplySnapshot, ApplySetIf, ApplyMerge, ApplyPush, ApplyPublish, ApplyWriteEntry,
      ApplyTombstone, ApplyFreeNext;
    hide LookPc, NextPc, SetUpper, ClearUpper, SetPlace, SetList;
    if Looks(step) {
      LookStep(s, step);
    } else if GoesOn(step) {
      GoOnStep(s, step);
    } else {
      match step {
        case AllocateId(t, id) => AllocateStep(s, t, id);
        case TakeEntry(t) => TakeStep(s, t);
        case FreeNext(t) => FreeStep(s, t);
        case WriteEntry(t, lists) => WriteEntryStep(s, t, lists);
        case Publish(t, list) => PublishStep(s, t, list);
        case Snapshot(t, pruned) => SnapshotStep(s, t, pruned);
        case SetIf(t) => SetIfStep(s, t);
        case Merge(t) => MergeStep(s, t);
        case Push(t, pruned) => PushStep(s, t, pruned);
        case RemoveEdge(from, to) => RemoveEdgeStep(s, from, to);
        case Cut(t) => CutStep(s, t);
        case Tombstone(t) => TombstoneStep(s, t);
        case Empty(t, ok) => EmptyStep(s, t, ok);
        case WreckSlot(id) => WreckSlotStep(s, id);
        case WreckEntry(e) => WreckEntryStep(s, e);
      }
    }
  }

  lemma {:induction false} InvRun(s: State, steps: seq<Step>)
    requires Inv(s)
    ensures Inv(Run(s, steps))
    decreases |steps|
  {
    if steps != [] {
      InvStep(s, steps[0]);
      InvRun(Apply(s, steps[0]), steps[1..]);
    }
  }

  lemma InitInv(cap: nat, m: nat, entries: nat)
    requires cap >= 1
    ensures Inv(Init(cap, m, entries))
  {
  }

  // In every run, whatever is deleted, reused, overwritten or read stale: every slot's list is duplicate-free, names
  // its own node nowhere, fits its cap and holds allocated ids only; an entry's lists above level 1 are duplicate-free
  // and within their cap; and a list of level 1, whose degree a freed entry's link may stand in for, still has at most
  // 64 ids, all allocated.
  lemma ListsWellFormed(cap: nat, m: nat, entries: nat, steps: seq<Step>)
    requires cap >= 1
    ensures var s := Run(Init(cap, m, entries), steps);
            && (forall u: Id :: u in s.slots ==> ListOk(u, s.slots[u].list, cap, s.highWater))
            && (forall e: nat, level: nat ::
              HasLevel(s, e, level) && level >= 2 ==> Well(UpperList(s, e, level), Min(2 * m, UPPER_CAP), s.highWater))
            && (forall e: nat :: HasLevel(s, e, 1) ==> Stored(UpperList(s, e, 1), s.highWater))
  {
    InitInv(cap, m, entries);
    InvRun(Init(cap, m, entries), steps);
    SizesRun(Init(cap, m, entries), steps);
    var s := Run(Init(cap, m, entries), steps);
    hide Run, Init, Well, ListOk;
    forall u: Id | u in s.slots ensures ListOk(u, s.slots[u].list, cap, s.highWater) {
      assert SlotOk(s, u);
    }
    forall e: nat, level: nat | HasLevel(s, e, level)
      ensures Stored(UpperList(s, e, level), s.highWater)
      ensures level >= 2 ==> Well(UpperList(s, e, level), Min(2 * m, UPPER_CAP), s.highWater) {
      assert EntryOk(s, e);
      ReadsUpper(s, e, level);
    }
  }

  lemma {:induction false} SizesRun(s: State, steps: seq<Step>)
    ensures Run(s, steps).cap == s.cap && Run(s, steps).m == s.m
    decreases |steps|
  {
    if steps != [] {
      SizesStep(s, steps[0]);
      SizesRun(Apply(s, steps[0]), steps[1..]);
    }
  }

  predicate IsNodeStep(step: Step) {
    step.AllocateId? || step.TakeEntry? || step.FreeNext? || step.Tombstone? || step.WriteEntry? || step.Publish?
  }

  predicate IsLinkStep(step: Step) {
    step.Snapshot? || step.SetIf? || step.Merge? || step.Push? || step.Cut? || step.RemoveEdge?
  }

  lemma SizesStep(s: State, step: Step)
    ensures Apply(s, step).cap == s.cap && Apply(s, step).m == s.m
  {
    if IsNodeStep(step) {
      NodeSizes(s, step);
    } else if IsLinkStep(step) {
      ListSizes(s, step);
    } else {
      hide LookPc, NextPc, ClearUpper;
      match step {
        case Empty(t, _) => ClearSizes(s, PcOf(s, t));
        case WreckEntry(e) => ClearSizes(s, Cutting(e, 0, 0));
        case _ =>
      }
    }
  }

  lemma NodeSizes(s: State, step: Step)
    requires IsNodeStep(step)
    ensures Apply(s, step).cap == s.cap && Apply(s, step).m == s.m
  {
    hide ApplyAllocate, ApplyTake, ApplyFreeNext, ApplyTombstone, ApplyWriteEntry, ApplyPublish;
    match step {
      case AllocateId(t, id) => AllocateSizes(s, t, id);
      case TakeEntry(t) => AllocateSizes(s, t, 0);
      case FreeNext(t) => DeleteSizes(s, t);
      case Tombstone(t) => DeleteSizes(s, t);
      case WriteEntry(t, lists) => WriteSizes(s, t, lists, []);
      case Publish(t, list) => WriteSizes(s, t, [], list);
    }
  }

  lemma ListSizes(s: State, step: Step)
    requires IsLinkStep(step)
    ensures Apply(s, step).cap == s.cap && Apply(s, step).m == s.m
  {
    hide ApplySnapshot, ApplySetIf, ApplyMerge, ApplyPush, SetUpper, Without;
    match step {
      case Snapshot(t, pruned) => LinkSizes(s, t, pruned);
      case SetIf(t) => LinkSizes(s, t, []);
      case Merge(t) => LinkSizes(s, t, []);
      case Push(t, pruned) => PushSizes(s, t, pruned);
      case Cut(t) => CutSizes(s, t);
      case RemoveEdge(_, _) =>
    }
  }

  lemma AllocateSizes(s: State, t: ThreadId, id: Id)
    ensures ApplyAllocate(s, t, id).cap == s.cap && ApplyAllocate(s, t, id).m == s.m
    ensures ApplyTake(s, t).cap == s.cap && ApplyTake(s, t).m == s.m
  {
    hide Pop;
  }

  lemma DeleteSizes(s: State, t: ThreadId)
    ensures ApplyFreeNext(s, t).cap == s.cap && ApplyFreeNext(s, t).m == s.m
    ensures ApplyTombstone(s, t).cap == s.cap && ApplyTombstone(s, t).m == s.m
  {
  }

  lemma WriteSizes(s: State, t: ThreadId, lists: seq<seq<Id>>, list: seq<Id>)
    ensures ApplyWriteEntry(s, t, lists).cap == s.cap && ApplyWriteEntry(s, t, lists).m == s.m
    ensures ApplyPublish(s, t, list).cap == s.cap && ApplyPublish(s, t, list).m == s.m
  {
    hide CutLists, ChosenFrom, Overlay, Store, EntryOf;
  }

  lemma LinkSizes(s: State, t: ThreadId, pruned: seq<Id>)
    ensures ApplySnapshot(s, t, pruned).cap == s.cap && ApplySnapshot(s, t, pruned).m == s.m
    ensures ApplySetIf(s, t).cap == s.cap && ApplySetIf(s, t).m == s.m
    ensures ApplyMerge(s, t).cap == s.cap && ApplyMerge(s, t).m == s.m
  {
    hide PrunedTo, Merged, Truncate, ListOf;
  }

  lemma PushSizes(s: State, t: ThreadId, pruned: seq<Id>)
    ensures ApplyPush(s, t, pruned).cap == s.cap && ApplyPush(s, t, pruned).m == s.m
  {
    hide PruneFits, Pushed, Overlay, Store, EntryOf, LevelsOf, UpperList;
  }

  lemma CutSizes(s: State, t: ThreadId)
    ensures Apply(s, Cut(t)).cap == s.cap && Apply(s, Cut(t)).m == s.m
  {
    hide Without, Overlay, Store, EntryOf, LevelsOf, UpperList;
  }

  lemma ClearSizes(s: State, pc: Pc)
    ensures (pc.Emptying? || pc.Cutting?) ==> ClearUpper(s, pc.e).cap == s.cap && ClearUpper(s, pc.e).m == s.m
  {
  }

  // An insert's writes read back: its entry has each list given, of at most eight, cut to 64, whatever ids it held
  // before; its slot is live, has its list cut to the cap and names the entry; and nothing else has changed.
  lemma WritesReadBack(s: State, t: ThreadId, lists: seq<seq<Id>>, list: seq<Id>)
    requires Inv(s) && PcOf(s, t).Choosing? && PcOf(s, t).up.Some?
    requires forall l :: 0 <= l < |lists| ==> ChosenFrom(PcOf(s, t).seen, PcOf(s, t).id, lists[l], 2 * s.m)
    requires ChosenFrom(PcOf(s, t).seen, PcOf(s, t).id, list, 2 * s.m)
    ensures var (s', pc) := (Apply(Apply(s, WriteEntry(t, lists)), Publish(t, list)), PcOf(s, t));
            && IsLive(s', pc.id) && ListOf(s', pc.id) == Truncate(list, s.cap) && s'.slots[pc.id].upper == pc.up
            && |LevelsOf(s', pc.up.value)| == Min(|lists|, 8)
            && (forall l :: 0 <= l < Min(|lists|, 8) ==> LevelsOf(s', pc.up.value)[l] == Truncate(lists[l], 64))
            && s'.slots == s.slots[pc.id := s'.slots[pc.id]]
            && forall e :: e != pc.up.value ==> LevelsOf(s', e) == LevelsOf(s, e)
  {
    var pc := PcOf(s, t);
    var e := pc.up.value;
    var cut := CutLists(lists);
    var s1 := Apply(s, WriteEntry(t, lists));
    var s2 := Apply(s1, Publish(t, list));
    assert ThreadOk(s, t) && EntryOk(s, e);
    CutsOk(s, pc.seen, pc.id, lists);
    RewrittenOk(s, e, pc.id, cut);
    hide *;
    CutsAre(lists);
    WritesEntry(s, t, lists);
    Publishes(s1, t, list);
    SameLevels(Rewritten(s, e, pc.id, cut), s2, e);
    forall x | x != e ensures LevelsOf(s2, x) == LevelsOf(s, x) {
      SameLevels(Rewritten(s, e, pc.id, cut), s2, x);
      OtherLevels(s, e, pc.id, cut, x);
    }
  }

  lemma CutsAre(lists: seq<seq<Id>>)
    ensures |CutLists(lists)| == Min(|lists|, 8)
    ensures forall l :: 0 <= l < |CutLists(lists)| ==> CutLists(lists)[l] == Truncate(lists[l], 64)
  {
  }

  lemma WritesEntry(s: State, t: ThreadId, lists: seq<seq<Id>>)
    requires PcOf(s, t).Choosing? && PcOf(s, t).up.Some?
    requires forall l :: 0 <= l < |lists| ==> ChosenFrom(PcOf(s, t).seen, PcOf(s, t).id, lists[l], 2 * s.m)
    ensures var (s', pc) := (Apply(s, WriteEntry(t, lists)), PcOf(s, t));
            var mid := Rewritten(s, pc.up.value, pc.id, CutLists(lists));
            && s'.entries == mid.entries && s'.pool == mid.pool && s'.slots == s.slots && s'.m == s.m && s'.cap == s.cap
            && PcOf(s', t) == Choosing(pc.id, pc.seen, pc.at, pc.up, true, pc.bound, pc.published)
  {
    hide CutLists, ChosenFrom;
  }

  lemma Publishes(s: State, t: ThreadId, list: seq<Id>)
    requires PcOf(s, t).Choosing? && ChosenFrom(PcOf(s, t).seen, PcOf(s, t).id, list, 2 * s.m)
    ensures var (s', pc) := (Apply(s, Publish(t, list)), PcOf(s, t));
            && s'.entries == s.entries && s'.pool == s.pool && IsLive(s', pc.id)
            && ListOf(s', pc.id) == Truncate(list, s.cap)
            && s'.slots == s.slots[pc.id := s'.slots[pc.id]]
            && s'.slots[pc.id].upper == if pc.written then pc.up else None
  {
    hide ChosenFrom;
  }

  lemma OtherLevels(s: State, e: nat, id: Id, lists: seq<seq<Id>>, x: nat)
    requires x != e
    ensures LevelsOf(Rewritten(s, e, id, lists), x) == LevelsOf(s, x)
  {
  }

  // No update is lost: a step of a reverse edge leaves every list but its own as it was, and turns the list as it
  // stands at that very step into its replacement. A merge always leaves the new id in.
  lemma ReverseEdgeIsAtomic(cap: nat, m: nat, entries: nat, steps: seq<Step>, step: Step)
    requires cap >= 1 && (step.SetIf? || step.Merge?)
    ensures var s := Run(Init(cap, m, entries), steps);
            var s' := Apply(s, step);
            var pc := PcOf(s, step.t);
            s'.entries == s.entries && (s'.slots != s.slots ==>
              && (pc.Prepared? || pc.Merging?) && IsLive(s, pc.nid)
              && s'.slots == s.slots[pc.nid := s.slots[pc.nid].(list := ListOf(s', pc.nid))]
              && Reversed(ListOf(s, pc.nid), pc.id, s.cap, ListOf(s', pc.nid))
              && (step.Merge? ==> pc.id in ListOf(s', pc.nid)))
  {
    InitInv(cap, m, entries);
    InvRun(Init(cap, m, entries), steps);
    var s := Run(Init(cap, m, entries), steps);
    hide Run;
    var pc := PcOf(s, step.t);
    assert ThreadOk(s, step.t);
    if pc.Merging? {
      assert SlotOk(s, pc.nid);
      MergedOk(pc.nid, ListOf(s, pc.nid), pc.id, s.cap, s.highWater);
      assert |Merged(ListOf(s, pc.nid), pc.id, s.cap)| <= s.cap;
    }
    hide ListOk, PrunedTo, SlotOk, EntryOk, Merged;
  }

  // The exchange of a live node's list takes effect just when that list is still the one read; the merge always does,
  // and leaves the new id behind all that there was room for.
  lemma ReverseEdgeTakes(s: State, t: ThreadId)
    requires Inv(s)
    ensures var (s', pc) := (Apply(s, SetIf(t)), PcOf(s, t));
            pc.Prepared? && IsLive(s, pc.nid) ==>
              var list := ListOf(s, pc.nid);
              ListOf(s', pc.nid) == (if list == pc.snapshot then pc.next else list)
              && (PcOf(s', t).Linking? <==> list == pc.snapshot)
    ensures var (s', pc) := (Apply(s, Merge(t)), PcOf(s, t));
            pc.Merging? && IsLive(s, pc.nid) ==>
              var list := ListOf(s, pc.nid);
              ListOf(s', pc.nid) == if pc.id in list then list else Truncate(list, s.cap - 1) + [pc.id]
  {
    hide *;
    SetIfTakes(s, t);
    MergeTakes(s, t);
  }

  lemma SetIfTakes(s: State, t: ThreadId)
    ensures var (s', pc) := (Apply(s, SetIf(t)), PcOf(s, t));
            pc.Prepared? && IsLive(s, pc.nid) ==>
              var list := ListOf(s, pc.nid);
              ListOf(s', pc.nid) == (if list == pc.snapshot then pc.next else list)
              && (PcOf(s', t).Linking? <==> list == pc.snapshot)
  {
  }

  lemma MergeTakes(s: State, t: ThreadId)
    requires Inv(s)
    ensures var (s', pc) := (Apply(s, Merge(t)), PcOf(s, t));
            pc.Merging? && IsLive(s, pc.nid) ==>
              var list := ListOf(s, pc.nid);
              ListOf(s', pc.nid) == if pc.id in list then list else Truncate(list, s.cap - 1) + [pc.id]
  {
    var pc := PcOf(s, t);
    assert ThreadOk(s, t);
    if pc.Merging? {
      assert SlotOk(s, pc.nid);
      MergedOk(pc.nid, ListOf(s, pc.nid), pc.id, s.cap, s.highWater);
    }
    hide EntryOk, SlotOk, ThreadOk, ListOk, PrunedTo, Merged, Inv;
  }

  // A layer-0 removal takes just the one id out of a live node's list as it stands at that step.
  lemma RemovalIsAtomic(s: State, from: Id, to: Id)
    requires Inv(s)
    ensures var s' := Apply(s, RemoveEdge(from, to));
            && s'.entries == s.entries && (!IsLive(s, from) ==> s' == s)
            && (IsLive(s, from) ==>
                  && s' == SetList(s, from, ListOf(s', from))
                  && forall x :: x in ListOf(s', from) <==> x in ListOf(s, from) && x != to)
  {
    if IsLive(s, from) {
      assert SlotOk(s, from);
      WithoutMembers(ListOf(s, from), to);
    }
    hide ThreadOk, EntryOk;
  }

  // So does a removal at an upper level, in whichever node's entry the index that was read has become; at level 1 where
  // the list repeats nothing.
  lemma CutIsAtomic(s: State, t: ThreadId)
    requires PcOf(s, t).Cutting? && EntryOk(s, PcOf(s, t).e)
    ensures var (s', pc) := (Apply(s, Cut(t)), PcOf(s, t));
            && PcOf(s', t).Idle? && s'.slots == s.slots
            && (!HasLevel(s, pc.e, pc.level) ==> s' == Goto(s, t, Idle))
            && (HasLevel(s, pc.e, pc.level) ==>
                  && LevelsOf(s', pc.e) ==
                    LevelsOf(s, pc.e)[pc.level - 1 := Without(UpperList(s, pc.e, pc.level), pc.to)]
                  && (NoDup(UpperList(s, pc.e, pc.level)) ==>
                        forall x :: x in LevelsOf(s', pc.e)[pc.level - 1] <==>
                          x in UpperList(s, pc.e, pc.level) && x != pc.to))
  {
    var pc := PcOf(s, t);
    if HasLevel(s, pc.e, pc.level) {
      var list := UpperList(s, pc.e, pc.level);
      ReadsUpper(s, pc.e, pc.level);
      WithoutPart(list, pc.to);
      SetUpperReads(s, pc.e, pc.level, Without(list, pc.to));
      SameLevels(SetUpper(s, pc.e, pc.level, Without(list, pc.to)), Apply(s, Cut(t)), pc.e);
      if NoDup(list) {
        WithoutMembers(list, pc.to);
      }
    }
    hide EntryOk, Without;
  }

  // So does a push at an upper level, in whichever node's entry the index that was read has become: of that one list
  // it drops only what a prune or the entry's size makes it drop, and with room it appends.
  lemma PushIsAtomic(cap: nat, m: nat, entries: nat, steps: seq<Step>, t: ThreadId, pruned: seq<Id>)
    requires cap >= 1
    ensures var s := Run(Init(cap, m, entries), steps);
            var s' := ApplyPush(s, t, pruned);
            var pc := PcOf(s, t);
            s'.slots == s.slots && (pc.Pushing? && HasLevel(s, pc.e, pc.level) && s' != s ==>
              && HasLevel(s', pc.e, pc.level)
              && s' == Goto(SetUpper(s, pc.e, pc.level, UpperList(s', pc.e, pc.level)), t, Linking(pc.id, pc.seen))
              && (forall x :: x in UpperList(s', pc.e, pc.level) ==> x in UpperList(s, pc.e, pc.level) || x == pc.id)
              && (pc.id in UpperList(s, pc.e, pc.level) ==>
                UpperList(s', pc.e, pc.level) == UpperList(s, pc.e, pc.level))
              && (pc.id !in UpperList(s, pc.e, pc.level) && |UpperList(s, pc.e, pc.level)| < UpperCap(s) ==>
                    UpperList(s', pc.e, pc.level) == UpperList(s, pc.e, pc.level) + [pc.id]))
  {
    InitInv(cap, m, entries);
    InvRun(Init(cap, m, entries), steps);
    var s := Run(Init(cap, m, entries), steps);
    hide Run;
    var pc := PcOf(s, t);
    assert ThreadOk(s, t);
    if pc.Pushing? && HasLevel(s, pc.e, pc.level) && PruneFits(UpperList(s, pc.e, pc.level), pc.id, 2 * s.m, pruned) {
      var list := UpperList(s, pc.e, pc.level);
      var next := Pushed(list, pc.id, 2 * s.m, pruned);
      assert EntryOk(s, pc.e);
      ReadsUpper(s, pc.e, pc.level);
      PushedOk(list, pc.id, 2 * s.m, pruned, s.highWater);
      SetUpperReads(s, pc.e, pc.level, next);
      SameLevels(SetUpper(s, pc.e, pc.level, next), ApplyPush(s, t, pruned), pc.e);
    }
    hide Well, PrunedTo, SlotOk, EntryOk;
  }

  lemma SameLevels(s: State, s': State, e: nat)
    requires s'.entries == s.entries && s'.pool == s.pool
    ensures LevelsOf(s', e) == LevelsOf(s, e)
  {
  }

  // ---- What selection hands a write ----

  // The list a look of thread `t` reads: nothing where there is no such node or level.
  function ReadBy(s: State, step: Step, t: ThreadId): Option<seq<Id>> {
    var pc := PcOf(s, t);
    match step
    case SeeList(v, u) => if v == t then Some(if IsLive(s, u) then ListOf(s, u) else []) else None
    case SeeUpper(v, level) =>
      if v != t then None
      else if pc.Choosing? && pc.at.Some? && HasLevel(s, pc.at.value, level) then Some(UpperList(s, pc.at.value, level))
      else Some([])
    case _ => None
  }

  // The run reads these lists for thread `t`, one after the other, whatever happens in between.
  ghost predicate Looked(s: State, steps: seq<Step>, t: ThreadId, looks: seq<seq<Id>>)
    decreases |steps|
  {
    looks == [] ||
    (steps != [] &&
      ((ReadBy(s, steps[0], t) == Some(looks[0]) && Looked(Apply(s, steps[0]), steps[1..], t, looks[1..])) ||
        Looked(Apply(s, steps[0]), steps[1..], t, looks)))
  }

  // Thread `t` goes on choosing.
  predicate Stays(steps: seq<Step>, t: ThreadId) {
    forall i :: 0 <= i < |steps| ==> !(GoesOn(steps[i]) && steps[i].t == t)
  }

  lemma OthersStep(s: State, step: Step, t: ThreadId)
    requires PcOf(s, t).Choosing? && GoesOn(step) && step.t != t
    ensures PcOf(Apply(s, step), t) == PcOf(s, t)
  {
    hide NextPc, PcOf;
    assert Apply(s, step) == Goto(s, step.t, NextPc(s, step.t, step));
    OtherPc(s, step.t, NextPc(s, step.t, step), t);
  }

  lemma OtherPc(s: State, v: ThreadId, pc: Pc, t: ThreadId)
    ensures PcOf(Goto(s, v, pc), t) == if v == t then pc else PcOf(s, t)
  {
  }

  lemma LookSees(s: State, step: Step, t: ThreadId)
    requires PcOf(s, t).Choosing? && Looks(step)
    ensures var (was, pc) := (PcOf(s, t), PcOf(Apply(s, step), t));
            && pc.Choosing? && pc.id == was.id && was.seen <= pc.seen
            && (ReadBy(s, step, t).Some? ==> Elems(ReadBy(s, step, t).value) <= pc.seen)
  {
    assert Apply(s, step) == Goto(s, step.t, LookPc(s, step.t, step));
    OtherPc(s, step.t, LookPc(s, step.t, step), t);
    hide Apply, ListOf, HasLevel, UpperList, UpperOf, IsLive, Goto, PcOf, Elems;
  }

  // A thread that is choosing is left at the same job, with as much seen.
  predicate SameJob(was: Pc, pc: Pc) {
    was.Choosing? ==> pc.Choosing? && pc.id == was.id && pc.seen == was.seen
  }

  lemma WriteKeepsJob(s: State, step: Step, t: ThreadId)
    requires step.AllocateId? || step.TakeEntry? || step.WriteEntry? || step.Publish?
    ensures SameJob(PcOf(s, t), PcOf(Apply(s, step), t))
  {
    assert forall e, id, lists :: Rewritten(s, e, id, lists).threads == s.threads;
    hide Pop, CutLists, Truncate, ChosenFrom, Rewritten;
  }

  lemma ReverseKeepsJob(s: State, step: Step, t: ThreadId)
    requires step.Snapshot? || step.SetIf? || step.Merge?
    ensures SameJob(PcOf(s, t), PcOf(Apply(s, step), t))
  {
    hide ListOf, IsLive, Truncate, Merged, PrunedTo;
  }

  lemma UpdateKeepsJob(s: State, step: Step, t: ThreadId)
    requires step.Push? || step.Cut?
    ensures SameJob(PcOf(s, t), PcOf(Apply(s, step), t))
  {
    assert forall e, level, list | HasLevel(s, e, level) :: SetUpper(s, e, level, list).threads == s.threads;
    hide HasLevel, UpperList, PruneFits, Pushed, Without, SetUpper;
  }

  lemma DeleteKeepsJob(s: State, step: Step, t: ThreadId)
    requires step.Tombstone? || step.Empty?
    ensures SameJob(PcOf(s, t), PcOf(Apply(s, step), t))
  {
    hide ListOf, IsLive, UpperOf;
  }

  lemma FreeKeepsJob(s: State, step: Step, t: ThreadId)
    requires step.FreeNext?
    ensures SameJob(PcOf(s, t), PcOf(Apply(s, step), t))
  {
    assert forall e :: FreeEntry(s, e).threads == s.threads;
    hide FreeEntry;
  }

  // One step of the run leaves the job as it is and takes into account what it read.
  lemma SeesStep(s: State, step: Step, t: ThreadId)
    requires PcOf(s, t).Choosing? && !(GoesOn(step) && step.t == t)
    ensures var (was, pc) := (PcOf(s, t), PcOf(Apply(s, step), t));
            && pc.Choosing? && pc.id == was.id && was.seen <= pc.seen
            && (ReadBy(s, step, t).Some? ==> Elems(ReadBy(s, step, t).value) <= pc.seen)
  {
    if Looks(step) {
      LookSees(s, step, t);
    } else {
      assert ReadBy(s, step, t).None?;
      if step.RemoveEdge? || step.WreckSlot? || step.WreckEntry? {
        assert Apply(s, step).threads == s.threads;
      }
      hide Apply, ReadBy;
      if GoesOn(step) {
        OthersStep(s, step, t);
      } else if step.AllocateId? || step.TakeEntry? || step.WriteEntry? || step.Publish? {
        WriteKeepsJob(s, step, t);
      } else if step.Snapshot? || step.SetIf? || step.Merge? {
        ReverseKeepsJob(s, step, t);
      } else if step.Tombstone? || step.Empty? {
        DeleteKeepsJob(s, step, t);
      } else if step.FreeNext? {
        FreeKeepsJob(s, step, t);
      } else if step.Push? || step.Cut? {
        UpdateKeepsJob(s, step, t);
      }
    }
  }

  lemma {:induction false} SeenLooked(s: State, steps: seq<Step>, t: ThreadId, looks: seq<seq<Id>>)
    requires PcOf(s, t).Choosing? && Stays(steps, t) && Looked(s, steps, t, looks)
    ensures var (was, pc) := (PcOf(s, t), PcOf(Run(s, steps), t));
            && pc.Choosing? && pc.id == was.id && was.seen <= pc.seen
            && forall x :: Shown(looks, x) ==> x in pc.seen
    decreases |steps|
  {
    if steps != [] {
      SeesStep(s, steps[0], t);
      var next := Apply(s, steps[0]);
      hide Apply, ReadBy;
      assert Stays(steps[1..], t);
      if looks == [] || Looked(next, steps[1..], t, looks) {
        SeenLooked(next, steps[1..], t, looks);
      } else {
        SeenLooked(next, steps[1..], t, looks[1..]);
        forall x | Shown(looks, x) ensures x in PcOf(Run(s, steps), t).seen {
          var i :| 0 <= i < |looks| && x in looks[i];
          if i > 0 {
            assert x in looks[1..][i - 1] && Shown(looks[1..], x);
          }
        }
      }
    }
  }

  // What one level of selection, as RacingLevel leaves it, may link to is what a write of this machine is given: any
  // run in which the thread saw the entry and made the same looks has it chosen from what the thread has seen.
  lemma LevelIsChosen(
    s: State, steps: seq<Step>, t: ThreadId, looks: seq<seq<Id>>, entry: Id, seen: set<Id>, conns: seq<Id>, limit: nat)
    requires PcOf(s, t).Choosing? && Stays(steps, t) && Looked(s, steps, t, looks) && entry in PcOf(s, t).seen
    requires ChosenFrom({entry} + seen, PcOf(s, t).id, conns, limit) && forall x :: x in seen ==> Shown(looks, x)
    ensures var pc := PcOf(Run(s, steps), t); pc.Choosing? && ChosenFrom(pc.seen, pc.id, conns, limit)
  {
    SeenLooked(s, steps, t, looks);
    hide Run, Looked, Stays;
  }
}
