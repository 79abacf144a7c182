/** Upper-layer entries and the slots that name them: insert, abandon and delete on a standalone plane, the raw
    mirroring writes, and list updates that read an entry's index before they lock the entry, with writers that die and
    locks that wedge. The entries' freelist runs through the entries' own list bytes. */
module Uppers {
  import opened Core
  import opened UpperPool

  type ThreadId = nat

  datatype Mode = Standalone | Raw
  datatype Flag = Untouched | Valid | Deleted

  // `upper` is a stored word: a fresh file's zero reads as entry 0 until the slot is touched.
  datatype Slot = Slot(flag: Flag, upper: Option<nat>, torn: bool)

  // Where an entry is; Bound(id) entries are for slot id alone.
  datatype Place = Never | Free | HeldBy(t: ThreadId) | Bound(id: nat)

  // Freeing gives back the slot's entry, the id, and an abandoned insert's own entry, in this order. Pushing is
  // update_upper_level between its read of the index and the entry's lock.
  datatype Pc =
    | Idle
    | HasId(id: nat)
    | Edgeless(id: nat, up: Option<nat>)
    | Published(id: nat, up: Option<nat>)
    | Ready(id: nat, published: bool, slotUp: Option<nat>, up: Option<nat>)
    | Abandoning(id: nat, extra: Option<nat>)
    | Emptying(id: nat, gone: nat, extra: Option<nat>)
    | Freeing(first: Option<nat>, back: Option<nat>, extra: Option<nat>)
    | RawRead(id: nat, existing: Option<nat>)
    | RawReady(id: nat, existing: Option<nat>, made: Option<nat>)
    | Backfill(id: nat, made: Option<nat>)
    | Pushing(e: nat)
    | Dead

  // `full[e]`: the entry has levels. `stack` lists the free entries beside the links that should spell it out. `wild`:
  // a freed id was written to or freed again, so the ids' own chain means nothing any more.
  datatype State = State(
    mode: Mode, slots: seq<Slot>, pool: Pool, full: seq<bool>, stack: seq<nat>, places: seq<Place>,
    freeIds: set<nat>, nextId: nat, wild: bool, threads: map<ThreadId, Pc>, clean: bool)

  // What a write of an entry comes to: none wanted, one written with that many ids at level 1, or an entry lock that
  // wedges, which loses an entry just taken.
  datatype Take = Skip | Grant(degree: nat) | Wedge

  datatype Step =
    | AllocateId(t: ThreadId, id: nat)
    | EdgelessUpper(t: ThreadId, take: Take)
    | PublishEdgeless(t: ThreadId, ok: bool)
    | ClaimWon(t: ThreadId)
    | Unresolved(t: ThreadId)
    | JoinUpper(t: ThreadId, take: Take)
    | FinalWrite(t: ThreadId, ok: bool)
    | StartDelete(t: ThreadId, id: nat)
    | Tombstone(t: ThreadId)
    | EmptyUpper(t: ThreadId, ok: bool)
    | FreeOne(t: ThreadId)
    | ReadExisting(t: ThreadId, id: nat)
    | RawUpper(t: ThreadId, take: Take)
    | RawWrite(t: ThreadId, ok: bool)
    | BackfillUpper(t: ThreadId, id: nat, take: Take)
    | BackfillWrite(t: ThreadId, ok: bool)
    | ClearNode(id: nat)
    | FindIndex(t: ThreadId, id: nat)
    | Update(t: ThreadId, degree: nat)
    | Crash(t: ThreadId)
    | Tear(id: nat, junk: Slot)
    | Sanitize(id: nat)
    | SanitizeUpper(e: nat)

  function PcOf(s: State, t: ThreadId): Pc {
    if t in s.threads then s.threads[t] else Idle
  }

  function Goto(s: State, t: ThreadId, pc: Pc): State {
    s.(threads := s.threads[t := pc])
  }

  // The id an insert is working on, until it returns or gives up.
  predicate Inserting(pc: Pc, id: nat) {
    (pc.HasId? || pc.Edgeless? || pc.Published? || pc.Ready?) && pc.id == id
  }

  function SetPlace(s: State, e: nat, p: Place): State {
    if e < |s.places| then s.(places := s.places[e := p]) else s
  }

  function SetFull(s: State, e: nat, full: bool): State {
    if e < |s.full| then s.(full := s.full[e := full]) else s
  }

  // The entry's lists are written whole.
  function Written(s: State, e: nat, degree: nat): State {
    SetFull(s.(pool := Store(s.pool, e, degree)), e, true)
  }

  // allocate_upper: what comes off the chain, or the next entry never issued.
  function Popped(s: State, t: ThreadId): (State, Option<nat>) {
    var (pool, r) := Pop(s.pool);
    var s1 := s.(pool := pool, stack := Rest(s.stack));
    (if r.Some? then SetPlace(s1, r.value, HeldBy(t)) else s1, r)
  }

  // write_upper: an entry and its first write, which a wedged entry lock loses.
  function Taken(s: State, t: ThreadId, take: Take): (State, Option<nat>) {
    if take.Skip? then (s, None)
    else
      var (s1, r) := Popped(s, t);
      if r.None? then (s1, None)
      else if take.Wedge? then (s1.(clean := false), None)
      else (Written(s1, r.value, take.degree), r)
  }

  // The slot goes out with its entry. Written to while its id is free, it overwrites the ids' link.
  function Bind(s: State, id: nat, up: Option<nat>): State {
    if id < |s.slots| then
      var s1 := s.(slots := s.slots[id := Slot(Valid, up, s.slots[id].torn)], wild := s.wild || id in s.freeIds);
      if up.Some? then SetPlace(s1, up.value, Bound(id)) else s1
    else s
  }

  function Apply(s: State, step: Step): State {
    match step
    case AllocateId(t, id) => ApplyAllocate(s, t, id)
    case EdgelessUpper(t, take) =>
      var pc := PcOf(s, t);
      if pc.HasId? then
        var r := Taken(s, t, take);
        Goto(r.0, t, Edgeless(pc.id, r.1))
      else s
    case PublishEdgeless(t, ok) =>
      var pc := PcOf(s, t);
      if !pc.Edgeless? || pc.id >= |s.slots| || s.slots[pc.id].torn then s
      else if ok then Goto(Bind(s, pc.id, pc.up), t, Published(pc.id, pc.up))
      else Goto(s, t, Freeing(pc.up, Some(pc.id), None))
    case ClaimWon(t) => if PcOf(s, t).Published? then Goto(s, t, Idle) else s
    case Unresolved(t) =>
      var pc := PcOf(s, t);
      if pc.Published? then Goto(s, t, Abandoning(pc.id, None))
      else if pc.HasId? then Goto(s, t, Freeing(None, Some(pc.id), None))
      else s
    case JoinUpper(t, take) => ApplyJoinUpper(s, t, take)
    case FinalWrite(t, ok) =>
      var pc := PcOf(s, t);
      if !pc.Ready? || pc.id >= |s.slots| || s.slots[pc.id].torn then s
      else if ok then Goto(Bind(s, pc.id, pc.up), t, Idle)
      else if pc.published then Goto(s, t, Abandoning(pc.id, if pc.up != pc.slotUp then pc.up else None))
      else Goto(s, t, Freeing(pc.up, Some(pc.id), None))
    case StartDelete(t, id) =>
      if s.mode.Standalone? && PcOf(s, t).Idle? && id < |s.slots| then Goto(s, t, Abandoning(id, None)) else s
    case Tombstone(t) => ApplyTombstone(s, t)
    case EmptyUpper(t, ok) =>
      var pc := PcOf(s, t);
      if !pc.Emptying? then s
      else if ok then Goto(SetFull(s, pc.gone, false), t, Freeing(Some(pc.gone), Some(pc.id), pc.extra))
      else Goto(s, t, Freeing(None, None, pc.extra)).(clean := false)
    case FreeOne(t) => ApplyFreeOne(s, t)
    case ReadExisting(t, id) =>
      if s.mode.Raw? && PcOf(s, t).Idle? && id < |s.slots| && !s.slots[id].torn then
        Goto(s, t, RawRead(id, if s.slots[id].flag.Untouched? then None else s.slots[id].upper))
      else s
    case RawUpper(t, take) => ApplyRawUpper(s, t, take)
    case RawWrite(t, ok) =>
      var pc := PcOf(s, t);
      if !pc.RawReady? || pc.id >= |s.slots| || s.slots[pc.id].torn then s
      else if ok then Goto(Bind(s, pc.id, if pc.made.Some? then pc.made else pc.existing), t, Idle)
      else Goto(s, t, Freeing(pc.made, None, None))
    case BackfillUpper(t, id, take) => ApplyBackfillUpper(s, t, id, take)
    case BackfillWrite(t, ok) =>
      var pc := PcOf(s, t);
      if !pc.Backfill? || pc.id >= |s.slots| || s.slots[pc.id].torn then s
      else if ok && s.slots[pc.id].flag.Untouched? then Goto(Bind(s, pc.id, pc.made), t, Idle)
      else Goto(s, t, Freeing(pc.made, None, None))
    case ClearNode(id) =>
      if s.mode.Raw? && id < |s.slots| && !s.slots[id].torn then
        var kept := if s.slots[id].flag.Untouched? then None else s.slots[id].upper;
        s.(slots := s.slots[id := Slot(Deleted, kept, false)])
      else s
    case FindIndex(t, id) =>
      if PcOf(s, t).Idle? && id < |s.slots| && s.slots[id].flag.Valid? && !s.slots[id].torn
        && s.slots[id].upper.Some? then
        Goto(s, t, Pushing(s.slots[id].upper.value))
      else s
    case Update(t, degree) => ApplyUpdate(s, t, degree)
    case Crash(t) => Goto(s, t, Dead).(clean := false)
    case Tear(id, junk) => if id < |s.slots| then s.(slots := s.slots[id := junk.(torn := true)], clean := false) else s
    case Sanitize(id) =>
      if id < |s.slots| && s.slots[id].torn then s.(slots := s.slots[id := Slot(Deleted, None, false)]) else s
    // a writer died holding the entry's lock: the takeover leaves it without levels
    case SanitizeUpper(e) => SetFull(s, e, false)
  }

  // An id comes off its freelist or is the next new one; once that chain is broken, it may be any.
  function ApplyAllocate(s: State, t: ThreadId, id: nat): State {
    if s.mode.Standalone? && PcOf(s, t).Idle? && id < |s.slots| && (id in s.freeIds || id == s.nextId || s.wild) then
      Goto(s.(freeIds := s.freeIds - {id}, nextId := if id == s.nextId then s.nextId + 1 else s.nextId), t, HasId(id))
    else s
  }

  // The join path: an entry already published is rewritten in place, else a new one is written.
  function ApplyJoinUpper(s: State, t: ThreadId, take: Take): State {
    var pc := PcOf(s, t);
    if pc.Published? && pc.up.Some? then
      match take
      case Skip => Goto(s, t, Ready(pc.id, true, pc.up, pc.up))
      case Grant(degree) => Goto(Written(s, pc.up.value, degree), t, Ready(pc.id, true, pc.up, pc.up))
      case Wedge => Goto(s, t, Idle)
    else if pc.Published? || pc.HasId? then
      var r := Taken(s, t, take);
      Goto(r.0, t, Ready(pc.id, pc.Published?, None, r.1))
    else s
  }

  // write_node_raw: the slot's entry is rewritten in place, or emptied there, or a new one is written.
  function ApplyRawUpper(s: State, t: ThreadId, take: Take): State {
    var pc := PcOf(s, t);
    if !pc.RawRead? then s
    else if pc.existing.Some? then
      match take
      case Skip => Goto(SetFull(s, pc.existing.value, false), t, RawReady(pc.id, pc.existing, None))
      case Grant(degree) => Goto(Written(s, pc.existing.value, degree), t, RawReady(pc.id, pc.existing, None))
      case Wedge => Goto(s, t, Idle)
    else
      var r := Taken(s, t, take);
      Goto(r.0, t, if take.Wedge? then Idle else RawReady(pc.id, None, r.1))
  }

  // write_node_if_untouched takes its entry before it looks at the slot.
  function ApplyBackfillUpper(s: State, t: ThreadId, id: nat, take: Take): State {
    if s.mode.Raw? && PcOf(s, t).Idle? && id < |s.slots| then
      var r := Taken(s, t, take);
      Goto(r.0, t, if take.Wedge? then Idle else Backfill(id, r.1))
    else s
  }

  // delete_node's locked section: only a valid slot gives up its entry and, in time, its id.
  function ApplyTombstone(s: State, t: ThreadId): State {
    var pc := PcOf(s, t);
    if !pc.Abandoning? || pc.id >= |s.slots| || s.slots[pc.id].torn then s
    else if !s.slots[pc.id].flag.Valid? then Goto(s, t, Freeing(None, None, pc.extra))
    else
      var up := s.slots[pc.id].upper;
      var s1 := s.(slots := s.slots[pc.id := Slot(Deleted, None, false)]);
      if up.None? then Goto(s1, t, Freeing(None, Some(pc.id), pc.extra))
      else Goto(SetPlace(s1, up.value, HeldBy(t)), t, Emptying(pc.id, up.value, pc.extra))
  }

  // free_upper: the entry's first list word becomes its link.
  function FreeEntry(s: State, e: nat): State {
    SetPlace(s.(pool := Push(s.pool, e), stack := [e] + s.stack), e, Free)
  }

  function ApplyFreeOne(s: State, t: ThreadId): State {
    var pc := PcOf(s, t);
    if !pc.Freeing? then s
    else if pc.first.Some? then Goto(FreeEntry(s, pc.first.value), t, Freeing(None, pc.back, pc.extra))
    else if pc.back.Some? then
      Goto(s.(freeIds := s.freeIds + {pc.back.value}, wild := s.wild || pc.back.value in s.freeIds), t,
           Freeing(None, None, pc.extra))
    else if pc.extra.Some? then Goto(FreeEntry(s, pc.extra.value), t, Freeing(None, None, None))
    else Goto(s, t, Idle)
  }

  // update_upper_level under the entry's lock: an entry without levels is left alone, else any closure stores the
  // degree it ends with, at most 64.
  function ApplyUpdate(s: State, t: ThreadId, degree: nat): State {
    var pc := PcOf(s, t);
    if !pc.Pushing? || degree > UPPER_CAP then s
    else if pc.e < |s.full| && s.full[pc.e] then Goto(s.(pool := Store(s.pool, pc.e, degree)), t, Idle)
    else Goto(s, t, Idle)
  }

  function Init(mode: Mode, ids: nat, entries: nat): State {
    State(mode, seq(ids, _ => Slot(Untouched, Some(0), false)), Pool(NO_UPPER, seq(entries, _ => 0), 0),
          seq(entries, _ => false), [], seq(entries, _ => Never), {}, 0, false, map[], true)
  }

  function Run(s: State, steps: seq<Step>): State
    decreases |steps|
  {
    if steps == [] then s else Run(Apply(s, steps[0]), steps[1..])
  }

  // ---- The provisos ----

  // A delete whose tombstone lands: the slot is valid.
  predicate Lands(s: State, t: ThreadId) {
    var pc := PcOf(s, t);
    pc.Abandoning? && pc.id < |s.slots| && !s.slots[pc.id].torn && s.slots[pc.id].flag.Valid?
  }

  // It has an entry to give up.
  predicate GivesUp(s: State, t: ThreadId) {
    Lands(s, t) && s.slots[PcOf(s, t).id].upper.Some?
  }

  function GivenUp(s: State, t: ThreadId): nat
    requires GivesUp(s, t)
  {
    s.slots[PcOf(s, t).id].upper.value
  }

  // No tombstone takes an entry that an insert still under way means to store again.
  ghost predicate SparesInserts(s: State, step: Step) {
    step.Tombstone? && GivesUp(s, step.t) ==> forall u: ThreadId ::
      u != step.t ==> !Refers(PcOf(s, u), GivenUp(s, step.t))
  }

  // The entry a step gives back to the freelist.
  function Frees(s: State, step: Step): Option<nat> {
    if step.FreeOne? && PcOf(s, step.t).Freeing? then
      var pc := PcOf(s, step.t);
      if pc.first.Some? then pc.first else if pc.back.None? then pc.extra else None
    else None
  }

  predicate IsFull(s: State, e: nat) {
    e < |s.full| && s.full[e]
  }

  // An entry goes back only without levels, or with no update still holding its index.
  ghost predicate FreesQuiet(s: State, step: Step) {
    Frees(s, step).Some? && IsFull(s, Frees(s, step).value) ==>
      forall u: ThreadId :: PcOf(s, u) != Pushing(Frees(s, step).value)
  }

  ghost predicate Careful(s: State, step: Step) {
    SparesInserts(s, step) && FreesQuiet(s, step)
  }

  ghost predicate CarefulRun(s: State, steps: seq<Step>)
    decreases |steps|
  {
    steps != [] ==> Careful(s, steps[0]) && CarefulRun(Apply(s, steps[0]), steps[1..])
  }

  // ---- Invariant ----

  // Entries a thread alone is entitled to: taken and not yet published, or given up and not yet freed.
  predicate Holds(pc: Pc, e: nat) {
    match pc
    case Edgeless(_, up) => up == Some(e)
    case Ready(_, _, slotUp, up) => up == Some(e) && up != slotUp
    case Abandoning(_, extra) => extra == Some(e)
    case Emptying(_, gone, extra) => gone == e || extra == Some(e)
    case Freeing(first, _, extra) => first == Some(e) || extra == Some(e)
    case RawReady(_, _, made) => made == Some(e)
    case Backfill(_, made) => made == Some(e)
    case _ => false
  }

  // Entries a thread means to store again in the slot they are bound to.
  predicate Refers(pc: Pc, e: nat) {
    match pc
    case Published(_, up) => up == Some(e)
    case Ready(_, _, slotUp, up) => slotUp == Some(e)
    case RawRead(_, existing) => existing == Some(e)
    case RawReady(_, existing, _) => existing == Some(e)
    case _ => false
  }

  predicate Names(s: State, id: nat, e: nat) {
    id < |s.slots| && !s.slots[id].torn && !s.slots[id].flag.Untouched? && s.slots[id].upper == Some(e)
  }

  predicate At(s: State, e: nat, p: Place) {
    e < |s.places| && s.places[e] == p
  }

  predicate ModeOk(mode: Mode, pc: Pc) {
    && (pc.RawRead? || pc.RawReady? || pc.Backfill? ==> mode.Raw?)
    && (pc.HasId? || pc.Edgeless? || pc.Published? || pc.Ready? || pc.Abandoning? || pc.Emptying? ==> mode.Standalone?)
  }

  // A thread's standing makes sense on its own, and in the mode the plane is used in.
  ghost predicate ThreadForm(mode: Mode, pc: Pc) {
    && ModeOk(mode, pc)
    && (pc.Emptying? ==> pc.extra != Some(pc.gone))
    && (pc.Freeing? && pc.first.Some? ==> pc.extra != pc.first)
    && (pc.Ready? && pc.slotUp.Some? ==> pc.published && pc.up == pc.slotUp)
    && (pc.RawReady? ==> pc.made.None? || pc.existing.None?)
  }

  ghost predicate ThreadOk(s: State, t: ThreadId) {
    var pc := PcOf(s, t);
    && ThreadForm(s.mode, pc)
    && (forall e: nat :: Holds(pc, e) ==> At(s, e, HeldBy(t)))
    && (forall e: nat :: Refers(pc, e) ==> At(s, e, Bound(pc.id)))
    && (pc.Pushing? ==> pc.e < |s.places| && !s.places[pc.e].Never? && !(s.places[pc.e].Free? && IsFull(s, pc.e)))
  }

  ghost predicate SlotOk(s: State, id: nat) {
    forall e: nat :: Names(s, id, e) ==> At(s, e, Bound(id))
  }

  // The links spell out the free entries, and the places agree.
  ghost predicate PoolOk(s: State) {
    && Chain(s.pool, s.stack) && |s.places| == |s.pool.words| == |s.full|
    && forall e :: 0 <= e < |s.places| ==>
         (s.places[e].Never? <==> e >= s.pool.issued) && (s.places[e].Free? <==> e in s.stack)
  }

  ghost predicate Inv(s: State) {
    PoolOk(s) && (forall t: ThreadId :: ThreadOk(s, t)) && (forall id: nat :: SlotOk(s, id))
  }

  // ---- What one step may change ----

  // Everything but one thread and at most one slot is as it was.
  ghost predicate Moved(s: State, s': State, t: ThreadId, id: Option<nat>) {
    && s'.mode == s.mode && |s'.slots| == |s.slots| && |s'.places| == |s.places| && |s'.full| == |s.full|
    && (forall u: ThreadId :: u != t ==> PcOf(s', u) == PcOf(s, u))
    && (forall x :: 0 <= x < |s.slots| && Some(x) != id ==> s'.slots[x] == s.slots[x])
  }

  // A place changes only out of the hands of the thread that moves it, from nobody's, or out of its own slot when no
  // other thread means to store it again.
  ghost predicate Passed(s: State, s': State, t: ThreadId, id: Option<nat>)
    requires |s'.places| == |s.places|
  {
    forall e :: 0 <= e < |s.places| && s'.places[e] != s.places[e] ==>
      && !s'.places[e].Never?
      && match s.places[e]
         case HeldBy(u) => u == t
         case Bound(x) => id == Some(x) && forall u: ThreadId :: u != t ==> !Refers(PcOf(s, u), e)
         case _ => true
  }

  // No entry becomes both free and full under an update that holds its index.
  ghost predicate Quiet(s: State, s': State, t: ThreadId)
    requires |s'.places| == |s.places|
  {
    forall e :: 0 <= e < |s.places| && s'.places[e].Free? && IsFull(s', e) ==>
      (s.places[e].Free? && IsFull(s, e)) || forall u: ThreadId :: u != t ==> PcOf(s, u) != Pushing(e)
  }

  lemma OtherThread(s: State, s': State, t: ThreadId, id: Option<nat>, u: ThreadId)
    requires Moved(s, s', t, id) && Passed(s, s', t, id) && Quiet(s, s', t) && u != t && ThreadOk(s, u)
    ensures ThreadOk(s', u)
  {
    var pc := PcOf(s, u);
    assert PcOf(s', u) == pc;
    forall e: nat | Holds(pc, e) ensures At(s', e, HeldBy(u)) {
      assert At(s, e, HeldBy(u));
    }
    forall e: nat | Refers(pc, e) ensures At(s', e, Bound(pc.id)) {
      assert At(s, e, Bound(pc.id));
    }
  }

  lemma OtherSlot(s: State, s': State, t: ThreadId, id: Option<nat>, x: nat)
    requires Moved(s, s', t, id) && Passed(s, s', t, id) && Some(x) != id && SlotOk(s, x)
    ensures SlotOk(s', x)
  {
    forall e: nat | Names(s', x, e) ensures At(s', e, Bound(x)) {
      assert Names(s, x, e);
    }
  }

  // What a step still has to show once it moved one thread and at most one slot.
  lemma InvMoved(s: State, s': State, t: ThreadId, id: Option<nat>)
    requires Inv(s) && Moved(s, s', t, id) && Passed(s, s', t, id) && Quiet(s, s', t)
    requires PoolOk(s') && ThreadOk(s', t) && (id.Some? ==> SlotOk(s', id.value))
    ensures Inv(s')
  {
    hide PoolOk, Quiet, Passed, Moved;
    forall u: ThreadId ensures ThreadOk(s', u) {
      assert ThreadOk(s, u);
      if u != t {
        OtherThread(s, s', t, id, u);
      }
    }
    forall x: nat ensures SlotOk(s', x) {
      assert SlotOk(s, x);
      if Some(x) != id {
        OtherSlot(s, s', t, id, x);
      }
    }
  }

  // A move of one thread that changes nothing shared but what the invariant does not speak of.
  lemma LocalMove(s: State, s': State, t: ThreadId, pc: Pc)
    requires Inv(s)
             && s' == Goto(s, t, pc).(freeIds := s'.freeIds, nextId := s'.nextId, wild := s'.wild, clean := s'.clean)
    requires ThreadForm(s.mode, pc) && (forall e: nat :: Holds(pc, e) ==> Holds(PcOf(s, t), e))
    requires forall e: nat :: Refers(pc, e) ==> At(s, e, Bound(pc.id))
    requires pc.Pushing? ==> exists x: nat :: At(s, pc.e, Bound(x))
    ensures Inv(s')
  {
    assert ThreadOk(s, t);
    assert ThreadOk(s', t);
    assert PoolOk(s');
    hide PoolOk, ThreadOk, SlotOk, Holds, Refers;
    InvMoved(s, s', t, None);
  }

  // ---- Each step keeps it ----

  // What an allocation does: nobody's entry becomes the taker's, and is written if it was not lost.
  ghost predicate TakenOk(s: State, r: State, t: ThreadId, up: Option<nat>) {
    && r == s.(pool := r.pool, stack := r.stack, places := r.places, full := r.full, clean := r.clean)
    && PoolOk(r) && |r.places| == |s.places| && |r.full| == |s.full|
    && (up.Some? ==>
      up.value < |s.places| && r.places[up.value] == HeldBy(t) && r.places[up.value] != s.places[up.value])
    && (forall e :: 0 <= e < |s.places| && r.places[e] != s.places[e] ==>
          (s.places[e].Never? || s.places[e].Free?) && r.places[e] == HeldBy(t))
    && (forall e :: 0 <= e < |s.full| && r.full[e] != s.full[e] ==> At(r, e, HeldBy(t)))
  }

  lemma PopIsOk(s: State, t: ThreadId)
    requires PoolOk(s)
    ensures var (r, up) := Popped(s, t);
            TakenOk(s, r, t, up) && (up.Some? ==> up.value !in r.stack)
  {
    PopTakes(s.pool, s.stack);
    var (r, up) := Popped(s, t);
    if s.stack != [] {
      RestMembers(s.stack);
      assert s.stack[0] in s.stack;
    }
    hide Chain, NoDup, Pop;
    assert up.Some? ==> r.places == s.places[up.value := HeldBy(t)];
  }

  lemma WriteKeepsPool(s: State, e: nat, degree: nat)
    requires PoolOk(s) && e < |s.places| && !s.places[e].Free?
    ensures PoolOk(Written(s, e, degree))
  {
    StoreOutside(s.pool, s.stack, e, degree);
  }

  // What was just taken is written.
  lemma WriteTaken(s: State, r: State, t: ThreadId, e: nat, degree: nat)
    requires TakenOk(s, r, t, Some(e))
    ensures TakenOk(s, Written(r, e, degree), t, Some(e))
  {
    assert !r.places[e].Free?;
    WriteKeepsPool(r, e, degree);
    hide PoolOk;
  }

  // Or it is lost.
  lemma LoseTaken(s: State, r: State, t: ThreadId, up: Option<nat>)
    requires TakenOk(s, r, t, up)
    ensures TakenOk(s, r.(clean := false), t, None) && TakenOk(s, r, t, None)
  {
    hide Chain;
  }

  lemma TakenIsOk(s: State, t: ThreadId, take: Take)
    requires PoolOk(s)
    ensures TakenOk(s, Taken(s, t, take).0, t, Taken(s, t, take).1)
  {
    if !take.Skip? {
      PopIsOk(s, t);
      var (r, up) := Popped(s, t);
      hide PoolOk, Popped, TakenOk, Written;
      if up.Some? && take.Grant? {
        WriteTaken(s, r, t, up.value, take.degree);
      } else {
        LoseTaken(s, r, t, up);
      }
    }
  }

  // A thread that held nothing goes on holding what it just took.
  lemma TakeMove(s: State, r: State, t: ThreadId, up: Option<nat>, pc: Pc)
    requires Inv(s) && TakenOk(s, r, t, up) && ThreadForm(s.mode, pc) && !pc.Pushing?
    requires forall e: nat :: Holds(pc, e) ==> up == Some(e)
    requires forall e: nat :: Refers(pc, e) ==> Refers(PcOf(s, t), e) && pc.id == PcOf(s, t).id
    ensures Inv(Goto(r, t, pc))
  {
    var s' := Goto(r, t, pc);
    assert ThreadOk(s, t);
    assert ThreadOk(s', t);
    assert PoolOk(s');
    hide PoolOk, ThreadOk, SlotOk, Holds, Refers;
    InvMoved(s, s', t, None);
  }

  // A slot's entry is written again in place.
  lemma RewriteMove(s: State, t: ThreadId, e: nat, degree: nat, pc: Pc)
    requires Inv(s) && e < |s.places| && s.places[e].Bound? && ThreadOk(Goto(s, t, pc), t)
    ensures Inv(Goto(Written(s, e, degree), t, pc))
  {
    var s' := Goto(Written(s, e, degree), t, pc);
    WriteKeepsPool(s, e, degree);
    assert ThreadOk(s', t) by {
      hide PoolOk;
    }
    assert PoolOk(s') by {
      hide ThreadOk, SlotOk, Written;
    }
    hide PoolOk, ThreadOk, SlotOk;
    InvMoved(s, s', t, None);
  }

  // A thread stands as it stood when no place changed and no more entries are full.
  lemma SameThread(s: State, s': State, t: ThreadId)
    requires ThreadOk(s, t) && PcOf(s', t) == PcOf(s, t) && s'.mode == s.mode && s'.places == s.places
    requires forall e: nat :: IsFull(s', e) ==> IsFull(s, e)
    ensures ThreadOk(s', t)
  {
    hide ThreadForm;
  }

  // An entry loses its levels.
  lemma EmptiedMove(s: State, t: ThreadId, e: nat, pc: Pc)
    requires Inv(s) && ThreadOk(Goto(s, t, pc), t)
    ensures Inv(Goto(SetFull(s, e, false), t, pc))
  {
    var mid := Goto(s, t, pc);
    var s' := SetFull(mid, e, false);
    SameThread(mid, s', t);
    assert PoolOk(s') by {
      hide ThreadOk, SlotOk, Chain;
    }
    assert Moved(s, s', t, None) && Passed(s, s', t, None) && Quiet(s, s', t) by {
      hide ThreadOk, SlotOk, PoolOk;
    }
    hide PoolOk, ThreadOk, SlotOk, Inv, Moved, Passed, Quiet;
    InvMoved(s, s', t, None);
  }

  lemma EdgelessStep(s: State, t: ThreadId, take: Take)
    requires Inv(s)
    ensures Inv(Apply(s, EdgelessUpper(t, take)))
  {
    var pc := PcOf(s, t);
    assert ThreadOk(s, t);
    if pc.HasId? {
      TakenIsOk(s, t, take);
      var r := Taken(s, t, take);
      assert Apply(s, EdgelessUpper(t, take)) == Goto(r.0, t, Edgeless(pc.id, r.1));
      hide Taken, TakenOk, Inv, Apply;
      TakeMove(s, r.0, t, r.1, Edgeless(pc.id, r.1));
    }
  }

  // The thread goes on with the entry it refers to: written again, left alone, or its lock wedged.
  lemma InPlaceStep(s: State, t: ThreadId, e: nat, take: Take, pc: Pc)
    requires Inv(s) && Refers(PcOf(s, t), e) && (pc.Ready? || pc.RawReady?) && pc.id == PcOf(s, t).id
    requires ThreadForm(s.mode, pc) && (forall x: nat :: !Holds(pc, x)) && forall x: nat :: Refers(pc, x) ==> x == e
    ensures Inv(Goto(s, t, pc)) && Inv(Goto(s, t, Idle)) && Inv(Goto(SetFull(s, e, false), t, pc))
    ensures take.Grant? ==> Inv(Goto(Written(s, e, take.degree), t, pc))
  {
    assert ThreadOk(s, t);
    assert ThreadOk(Goto(s, t, pc), t) by {
      hide ThreadForm;
    }
    hide Inv, ThreadOk, Written, SetFull;
    LocalMove(s, Goto(s, t, Idle), t, Idle);
    LocalMove(s, Goto(s, t, pc), t, pc);
    hide Holds, Refers, ThreadForm;
    EmptiedMove(s, t, e, pc);
    if take.Grant? {
      RewriteMove(s, t, e, take.degree, pc);
    }
  }

  lemma JoinStep(s: State, t: ThreadId, take: Take)
    requires Inv(s)
    ensures Inv(ApplyJoinUpper(s, t, take))
  {
    var pc := PcOf(s, t);
    assert ThreadOk(s, t);
    hide Inv, ThreadOk;
    if pc.Published? && pc.up.Some? {
      assert Refers(pc, pc.up.value);
      hide Written;
      InPlaceStep(s, t, pc.up.value, take, Ready(pc.id, true, pc.up, pc.up));
    } else if pc.Published? || pc.HasId? {
      hide Written, Taken;
      JoinTakes(s, t, take, Ready(pc.id, pc.Published?, None, Taken(s, t, take).1));
    }
  }

  lemma JoinTakes(s: State, t: ThreadId, take: Take, next: Pc)
    requires Inv(s) && (PcOf(s, t).Published? || PcOf(s, t).HasId?) && next.Ready? && next.id == PcOf(s, t).id
    requires ThreadForm(s.mode, next) && next.slotUp.None? && next.up == Taken(s, t, take).1
    ensures Inv(Goto(Taken(s, t, take).0, t, next))
  {
    TakenIsOk(s, t, take);
    var r := Taken(s, t, take);
    hide Taken, TakenOk, Inv, ThreadForm;
    TakeMove(s, r.0, t, r.1, next);
  }

  lemma RawUpperStep(s: State, t: ThreadId, take: Take)
    requires Inv(s)
    ensures Inv(ApplyRawUpper(s, t, take))
  {
    var pc := PcOf(s, t);
    assert ThreadOk(s, t);
    if pc.RawRead? && pc.existing.Some? {
      assert Refers(pc, pc.existing.value);
      hide Inv, ThreadOk, Written, SetFull;
      InPlaceStep(s, t, pc.existing.value, take, RawReady(pc.id, pc.existing, None));
    } else if pc.RawRead? {
      TakenIsOk(s, t, take);
      var r := Taken(s, t, take);
      hide Taken, TakenOk, Inv;
      TakeMove(s, r.0, t, r.1, if take.Wedge? then Idle else RawReady(pc.id, None, r.1));
    }
  }

  lemma BackfillUpperStep(s: State, t: ThreadId, id: nat, take: Take)
    requires Inv(s)
    ensures Inv(ApplyBackfillUpper(s, t, id, take))
  {
    if s.mode.Raw? && PcOf(s, t).Idle? && id < |s.slots| {
      TakenIsOk(s, t, take);
      var r := Taken(s, t, take);
      var next := if take.Wedge? then Idle else Backfill(id, r.1);
      hide Taken, TakenOk, Inv;
      TakeMove(s, r.0, t, r.1, next);
    }
  }

  // Publishing a slot binds the entry it names.
  lemma BindMove(s: State, t: ThreadId, id: nat, up: Option<nat>, pc: Pc)
    requires Inv(s) && id < |s.slots| && ThreadForm(s.mode, pc) && !pc.Pushing?
    requires up.Some? ==> At(s, up.value, HeldBy(t)) || At(s, up.value, Bound(id))
    requires forall e: nat :: !Holds(pc, e)
    requires forall e: nat :: Refers(pc, e) ==> up == Some(e) && pc.id == id
    ensures Inv(Goto(Bind(s, id, up), t, pc))
  {
    var s' := Goto(Bind(s, id, up), t, pc);
    assert SlotOk(s', id) && PoolOk(s') && ThreadOk(s', t);
    assert forall u: ThreadId :: u != t ==> PcOf(s', u) == PcOf(s, u);
    hide PoolOk, Holds, Refers, SlotOk, ThreadOk;
    InvMoved(s, s', t, Some(id));
  }

  lemma PublishStep(s: State, t: ThreadId, ok: bool)
    requires Inv(s)
    ensures Inv(Apply(s, PublishEdgeless(t, ok)))
  {
    var pc := PcOf(s, t);
    assert ThreadOk(s, t);
    if pc.Edgeless? && pc.id < |s.slots| && !s.slots[pc.id].torn {
      assert pc.up.Some? ==> Holds(pc, pc.up.value);
      hide Inv, ThreadOk;
      if ok {
        BindMove(s, t, pc.id, pc.up, Published(pc.id, pc.up));
      } else {
        LocalMove(s, Goto(s, t, Freeing(pc.up, Some(pc.id), None)), t, Freeing(pc.up, Some(pc.id), None));
      }
    }
  }

  lemma FinalStep(s: State, t: ThreadId, ok: bool)
    requires Inv(s)
    ensures Inv(Apply(s, FinalWrite(t, ok)))
  {
    var pc := PcOf(s, t);
    assert ThreadOk(s, t);
    if pc.Ready? && pc.id < |s.slots| && !s.slots[pc.id].torn {
      assert pc.up.Some? && pc.up != pc.slotUp ==> Holds(pc, pc.up.value);
      assert pc.slotUp.Some? ==> Refers(pc, pc.slotUp.value);
      hide Inv, ThreadOk;
      if ok {
        BindMove(s, t, pc.id, pc.up, Idle);
      } else {
        var next := if pc.published then Abandoning(pc.id, if pc.up != pc.slotUp then pc.up else None)
                    else Freeing(pc.up, Some(pc.id), None);
        LocalMove(s, Goto(s, t, next), t, next);
      }
    }
  }

  lemma RawWriteStep(s: State, t: ThreadId, ok: bool)
    requires Inv(s)
    ensures Inv(Apply(s, RawWrite(t, ok)))
  {
    var pc := PcOf(s, t);
    assert ThreadOk(s, t);
    if pc.RawReady? && pc.id < |s.slots| && !s.slots[pc.id].torn {
      assert pc.made.Some? ==> Holds(pc, pc.made.value);
      assert pc.existing.Some? ==> Refers(pc, pc.existing.value);
      hide Inv, ThreadOk;
      if ok {
        BindMove(s, t, pc.id, if pc.made.Some? then pc.made else pc.existing, Idle);
      } else {
        LocalMove(s, Goto(s, t, Freeing(pc.made, None, None)), t, Freeing(pc.made, None, None));
      }
    }
  }

  lemma BackfillWriteStep(s: State, t: ThreadId, ok: bool)
    requires Inv(s)
    ensures Inv(Apply(s, BackfillWrite(t, ok)))
  {
    var pc := PcOf(s, t);
    assert ThreadOk(s, t);
    if pc.Backfill? && pc.id < |s.slots| && !s.slots[pc.id].torn {
      assert pc.made.Some? ==> Holds(pc, pc.made.value);
      hide Inv, ThreadOk;
      if ok && s.slots[pc.id].flag.Untouched? {
        BindMove(s, t, pc.id, pc.made, Idle);
      } else {
        LocalMove(s, Goto(s, t, Freeing(pc.made, None, None)), t, Freeing(pc.made, None, None));
      }
    }
  }

  predicate IsLocal(step: Step) {
    step.ClaimWon? || step.Unresolved? || step.StartDelete?
  }

  lemma AllocateStep(s: State, t: ThreadId, id: nat)
    requires Inv(s)
    ensures Inv(ApplyAllocate(s, t, id))
  {
    var s' := ApplyAllocate(s, t, id);
    hide Inv;
    if s' != s {
      LocalMove(s, s', t, HasId(id));
    }
  }

  lemma CrashStep(s: State, t: ThreadId)
    requires Inv(s)
    ensures Inv(Apply(s, Crash(t)))
  {
    hide Inv;
    LocalMove(s, Apply(s, Crash(t)), t, Dead);
  }

  lemma LocalStep(s: State, step: Step)
    requires Inv(s) && IsLocal(step)
    ensures Inv(Apply(s, step))
  {
    var t := step.t;
    var s' := Apply(s, step);
    assert ThreadOk(s, step.t);
    hide Inv, SlotOk, PoolOk;
    if s' != s {
      var pc := PcOf(s', t);
      assert s' == Goto(s, t, pc);
      assert ThreadForm(s.mode, pc) && !pc.Pushing?;
      assert forall e: nat :: Holds(pc, e) ==> Holds(PcOf(s, t), e);
      assert forall e: nat :: !Refers(pc, e);
      hide Apply, ThreadOk, ThreadForm, Holds, Refers;
      LocalMove(s, s', t, pc);
    }
  }

  // A touched slot that is whole names an entry bound to it.
  lemma ReadsBound(s: State, id: nat)
    requires Inv(s) && id < |s.slots| && !s.slots[id].torn && !s.slots[id].flag.Untouched? && s.slots[id].upper.Some?
    ensures At(s, s.slots[id].upper.value, Bound(id))
  {
    assert SlotOk(s, id) && Names(s, id, s.slots[id].upper.value);
  }

  lemma ReadStep(s: State, step: Step)
    requires Inv(s) && (step.ReadExisting? || step.FindIndex?)
    ensures Inv(Apply(s, step))
  {
    var (t, id) := (step.t, step.id);
    var s' := Apply(s, step);
    if id < |s.slots| && !s.slots[id].torn && !s.slots[id].flag.Untouched? && s.slots[id].upper.Some? {
      ReadsBound(s, id);
    }
    if s' != s {
      var pc := PcOf(s', t);
      assert s' == Goto(s, t, pc);
      assert ThreadForm(s.mode, pc) && forall e: nat :: !Holds(pc, e);
      assert forall e: nat :: Refers(pc, e) ==> At(s, e, Bound(pc.id));
      hide Inv, SlotOk, Apply, ThreadForm, Holds, Refers;
      LocalMove(s, s', t, pc);
    }
  }

  // A valid slot's entry passes to the one thread that tombstones it.
  lemma TombstoneMove(s: State, t: ThreadId)
    requires Inv(s) && Lands(s, t) && SparesInserts(s, Tombstone(t))
    ensures Inv(ApplyTombstone(s, t))
    ensures GivesUp(s, t) ==> Holds(PcOf(ApplyTombstone(s, t), t), GivenUp(s, t))
  {
    var id := PcOf(s, t).id;
    var s' := ApplyTombstone(s, t);
    TombstoneTakes(s, t);
    assert forall u: ThreadId :: u != t ==> PcOf(s', u) == PcOf(s, u);
    assert SlotOk(s', id) by {
      assert s'.slots[id] == Slot(Deleted, None, false);
    }
    hide PoolOk, ThreadOk, Holds, Refers, SlotOk, Chain;
    InvMoved(s, s', t, Some(id));
  }

  // What a landing tombstone hands its thread was the slot's alone.
  lemma TombstoneTakes(s: State, t: ThreadId)
    requires Inv(s) && Lands(s, t)
    ensures var s' := ApplyTombstone(s, t);
            var up := s.slots[PcOf(s, t).id].upper;
            && (up.Some? ==> At(s, up.value, Bound(PcOf(s, t).id)))
            && s'.places == (if up.Some? then s.places[up.value := HeldBy(t)] else s.places)
            && PoolOk(s') && ThreadOk(s', t)
  {
    var pc := PcOf(s, t);
    var s' := ApplyTombstone(s, t);
    assert ThreadOk(s, t);
    if s.slots[pc.id].upper.Some? {
      ReadsBound(s, pc.id);
    }
    assert PoolOk(s') by {
      hide ThreadOk, SlotOk, Chain, Holds, Refers;
    }
    TombstoneHands(s, t);
  }

  lemma TombstoneHands(s: State, t: ThreadId)
    requires ThreadOk(s, t) && Lands(s, t)
    requires s.slots[PcOf(s, t).id].upper.Some? ==> At(s, s.slots[PcOf(s, t).id].upper.value, Bound(PcOf(s, t).id))
    ensures ThreadOk(ApplyTombstone(s, t), t)
  {
    var pc := PcOf(s, t);
    assert pc.extra.Some? ==> Holds(pc, pc.extra.value);
  }

  // A valid slot gives its entry to the one thread that tombstones it: from then on nobody else holds it, refers to
  // it or names it. A slot that is not valid gives nothing.
  lemma TombstoneStep(s: State, t: ThreadId)
    requires Inv(s) && SparesInserts(s, Tombstone(t))
    ensures var s' := ApplyTombstone(s, t);
            && Inv(s')
            && (GivesUp(s, t) ==> TakenBy(s', t, GivenUp(s, t)))
            && (!GivesUp(s, t) ==> s'.places == s.places && s'.stack == s.stack)
  {
    var pc := PcOf(s, t);
    assert ThreadOk(s, t);
    if Lands(s, t) {
      TombstoneMove(s, t);
      if GivesUp(s, t) {
        HeldAlone(ApplyTombstone(s, t), t, GivenUp(s, t));
      }
    } else if pc.Abandoning? && pc.id < |s.slots| && !s.slots[pc.id].torn {
      hide Inv, ThreadOk;
      LocalMove(s, Goto(s, t, Freeing(None, None, pc.extra)), t, Freeing(None, None, pc.extra));
    }
  }

  // The entry is in the hands of this thread alone.
  ghost predicate TakenBy(s: State, t: ThreadId, e: nat) {
    && Holds(PcOf(s, t), e) && At(s, e, HeldBy(t)) && e !in s.stack
    && (forall x: nat :: !Names(s, x, e))
    && forall u: ThreadId :: (u != t ==> !Holds(PcOf(s, u), e)) && !Refers(PcOf(s, u), e)
  }

  lemma HeldAlone(s: State, t: ThreadId, e: nat)
    requires Inv(s) && Holds(PcOf(s, t), e)
    ensures TakenBy(s, t, e)
  {
    assert ThreadOk(s, t);
    forall x: nat ensures !Names(s, x, e) {
      assert SlotOk(s, x);
    }
    forall u: ThreadId ensures (u != t ==> !Holds(PcOf(s, u), e)) && !Refers(PcOf(s, u), e) {
      assert ThreadOk(s, u);
    }
  }

  // Of two deletes of one id under way at once, the second to reach the slot's lock finds nothing to give up: it
  // leaves every entry where the first put it.
  lemma SecondDeleteFindsNothing(s: State, t: ThreadId, u: ThreadId)
    requires Inv(s) && t != u && SparesInserts(s, Tombstone(t)) && GivesUp(s, t)
    requires PcOf(s, u).Abandoning? && PcOf(s, u).id == PcOf(s, t).id
    ensures var s' := Apply(Apply(s, Tombstone(t)), Tombstone(u));
            && TakenBy(s', t, GivenUp(s, t)) && PcOf(s', u) == Freeing(None, None, PcOf(s, u).extra)
            && s'.places == Apply(s, Tombstone(t)).places && s'.slots == Apply(s, Tombstone(t)).slots
  {
    TombstoneStep(s, t);
    var mid := ApplyTombstone(s, t);
    assert !GivesUp(mid, u);
    TombstoneStep(mid, u);
    HeldAlone(ApplyTombstone(mid, u), t, GivenUp(s, t));
  }

  lemma EmptyStep(s: State, t: ThreadId, ok: bool)
    requires Inv(s)
    ensures Inv(Apply(s, EmptyUpper(t, ok)))
  {
    var pc := PcOf(s, t);
    assert ThreadOk(s, t);
    if pc.Emptying? {
      assert Holds(pc, pc.gone);
      if ok {
        var next := Freeing(Some(pc.gone), Some(pc.id), pc.extra);
        assert forall e: nat :: Holds(next, e) ==> Holds(pc, e);
        assert ThreadOk(Goto(s, t, next), t);
        hide Inv, ThreadOk;
        EmptiedMove(s, t, pc.gone, next);
      } else {
        hide Inv, ThreadOk;
        LocalMove(s, Apply(s, EmptyUpper(t, ok)), t, Freeing(None, None, pc.extra));
      }
    }
  }

  lemma FreeMove(s: State, t: ThreadId, e: nat, pc: Pc)
    requires Inv(s) && Holds(PcOf(s, t), e) && PcOf(s, t).Freeing? && pc.Freeing? && ThreadForm(s.mode, pc)
    requires forall x: nat :: Holds(pc, x) ==> Holds(PcOf(s, t), x) && x != e
    requires IsFull(s, e) ==> forall u: ThreadId :: PcOf(s, u) != Pushing(e)
    ensures Inv(Goto(FreeEntry(s, e), t, pc))
  {
    var s' := Goto(FreeEntry(s, e), t, pc);
    assert ThreadOk(s, t);
    assert e !in s.stack && e < s.pool.issued;
    PushPuts(s.pool, s.stack, e);
    assert forall x :: x in s'.stack <==> x == e || x in s.stack;
    assert PoolOk(s');
    assert ThreadOk(s', t);
    assert forall u: ThreadId :: u != t ==> PcOf(s', u) == PcOf(s, u);
    hide PoolOk, ThreadOk, Holds, Refers, SlotOk, Chain;
    InvMoved(s, s', t, None);
  }

  lemma FreeOneStep(s: State, t: ThreadId)
    requires Inv(s) && FreesQuiet(s, FreeOne(t))
    ensures Inv(ApplyFreeOne(s, t))
  {
    var pc := PcOf(s, t);
    assert ThreadOk(s, t);
    hide Inv, ThreadOk;
    if pc.Freeing? {
      if pc.first.Some? {
        FreeMove(s, t, pc.first.value, Freeing(None, pc.back, pc.extra));
      } else if pc.back.Some? {
        LocalMove(s, ApplyFreeOne(s, t), t, Freeing(None, None, pc.extra));
      } else if pc.extra.Some? {
        FreeMove(s, t, pc.extra.value, Freeing(None, None, None));
      } else {
        LocalMove(s, Goto(s, t, Idle), t, Idle);
      }
    }
  }

  // An update stores its degree only in an entry with levels, which is then not free.
  lemma UpdateStep(s: State, t: ThreadId, degree: nat)
    requires Inv(s)
    ensures Inv(ApplyUpdate(s, t, degree))
  {
    var pc := PcOf(s, t);
    var s' := ApplyUpdate(s, t, degree);
    if pc.Pushing? && degree <= UPPER_CAP {
      assert ThreadOk(s, t);
      if IsFull(s, pc.e) {
        StoreOutside(s.pool, s.stack, pc.e, degree);
        assert PoolOk(s') && ThreadOk(s', t);
        hide PoolOk, ThreadOk, SlotOk;
        InvMoved(s, s', t, None);
      } else {
        LocalMove(s, s', t, Idle);
      }
    }
  }

  // Steps of no thread: a raw tombstone, a writer dying inside a slot, and the takeovers that sanitize.
  lemma SlotStep(s: State, step: Step)
    requires Inv(s) && (step.ClearNode? || step.Tear? || step.Sanitize?)
    ensures Inv(Apply(s, step))
  {
    var s' := Apply(s, step);
    var id := step.id;
    assert SlotOk(s, id) && ThreadOk(s, 0);
    if s' != s {
      assert SlotOk(s', id) by {
        forall e: nat | Names(s', id, e) ensures At(s', e, Bound(id)) {
          assert Names(s, id, e);
        }
      }
      assert ThreadOk(s', 0) && PoolOk(s');
      hide PoolOk, ThreadOk, SlotOk;
      InvMoved(s, s', 0, Some(id));
    }
  }

  lemma SanitizeUpperStep(s: State, e: nat)
    requires Inv(s)
    ensures Inv(SetFull(s, e, false))
  {
    assert ThreadOk(s, 0);
    SameThread(s, Goto(s, 0, PcOf(s, 0)), 0);
    hide Inv, ThreadOk;
    EmptiedMove(s, 0, e, PcOf(s, 0));
    SameState(Goto(SetFull(s, e, false), 0, PcOf(s, 0)), SetFull(s, e, false));
  }

  // A thread put back where it was changes nothing.
  lemma SameState(s: State, s': State)
    requires Inv(s) && s' == s.(threads := s'.threads) && forall t: ThreadId :: PcOf(s', t) == PcOf(s, t)
    ensures Inv(s')
  {
    forall t: ThreadId ensures ThreadOk(s', t) {
      assert ThreadOk(s, t);
      SameThread(s, s', t);
    }
    forall id: nat ensures SlotOk(s', id) {
      assert SlotOk(s, id) && forall e: nat :: Names(s', id, e) ==> Names(s, id, e);
    }
  }

  lemma InvStep(s: State, step: Step)
    requires Inv(s) && Careful(s, step)
    ensures Inv(Apply(s, step))
  {
    hide Inv, ApplyAllocate, ApplyJoinUpper, ApplyRawUpper, ApplyBackfillUpper, ApplyTombstone, ApplyFreeOne,
      ApplyUpdate;
    hide SparesInserts, FreesQuiet, SetFull;
    if IsLocal(step) {
      LocalStep(s, step);
    } else {
      match step {
        case AllocateId(t, id) => AllocateStep(s, t, id);
        case EdgelessUpper(t, take) => EdgelessStep(s, t, take);
        case PublishEdgeless(t, ok) => PublishStep(s, t, ok);
        case JoinUpper(t, take) => JoinStep(s, t, take);
        case FinalWrite(t, ok) => FinalStep(s, t, ok);
        case Tombstone(t) => TombstoneStep(s, t);
        case EmptyUpper(t, ok) => EmptyStep(s, t, ok);
        case FreeOne(t) => FreeOneStep(s, t);
        case RawUpper(t, take) => RawUpperStep(s, t, take);
        case RawWrite(t, ok) => RawWriteStep(s, t, ok);
        case BackfillUpper(t, id, take) => BackfillUpperStep(s, t, id, take);
        case BackfillWrite(t, ok) => BackfillWriteStep(s, t, ok);
        case ReadExisting(_, _) => ReadStep(s, step);
        case FindIndex(_, _) => ReadStep(s, step);
        case ClearNode(_) => SlotStep(s, step);
        case Crash(t) => CrashStep(s, t);
        case Update(t, degree) => UpdateStep(s, t, degree);
        case Tear(_, _) => SlotStep(s, step);
        case Sanitize(_) => SlotStep(s, step);
        case SanitizeUpper(e) => SanitizeUpperStep(s, e);
      }
    }
  }

  // ---- Runs ----

  lemma {:induction false} InvRun(s: State, steps: seq<Step>)
    requires Inv(s) && CarefulRun(s, steps)
    ensures Inv(Run(s, steps))
    decreases |steps|
  {
    if steps != [] {
      InvStep(s, steps[0]);
      InvRun(Apply(s, steps[0]), steps[1..]);
    }
  }

  lemma InitInv(mode: Mode, ids: nat, entries: nat)
    requires entries <= NO_UPPER
    ensures Inv(Init(mode, ids, entries))
  {
  }

  // In every careful run, whatever ids are handed out, crashes, wedges and sanitizing takeovers included: two slots
  // never name one entry, no named entry is on the freelist or in the hands of a thread about to free it, and the
  // freelist's links spell out entries in range, none twice.
  lemma NeverNamedTwice(mode: Mode, ids: nat, entries: nat, steps: seq<Step>, e: nat, id: nat)
    requires entries <= NO_UPPER && CarefulRun(Init(mode, ids, entries), steps)
    requires Names(Run(Init(mode, ids, entries), steps), id, e)
    ensures var s := Run(Init(mode, ids, entries), steps);
            && Chain(s.pool, s.stack) && e !in s.stack
            && (forall x: nat :: Names(s, x, e) ==> x == id)
            && (forall t: ThreadId :: !Holds(PcOf(s, t), e))
  {
    InitInv(mode, ids, entries);
    InvRun(Init(mode, ids, entries), steps);
    var s := Run(Init(mode, ids, entries), steps);
    hide Run;
    assert SlotOk(s, id);
    forall x: nat | Names(s, x, e) ensures x == id {
      assert SlotOk(s, x);
    }
    forall t: ThreadId ensures !Holds(PcOf(s, t), e) {
      assert ThreadOk(s, t);
    }
  }
}
