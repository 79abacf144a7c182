/** Where every upper entry is on a standalone plane where nothing died and no lock wedged: named by one live slot,
    free, or in the hands of one thread, so long as no delete lands on the slot of an insert still under way. */
module UpperAccounts {
  import opened Core
  import opened UpperPool
  import opened Uppers
  import opened UpperRuns

  // ---- The proviso ----

  // No tombstone lands on a slot that another thread's insert is still working on.
  ghost predicate LandsClear(s: State, step: Step) {
    step.Tombstone? && Lands(s, step.t) ==> forall u: ThreadId ::
      u != step.t ==> !Inserting(PcOf(s, u), PcOf(s, step.t).id)
  }

  ghost predicate ClearRun(s: State, steps: seq<Step>)
    decreases |steps|
  {
    steps != [] ==> LandsClear(s, steps[0]) && FreesQuiet(s, steps[0]) && ClearRun(Apply(s, steps[0]), steps[1..])
  }

  // It is the stronger proviso: what an insert refers to is bound to the id it works on.
  lemma ClearSpares(s: State, step: Step)
    requires Inv(s) && LandsClear(s, step)
    ensures SparesInserts(s, step)
  {
    if step.Tombstone? && GivesUp(s, step.t) {
      var (id, e) := (PcOf(s, step.t).id, GivenUp(s, step.t));
      ReadsBound(s, id);
      forall u: ThreadId | u != step.t ensures !Refers(PcOf(s, u), e) {
        assert ThreadOk(s, u) && ThreadOk(s, step.t);
        if Refers(PcOf(s, u), e) {
          assert PcOf(s, u).id == id;
          assert Inserting(PcOf(s, u), id);
        }
      }
    }
  }

  // ---- Invariant ----

  predicate Calm(s: State) {
    s.clean && s.mode.Standalone?
  }

  predicate NamedLive(s: State, id: nat, e: nat) {
    Names(s, id, e) && s.slots[id].flag.Valid?
  }

  predicate IsValid(s: State, id: nat) {
    id < |s.slots| && s.slots[id].flag.Valid?
  }

  // A delete, or an insert given up, that has the id to give back.
  predicate Reclaims(pc: Pc, id: nat) {
    (pc.Emptying? && pc.id == id) || (pc.Freeing? && pc.back == Some(id))
  }

  predicate Works(pc: Pc, id: nat) {
    Inserting(pc, id) || Reclaims(pc, id)
  }

  // An id that is on the freelist or was never issued.
  predicate Spare(s: State, id: nat) {
    id in s.freeIds || id >= s.nextId
  }

  // A thread's id is its own to work on, and its slot stands as the thread believes.
  ghost predicate BookedThread(s: State, t: ThreadId) {
    var pc := PcOf(s, t);
    && (forall x: nat :: Works(pc, x) ==> !Spare(s, x))
    && (forall x: nat :: Reclaims(pc, x) ==> !IsValid(s, x))
    && (pc.HasId? || pc.Edgeless? || (pc.Ready? && !pc.published) ==> !IsValid(s, pc.id))
    && (pc.Published? ==> IsValid(s, pc.id) && s.slots[pc.id].upper == pc.up)
    && (pc.Ready? && pc.published ==> IsValid(s, pc.id) && s.slots[pc.id].upper == pc.slotUp)
  }

  ghost predicate Alone(s: State, t: ThreadId) {
    forall u: ThreadId, x: nat :: u != t && Works(PcOf(s, t), x) ==> !Works(PcOf(s, u), x)
  }

  ghost predicate BookedSlot(s: State, id: nat) {
    id < |s.slots| ==>
      && !s.slots[id].torn && (s.slots[id].flag.Deleted? ==> s.slots[id].upper.None?)
      && (Spare(s, id) ==> !s.slots[id].flag.Valid?)
  }

  ghost predicate BookedEntry(s: State, e: nat) {
    e < |s.places| ==> match s.places[e]
      case Bound(id) => NamedLive(s, id, e)
      case HeldBy(t) => Holds(PcOf(s, t), e)
      case _ => true
  }

  // The ids' freelist means what it says.
  ghost predicate IdsOk(s: State) {
    !s.wild && s.nextId <= |s.slots| && forall x :: x in s.freeIds ==> x < s.nextId
  }

  ghost predicate Books(s: State) {
    && IdsOk(s)
    && (forall t: ThreadId :: BookedThread(s, t) && Alone(s, t))
    && (forall id: nat :: BookedSlot(s, id)) && (forall e: nat :: BookedEntry(s, e))
  }

  // ---- What one step may change ----

  ghost predicate Shifted(s: State, s': State, t: ThreadId, id: Option<nat>) {
    && |s'.slots| == |s.slots| && |s'.places| == |s.places| && IdsOk(s')
    && (forall u: ThreadId :: u != t ==> PcOf(s', u) == PcOf(s, u))
    && (forall x :: 0 <= x < |s.slots| && Some(x) != id ==> s'.slots[x] == s.slots[x])
  }

  // The mover takes up only spare ids, gives back only its own, and changes only a slot nobody else works on.
  ghost predicate IdsMoved(s: State, s': State, t: ThreadId, id: Option<nat>) {
    && (forall x: nat :: Spare(s', x) ==> Spare(s, x) || Reclaims(PcOf(s, t), x))
    && (forall u: ThreadId, x: nat :: u != t && Works(PcOf(s', t), x) ==> !Works(PcOf(s, u), x))
    && (id.Some? ==> forall u: ThreadId :: u != t ==> !Works(PcOf(s, u), id.value))
  }

  // What the mover holds, and what is bound to the slot it changes, is accounted for; so is every entry that moved.
  ghost predicate EntriesMoved(s: State, s': State, t: ThreadId, id: Option<nat>)
    requires |s'.places| == |s.places|
  {
    forall e: nat | e < |s.places| && Concerns(s, s', t, id, e) :: BookedEntry(s', e)
  }

  predicate Concerns(s: State, s': State, t: ThreadId, id: Option<nat>, e: nat)
    requires |s'.places| == |s.places| && e < |s.places|
  {
    s'.places[e] != s.places[e] || s.places[e] == HeldBy(t) || (id.Some? && s.places[e] == Bound(id.value))
  }

  lemma OtherBooked(s: State, s': State, t: ThreadId, id: Option<nat>, u: ThreadId)
    requires Books(s) && Shifted(s, s', t, id) && IdsMoved(s, s', t, id) && u != t
    ensures BookedThread(s', u)
  {
    assert BookedThread(s, u) && Alone(s, t);
    var pc := PcOf(s, u);
    assert PcOf(s', u) == pc;
    assert forall x: nat :: Reclaims(PcOf(s, t), x) ==> Works(PcOf(s, t), x);
    assert pc.HasId? || pc.Edgeless? || pc.Published? || pc.Ready? ==> Inserting(pc, pc.id) && Works(pc, pc.id);
    assert forall x: nat :: Reclaims(pc, x) ==> Works(pc, x);
  }

  lemma StillAlone(s: State, s': State, t: ThreadId, id: Option<nat>, u: ThreadId)
    requires Books(s) && Shifted(s, s', t, id) && IdsMoved(s, s', t, id)
    ensures Alone(s', u)
  {
    assert Alone(s, u) && Alone(s, t);
    forall v: ThreadId, x: nat | v != u && Works(PcOf(s', u), x) ensures !Works(PcOf(s', v), x) {
      assert BookedThread(s, u) && BookedThread(s, v);
    }
  }

  lemma BooksMoved(s: State, s': State, t: ThreadId, id: Option<nat>)
    requires Books(s) && Shifted(s, s', t, id) && IdsMoved(s, s', t, id) && EntriesMoved(s, s', t, id)
    requires BookedThread(s', t) && (id.Some? ==> BookedSlot(s', id.value))
    ensures Books(s')
  {
    forall u: ThreadId ensures BookedThread(s', u) && Alone(s', u) {
      if u != t {
        OtherBooked(s, s', t, id, u);
      }
      StillAlone(s, s', t, id, u);
    }
    forall x: nat ensures BookedSlot(s', x) {
      if Some(x) != id {
        OtherSlotBooked(s, s', t, id, x);
      }
    }
    forall e: nat ensures BookedEntry(s', e) {
      OtherEntryBooked(s, s', t, id, e);
    }
  }

  lemma OtherSlotBooked(s: State, s': State, t: ThreadId, id: Option<nat>, x: nat)
    requires Books(s) && Shifted(s, s', t, id) && IdsMoved(s, s', t, id) && Some(x) != id
    ensures BookedSlot(s', x)
  {
    assert BookedSlot(s, x) && BookedThread(s, t);
  }

  lemma OtherEntryBooked(s: State, s': State, t: ThreadId, id: Option<nat>, e: nat)
    requires Books(s) && Shifted(s, s', t, id) && EntriesMoved(s, s', t, id)
    ensures BookedEntry(s', e)
  {
    assert BookedEntry(s, e);
    if e < |s.places| && s.places[e] == s'.places[e] && s.places[e].Bound? {
      assert NamedLive(s, s.places[e].id, e);
    }
  }

  // ---- Each step keeps it ----

  // A thread's move that touches no slot, no place and no id.
  lemma LocalBooks(s: State, s': State, t: ThreadId, pc: Pc)
    requires Books(s) && s' == Goto(s, t, pc).(pool := s'.pool, stack := s'.stack, full := s'.full)
    requires forall e: nat :: Holds(PcOf(s, t), e) ==> Holds(pc, e)
    requires forall x: nat :: Works(pc, x) ==> Works(PcOf(s, t), x)
    requires BookedThread(s', t)
    ensures Books(s')
  {
    assert Alone(s, t);
    forall e: nat | e < |s.places| && Concerns(s, s', t, None, e) ensures BookedEntry(s', e) {
      assert BookedEntry(s, e);
    }
    assert IdsOk(s');
    hide Holds, BookedThread, BookedSlot, Books, Concerns, IdsOk;
    BooksAfter(s, s', t, None);
  }

  lemma BooksAfter(s: State, s': State, t: ThreadId, id: Option<nat>)
    requires Books(s) && Shifted(s, s', t, id) && IdsMoved(s, s', t, id)
    requires forall e: nat | e < |s.places| && Concerns(s, s', t, id, e) :: BookedEntry(s', e)
    requires BookedThread(s', t) && (id.Some? ==> BookedSlot(s', id.value))
    ensures Books(s')
  {
    BooksMoved(s, s', t, id);
  }

  lemma AllocateBooks(s: State, t: ThreadId, id: nat)
    requires Books(s)
    ensures Books(ApplyAllocate(s, t, id))
  {
    var s' := ApplyAllocate(s, t, id);
    if s' != s {
      assert Spare(s, id) && BookedSlot(s, id);
      forall u: ThreadId ensures !Works(PcOf(s, u), id) {
        assert BookedThread(s, u);
      }
      assert BookedThread(s', t);
      forall e: nat | e < |s.places| && Concerns(s, s', t, None, e) ensures BookedEntry(s', e) {
        assert BookedEntry(s, e);
      }
      assert IdsOk(s');
      hide Holds, BookedThread, BookedSlot, Books, Concerns, IdsOk;
      BooksAfter(s, s', t, None);
    }
  }

  // What a write of an entry takes when nothing wedges: one entry into the taker's hands.
  lemma TakesOne(s: State, t: ThreadId, take: Take)
    requires PoolOk(s) && !take.Wedge?
    ensures var (r, up) := Taken(s, t, take);
            && r == s.(pool := r.pool, stack := r.stack, places := r.places, full := r.full)
            && r.places == (if up.Some? then s.places[up.value := HeldBy(t)] else s.places)
            && (up.Some? ==> up.value < |s.places|)
  {
    TakenIsOk(s, t, take);
    hide TakenOk;
  }

  // An insert takes an entry, or none.
  lemma TakeBooks(s: State, t: ThreadId, take: Take, pc: Pc)
    requires Books(s) && PoolOk(s) && !take.Wedge? && (PcOf(s, t).HasId? || PcOf(s, t).Published?)
    requires var (r, up) := Taken(s, t, take);
             && (forall e: nat :: Holds(pc, e) <==> up == Some(e))
             && (pc.Edgeless? || (pc.Ready? && pc.slotUp.None? && (pc.published <==> PcOf(s, t).Published?)))
             && pc.id == PcOf(s, t).id && (PcOf(s, t).HasId? ==> pc.Edgeless? || !pc.published)
             && (PcOf(s, t).Published? ==> pc.Ready? && PcOf(s, t).up.None?)
    ensures Books(Goto(Taken(s, t, take).0, t, pc))
  {
    TakesOne(s, t, take);
    var (r, up) := Taken(s, t, take);
    var s' := Goto(r, t, pc);
    hide Taken, PoolOk;
    assert BookedThread(s, t);
    assert forall x: nat :: Works(pc, x) ==> Works(PcOf(s, t), x);
    assert Alone(s, t);
    forall e: nat | e < |s.places| && Concerns(s, s', t, None, e) ensures BookedEntry(s', e) {
      assert BookedEntry(s, e);
    }
    assert BookedThread(s', t);
    assert IdsOk(s');
    hide Holds, BookedThread, BookedSlot, Books, Concerns, IdsOk;
    BooksAfter(s, s', t, None);
  }

  // A slot goes out: what its insert holds or refers to is then what it names.
  lemma BindBooks(s: State, t: ThreadId, id: nat, up: Option<nat>, pc: Pc)
    requires Books(s) && PoolOk(s) && ThreadOk(s, t) && Inserting(PcOf(s, t), id) && id < |s.slots|
    requires forall e: nat :: Holds(PcOf(s, t), e) ==> up == Some(e)
    requires forall e: nat :: NamedLive(s, id, e) ==> up == Some(e)
    requires up.Some? ==> up.value < |s.places|
    requires pc == Published(id, up) || pc == Idle
    ensures Books(Goto(Bind(s, id, up), t, pc))
  {
    var s' := Goto(Bind(s, id, up), t, pc);
    assert BookedThread(s, t) && BookedSlot(s, id) && Works(PcOf(s, t), id);
    assert Alone(s, t);
    assert s'.slots[id] == Slot(Valid, up, false) && !s'.wild;
    forall e: nat | e < |s.places| && Concerns(s, s', t, Some(id), e) ensures BookedEntry(s', e) {
      assert BookedEntry(s, e);
    }
    assert BookedThread(s', t) && BookedSlot(s', id);
    assert IdsOk(s');
    assert forall x: nat :: Works(pc, x) ==> Works(PcOf(s, t), x);
    hide Holds, BookedThread, BookedSlot, Books, Concerns, IdsOk, PoolOk, ThreadOk, NamedLive;
    BooksAfter(s, s', t, Some(id));
  }

  // A delete lands: the slot's entry and id are its thread's, and nobody else works on the id.
  lemma TombstoneBooks(s: State, t: ThreadId)
    requires Books(s) && Inv(s) && Lands(s, t) && LandsClear(s, Tombstone(t))
    ensures Books(ApplyTombstone(s, t))
  {
    var id := PcOf(s, t).id;
    var s' := ApplyTombstone(s, t);
    TombstoneTakes(s, t);
    assert BookedThread(s, t) && BookedSlot(s, id);
    forall u: ThreadId | u != t ensures !Works(PcOf(s, u), id) {
      assert BookedThread(s, u);
    }
    assert s'.slots[id] == Slot(Deleted, None, false);
    hide Inv;
    forall e: nat | e < |s.places| && Concerns(s, s', t, Some(id), e) ensures BookedEntry(s', e) {
      assert BookedEntry(s, e);
    }
    assert BookedThread(s', t) && BookedSlot(s', id);
    assert IdsOk(s');
    hide Holds, BookedThread, BookedSlot, Books, Concerns, IdsOk, PoolOk, ThreadOk, NamedLive;
    BooksAfter(s, s', t, Some(id));
  }

  lemma FreeBooks(s: State, t: ThreadId, e: nat, pc: Pc)
    requires Books(s) && PcOf(s, t).Freeing? && Holds(PcOf(s, t), e) && e < |s.places|
    requires pc.Freeing? && pc.back == PcOf(s, t).back
    requires forall x: nat :: Holds(PcOf(s, t), x) ==> x == e || Holds(pc, x)
    ensures Books(Goto(FreeEntry(s, e), t, pc))
  {
    var s' := Goto(FreeEntry(s, e), t, pc);
    assert BookedThread(s, t) && Alone(s, t);
    forall x: nat | x < |s.places| && Concerns(s, s', t, None, x) ensures BookedEntry(s', x) {
      assert BookedEntry(s, x);
    }
    assert forall x: nat :: Reclaims(pc, x) <==> Reclaims(PcOf(s, t), x);
    assert forall x: nat :: Works(pc, x) ==> Works(PcOf(s, t), x) && Reclaims(pc, x);
    assert BookedThread(s', t);
    assert IdsOk(s');
    hide Holds, BookedThread, BookedSlot, Books, Concerns, IdsOk;
    BooksAfter(s, s', t, None);
  }

  lemma FreeIdBooks(s: State, t: ThreadId, id: nat)
    requires Books(s) && PcOf(s, t).Freeing? && PcOf(s, t).first.None? && PcOf(s, t).back == Some(id)
    ensures Books(ApplyFreeOne(s, t))
  {
    var s' := ApplyFreeOne(s, t);
    assert BookedThread(s, t) && Reclaims(PcOf(s, t), id) && Works(PcOf(s, t), id);
    forall e: nat | e < |s.places| && Concerns(s, s', t, None, e) ensures BookedEntry(s', e) {
      assert BookedEntry(s, e);
    }
    assert forall x: nat :: !Works(PcOf(s', t), x);
    assert BookedThread(s', t);
    assert IdsOk(s');
    assert forall x: nat :: Spare(s', x) ==> Spare(s, x) || x == id;
    hide Holds, BookedThread, BookedSlot, Books, Concerns, IdsOk;
    BooksAfter(s, s', t, None);
  }

  // The books are kept as long as the plane stays calm.
  ghost predicate Acc(s: State) {
    Inv(s) && (Calm(s) ==> Books(s))
  }

  lemma TakenCalm(s: State, t: ThreadId, take: Take)
    ensures var r := Taken(s, t, take).0; r.mode == s.mode && (r.clean ==> s.clean)
  {
    hide Pop, Store;
  }

  lemma CalmBefore(s: State, step: Step)
    requires Calm(Apply(s, step))
    ensures Calm(s)
  {
    hide Taken, Push, Store;
    match step {
      case EdgelessUpper(t, take) => TakenCalm(s, t, take);
      case JoinUpper(t, take) => TakenCalm(s, t, take);
      case RawUpper(t, take) => TakenCalm(s, t, take);
      case BackfillUpper(t, _, take) => TakenCalm(s, t, take);
      case _ =>
    }
  }

  lemma EdgelessBooks(s: State, t: ThreadId, take: Take)
    requires Inv(s) && Books(s) && Calm(Apply(s, EdgelessUpper(t, take)))
    ensures Books(Apply(s, EdgelessUpper(t, take)))
  {
    var pc := PcOf(s, t);
    if pc.HasId? {
      if take.Wedge? {
        WedgedBooks(s, t, Edgeless(pc.id, None));
      } else {
        TakeBooks(s, t, take, Edgeless(pc.id, Taken(s, t, take).1));
      }
    }
  }

  // A wedged write that lost nothing found nothing to take.
  lemma WedgedBooks(s: State, t: ThreadId, pc: Pc)
    requires Books(s) && PoolOk(s) && Taken(s, t, Wedge).0.clean && (PcOf(s, t).HasId? || PcOf(s, t).Published?)
    requires pc == Edgeless(PcOf(s, t).id, None) || pc == Ready(PcOf(s, t).id, PcOf(s, t).Published?, None, None)
    requires PcOf(s, t).Published? ==> pc.Ready? && PcOf(s, t).up.None?
    ensures Books(Goto(Taken(s, t, Wedge).0, t, pc))
  {
    PopIsOk(s, t);
    assert Taken(s, t, Wedge) == Taken(s, t, Grant(0));
    TakeBooks(s, t, Grant(0), pc);
  }

  lemma JoinBooks(s: State, t: ThreadId, take: Take)
    requires Inv(s) && Books(s) && Calm(ApplyJoinUpper(s, t, take))
    ensures Books(ApplyJoinUpper(s, t, take))
  {
    var pc := PcOf(s, t);
    var s' := ApplyJoinUpper(s, t, take);
    if pc.Published? && pc.up.Some? {
      assert BookedThread(s, t);
      assert forall x: nat :: Works(PcOf(s', t), x) ==> Works(pc, x) && !Reclaims(PcOf(s', t), x);
      assert forall x: nat :: Reclaims(PcOf(s', t), x) ==> Works(PcOf(s', t), x);
      assert s'.slots == s.slots;
      assert BookedThread(s', t);
      hide BookedThread, Books, Inv;
      LocalBooks(s, s', t, PcOf(s', t));
    } else if pc.Published? || pc.HasId? {
      var next := Ready(pc.id, pc.Published?, None, Taken(s, t, take).1);
      if take.Wedge? {
        WedgedBooks(s, t, Ready(pc.id, pc.Published?, None, None));
      } else {
        TakeBooks(s, t, take, next);
      }
    }
  }

  lemma PublishBooks(s: State, t: ThreadId, ok: bool)
    requires Inv(s) && Books(s)
    ensures Books(Apply(s, PublishEdgeless(t, ok)))
  {
    var pc := PcOf(s, t);
    assert ThreadOk(s, t) && BookedThread(s, t);
    if pc.Edgeless? && pc.id < |s.slots| && !s.slots[pc.id].torn {
      assert pc.up.Some? ==> Holds(pc, pc.up.value);
      if ok {
        hide Books, Inv, BookedThread;
        BindBooks(s, t, pc.id, pc.up, Published(pc.id, pc.up));
      } else {
        GivesBack(s, t, pc.id, Freeing(pc.up, Some(pc.id), None));
      }
    }
  }

  // An insert that never went out gives everything back.
  lemma GivesBack(s: State, t: ThreadId, id: nat, pc: Pc)
    requires Books(s) && pc.Freeing? && pc.back == Some(id)
    requires PcOf(s, t).HasId? || PcOf(s, t).Edgeless? || (PcOf(s, t).Ready? && !PcOf(s, t).published)
    requires PcOf(s, t).id == id && forall e: nat :: Holds(PcOf(s, t), e) ==> Holds(pc, e)
    ensures Books(Goto(s, t, pc))
  {
    assert BookedThread(s, t) && Works(PcOf(s, t), id);
    assert forall x: nat :: Works(pc, x) ==> x == id;
    assert BookedThread(Goto(s, t, pc), t);
    hide BookedThread, Books;
    LocalBooks(s, Goto(s, t, pc), t, pc);
  }

  lemma FinalBooks(s: State, t: ThreadId, ok: bool)
    requires Inv(s) && Books(s)
    ensures Books(Apply(s, FinalWrite(t, ok)))
  {
    var pc := PcOf(s, t);
    assert ThreadOk(s, t) && BookedThread(s, t);
    if pc.Ready? && pc.id < |s.slots| && !s.slots[pc.id].torn {
      assert pc.up.Some? && pc.up != pc.slotUp ==> Holds(pc, pc.up.value);
      assert pc.slotUp.Some? ==> Refers(pc, pc.slotUp.value);
      if ok {
        hide Books, Inv, BookedThread;
        BindBooks(s, t, pc.id, pc.up, Idle);
      } else if pc.published {
        Resigns(s, t, Abandoning(pc.id, if pc.up != pc.slotUp then pc.up else None));
      } else {
        GivesBack(s, t, pc.id, Freeing(pc.up, Some(pc.id), None));
      }
    }
  }

  // A thread stops working on its id.
  lemma Resigns(s: State, t: ThreadId, pc: Pc)
    requires Books(s) && (forall x: nat :: !Works(pc, x)) && !pc.HasId? && !pc.Edgeless? && !pc.Published? && !pc.Ready?
    requires forall e: nat :: Holds(PcOf(s, t), e) ==> Holds(pc, e)
    ensures Books(Goto(s, t, pc))
  {
    assert BookedThread(Goto(s, t, pc), t) by {
      assert forall x: nat :: !Reclaims(pc, x) by {
        assert forall x: nat :: Reclaims(pc, x) ==> Works(pc, x);
      }
    }
    hide BookedThread, Books;
    LocalBooks(s, Goto(s, t, pc), t, pc);
  }

  lemma PlainBooks(s: State, step: Step)
    requires Inv(s) && Books(s) && (IsLocal(step) || step.FindIndex?)
    ensures Books(Apply(s, step))
  {
    var t := step.t;
    var s' := Apply(s, step);
    if s' != s {
      var pc := PcOf(s', t);
      assert s' == Goto(s, t, pc);
      if step.Unresolved? && PcOf(s, t).HasId? {
        GivesBack(s, t, PcOf(s, t).id, pc);
      } else {
        Resigns(s, t, pc);
      }
    }
  }

  lemma LandBooks(s: State, t: ThreadId)
    requires Inv(s) && Books(s) && LandsClear(s, Tombstone(t))
    ensures Books(ApplyTombstone(s, t))
  {
    var pc := PcOf(s, t);
    if Lands(s, t) {
      TombstoneBooks(s, t);
    } else if pc.Abandoning? && pc.id < |s.slots| && !s.slots[pc.id].torn {
      Resigns(s, t, Freeing(None, None, pc.extra));
    }
  }

  lemma EmptyBooks(s: State, t: ThreadId)
    requires Inv(s) && Books(s)
    ensures Books(Apply(s, EmptyUpper(t, true)))
  {
    var pc := PcOf(s, t);
    if pc.Emptying? {
      var next := Freeing(Some(pc.gone), Some(pc.id), pc.extra);
      var s' := Goto(SetFull(s, pc.gone, false), t, next);
      assert BookedThread(s, t);
      assert forall x: nat :: Reclaims(next, x) <==> Reclaims(pc, x);
      assert forall x: nat :: Works(next, x) ==> Works(pc, x) && Reclaims(next, x);
      assert s'.slots == s.slots;
      assert BookedThread(s', t);
      hide BookedThread, Books, Inv;
      LocalBooks(s, s', t, next);
    }
  }

  lemma FreeOneBooks(s: State, t: ThreadId)
    requires Inv(s) && Books(s)
    ensures Books(ApplyFreeOne(s, t))
  {
    var pc := PcOf(s, t);
    assert ThreadOk(s, t);
    hide Inv, Books;
    if pc.Freeing? {
      if pc.first.Some? {
        assert Holds(pc, pc.first.value);
        FreeBooks(s, t, pc.first.value, Freeing(None, pc.back, pc.extra));
      } else if pc.back.Some? {
        FreeIdBooks(s, t, pc.back.value);
      } else if pc.extra.Some? {
        assert Holds(pc, pc.extra.value);
        FreeBooks(s, t, pc.extra.value, Freeing(None, None, None));
      } else {
        Resigns(s, t, Idle);
      }
    }
  }

  lemma UpdateBooks(s: State, t: ThreadId, degree: nat)
    requires Books(s)
    ensures Books(ApplyUpdate(s, t, degree))
  {
    var s' := ApplyUpdate(s, t, degree);
    if s' != s {
      Resigns(s, t, Idle);
      PoolAside(Goto(s, t, Idle), s');
    }
  }

  // The books do not speak of the entries' contents.
  lemma PoolAside(s: State, s': State)
    requires Books(s) && s' == s.(pool := s'.pool, full := s'.full)
    ensures Books(s')
  {
    forall t: ThreadId ensures BookedThread(s', t) && Alone(s', t) {
      assert BookedThread(s, t) && Alone(s, t);
      assert forall u: ThreadId :: PcOf(s', u) == PcOf(s, u);
    }
    forall id: nat ensures BookedSlot(s', id) {
      assert BookedSlot(s, id);
    }
    forall e: nat ensures BookedEntry(s', e) {
      assert BookedEntry(s, e);
    }
  }

  // Steps a calm standalone plane does not take, or that end the calm.
  predicate IsRaw(step: Step) {
    step.ReadExisting? || step.RawUpper? || step.RawWrite? || step.BackfillUpper? || step.BackfillWrite?
      || step.ClearNode?
    || step.Crash? || step.Tear? || step.Sanitize?
  }

  lemma NoRawStep(s: State, step: Step)
    requires Inv(s) && Calm(s) && Books(s) && IsRaw(step) && Calm(Apply(s, step))
    ensures Apply(s, step) == s
  {
    if step.Sanitize? {
      assert BookedSlot(s, step.id);
    } else if !step.ClearNode? && !step.Tear? {
      assert ThreadOk(s, step.t);
    }
  }

  lemma BooksStep(s: State, step: Step)
    requires Inv(s) && Books(s) && Calm(s) && Calm(Apply(s, step)) && LandsClear(s, step)
    ensures Books(Apply(s, step))
  {
    hide Inv, Books, ApplyAllocate, ApplyJoinUpper, ApplyTombstone, ApplyFreeOne, ApplyUpdate, LandsClear, SetFull;
    if IsRaw(step) {
      NoRawStep(s, step);
    } else if IsLocal(step) || step.FindIndex? {
      PlainBooks(s, step);
    } else {
      match step {
        case AllocateId(t, id) => AllocateBooks(s, t, id);
        case EdgelessUpper(t, take) => EdgelessBooks(s, t, take);
        case PublishEdgeless(t, ok) => PublishBooks(s, t, ok);
        case JoinUpper(t, take) => JoinBooks(s, t, take);
        case FinalWrite(t, ok) => FinalBooks(s, t, ok);
        case Tombstone(t) => LandBooks(s, t);
        case EmptyUpper(t, ok) =>
          if ok {
            EmptyBooks(s, t);
          }
        case FreeOne(t) => FreeOneBooks(s, t);
        case Update(t, degree) => UpdateBooks(s, t, degree);
        case SanitizeUpper(e) => SanitizedBooks(s, e);
      }
    }
  }

  lemma SanitizedBooks(s: State, e: nat)
    requires Books(s)
    ensures Books(SetFull(s, e, false))
  {
    PoolAside(s, SetFull(s, e, false));
  }

  lemma AccStep(s: State, step: Step)
    requires Acc(s) && LandsClear(s, step) && FreesQuiet(s, step)
    ensures Acc(Apply(s, step))
  {
    ClearSpares(s, step);
    InvStep(s, step);
    hide Inv, Books, LandsClear, FreesQuiet;
    if Calm(Apply(s, step)) {
      CalmBefore(s, step);
      BooksStep(s, step);
    }
  }

  lemma {:induction false} AccRun(s: State, steps: seq<Step>)
    requires Acc(s) && ClearRun(s, steps)
    ensures Acc(Run(s, steps))
    decreases |steps|
  {
    if steps != [] {
      AccStep(s, steps[0]);
      AccRun(Apply(s, steps[0]), steps[1..]);
    }
  }

  lemma InitAcc(ids: nat, entries: nat)
    requires entries <= NO_UPPER
    ensures Acc(Init(Standalone, ids, entries))
  {
    InitInv(Standalone, ids, entries);
  }

  function One(flag: bool): nat {
    if flag then 1 else 0
  }

  // In how many places an entry is.
  ghost function PlacesOf(s: State, e: nat): nat {
    One(exists id: nat :: NamedLive(s, id, e)) + One(e in s.stack) + One(exists t: ThreadId :: Holds(PcOf(s, t), e))
  }

  // Every entry issued is named by a live slot, free, or in the hands of one thread, and only one of these.
  ghost predicate Accounted(s: State) {
    forall e: nat :: e < s.pool.issued ==> PlacesOf(s, e) == 1
  }

  lemma AccAccounts(s: State)
    requires Acc(s) && Calm(s)
    ensures Accounted(s)
  {
    forall e: nat | e < s.pool.issued ensures PlacesOf(s, e) == 1 {
      assert BookedEntry(s, e);
      forall id: nat | NamedLive(s, id, e) ensures s.places[e] == Bound(id) {
        assert SlotOk(s, id);
      }
      forall t: ThreadId | Holds(PcOf(s, t), e) ensures s.places[e] == HeldBy(t) {
        assert ThreadOk(s, t);
      }
    }
  }

  // On a standalone plane where no process died and no entry lock wedged, in every run in which no delete lands on the
  // slot of an insert under way and no entry is freed, as it was written, under an update that holds its index: every
  // entry ever issued is named by a live slot, on the freelist, or in the hands of one insert or delete, and only one
  // of these.
  lemma NoEntryLost(ids: nat, entries: nat, steps: seq<Step>)
    requires entries <= NO_UPPER && ClearRun(Init(Standalone, ids, entries), steps)
    requires Calm(Run(Init(Standalone, ids, entries), steps))
    ensures Accounted(Run(Init(Standalone, ids, entries), steps))
  {
    InitAcc(ids, entries);
    AccRun(Init(Standalone, ids, entries), steps);
    hide Run;
    AccAccounts(Run(Init(Standalone, ids, entries), steps));
  }

  // ---- The proviso is exact ----

  // A delete that has landed runs to where its id is given back.
  function GivesIdBack(s: State, t: ThreadId): State {
    if PcOf(s, t).Emptying? then Apply(Apply(Apply(s, EmptyUpper(t, true)), FreeOne(t)), FreeOne(t))
    else Apply(s, FreeOne(t))
  }

  // An insert that needs no further entry makes its last write.
  function Finishes(s: State, u: ThreadId): State {
    Apply(Apply(s, JoinUpper(u, Skip)), FinalWrite(u, true))
  }

  // What can follow a tombstone: the delete ends and an insert of the id does, at once or after a whole insert by a
  // thread that is given the id again.
  ghost predicate EndsWell(s: State, t: ThreadId, u: ThreadId, w: ThreadId, id: nat) {
    Accounted(Finishes(GivesIdBack(s, t), u)) && Accounted(Finishes(InsertWhole(GivesIdBack(s, t), w, id), u))
  }

  // A step that neither frees an entry nor tombstones, and wedges nothing.
  predicate Tame(step: Step) {
    step.AllocateId? || step.ClaimWon? || step.PublishEdgeless? || step.FinalWrite?
    || ((step.EdgelessUpper? || step.JoinUpper?) && !step.take.Wedge?) || (step.EmptyUpper? && step.ok)
  }

  lemma TameStep(s: State, step: Step)
    requires Acc(s) && Calm(s) && Tame(step)
    ensures Acc(Apply(s, step)) && Calm(Apply(s, step))
  {
    AccStep(s, step);
    hide Acc, Store, Bind;
    if step.EdgelessUpper? || step.JoinUpper? {
      TakenTame(s, step.t, step.take);
      hide Taken;
    } else if step.PublishEdgeless? || step.FinalWrite? {
      BindTame(s);
    }
  }

  lemma BindTame(s: State)
    ensures forall id: nat, up: Option<nat> :: Bind(s, id, up).mode == s.mode && Bind(s, id, up).clean == s.clean
  {
  }

  lemma TakenTame(s: State, t: ThreadId, take: Take)
    requires !take.Wedge?
    ensures var r := Taken(s, t, take).0; r.mode == s.mode && r.clean == s.clean
  {
    hide Pop, Store;
  }

  lemma FinishesTame(s: State, u: ThreadId)
    requires Acc(s) && Calm(s)
    ensures Accounted(Finishes(s, u))
  {
    hide Acc, Calm, Apply, Accounted;
    TameStep(s, JoinUpper(u, Skip));
    TameStep(Apply(s, JoinUpper(u, Skip)), FinalWrite(u, true));
    AccAccounts(Finishes(s, u));
  }

  lemma InsertsTame(s: State, w: ThreadId, id: nat)
    requires Acc(s) && Calm(s)
    ensures Acc(InsertWhole(s, w, id)) && Calm(InsertWhole(s, w, id))
  {
    hide Acc, Calm, Apply;
    var s1 := Apply(s, AllocateId(w, id));
    TameStep(s, AllocateId(w, id));
    var s2 := Apply(s1, EdgelessUpper(w, Grant(0)));
    TameStep(s1, EdgelessUpper(w, Grant(0)));
    TameStep(s2, PublishEdgeless(w, true));
    TameStep(Apply(s2, PublishEdgeless(w, true)), ClaimWon(w));
  }

  // An entry without levels, or the id, goes back.
  lemma FreesTame(s: State, t: ThreadId)
    requires Acc(s) && Calm(s) && PcOf(s, t).Freeing?
    requires PcOf(s, t).first.Some? ==> !IsFull(s, PcOf(s, t).first.value)
    requires PcOf(s, t).first.None? ==> PcOf(s, t).back.Some?
    ensures Acc(Apply(s, FreeOne(t))) && Calm(Apply(s, FreeOne(t)))
  {
    AccStep(s, FreeOne(t));
    hide Acc;
  }

  lemma GivesBackTame(s: State, t: ThreadId)
    requires Acc(s) && Calm(s)
    requires PcOf(s, t).Emptying? || (PcOf(s, t).Freeing? && PcOf(s, t).first.None? && PcOf(s, t).back.Some?)
    ensures Acc(GivesIdBack(s, t)) && Calm(GivesIdBack(s, t))
  {
    hide Acc, Calm;
    if PcOf(s, t).Emptying? {
      var s1 := Apply(s, EmptyUpper(t, true));
      TameStep(s, EmptyUpper(t, true));
      assert PcOf(s1, t) == Freeing(Some(PcOf(s, t).gone), Some(PcOf(s, t).id), PcOf(s, t).extra);
      FreesTame(s1, t);
      var s2 := Apply(s1, FreeOne(t));
      assert PcOf(s2, t) == Freeing(None, Some(PcOf(s, t).id), PcOf(s, t).extra);
      FreesTame(s2, t);
    } else {
      FreesTame(s, t);
    }
  }

  // What stands after a tombstone and the rest of its delete.
  lemma IdGivenBack(s: State, t: ThreadId)
    requires Inv(s) && Lands(s, t)
    ensures var (id, up) := (PcOf(s, t).id, s.slots[PcOf(s, t).id].upper);
            var s1 := GivesIdBack(Apply(s, Tombstone(t)), t);
            && s1.slots == s.slots[id := Slot(Deleted, None, false)] && s1.mode == s.mode && s1.nextId == s.nextId
            && id in s1.freeIds && PcOf(s1, t) == Freeing(None, None, PcOf(s, t).extra)
            && (forall u: ThreadId :: u != t ==> PcOf(s1, u) == PcOf(s, u)) && |s1.places| == |s.places|
            && (up.Some? ==> up.value in s1.stack && s1.pool.issued == s.pool.issued)
            && (up.None? ==> s1.pool == s.pool && s1.stack == s.stack && s1.places == s.places && s1.full == s.full)
  {
    var (id, up) := (PcOf(s, t).id, s.slots[PcOf(s, t).id].upper);
    var s0 := Apply(s, Tombstone(t));
    if up.Some? {
      assert PcOf(s0, t) == Emptying(id, up.value, PcOf(s, t).extra);
      IdOfEmptying(s0, t);
    } else {
      assert PcOf(s0, t) == Freeing(None, Some(id), PcOf(s, t).extra);
    }
    hide Inv, Push;
  }

  lemma IdOfEmptying(s: State, t: ThreadId)
    requires PcOf(s, t).Emptying?
    ensures var (id, e) := (PcOf(s, t).id, PcOf(s, t).gone);
            var s1 := GivesIdBack(s, t);
            && s1.slots == s.slots && s1.mode == s.mode && s1.nextId == s.nextId && id in s1.freeIds && e in s1.stack
            && PcOf(s1, t) == Freeing(None, None, PcOf(s, t).extra) && s1.pool.issued == s.pool.issued
            && (forall u: ThreadId :: u != t ==> PcOf(s1, u) == PcOf(s, u)) && |s1.places| == |s.places|
  {
    var s1 := Apply(s, EmptyUpper(t, true));
    assert PcOf(s1, t) == Freeing(Some(PcOf(s, t).gone), Some(PcOf(s, t).id), PcOf(s, t).extra);
    var s2 := Apply(s1, FreeOne(t));
    assert PcOf(s2, t) == Freeing(None, Some(PcOf(s, t).id), PcOf(s, t).extra);
    assert s2.stack == [PcOf(s, t).gone] + s1.stack;
    assert ([PcOf(s, t).gone] + s1.stack)[0] == PcOf(s, t).gone;
  }

  // The insert's last write, whether or not it had chosen its entry yet.
  lemma LastWrite(s: State, u: ThreadId, id: nat, up: Option<nat>)
    requires PcOf(s, u) == Published(id, up) || (PcOf(s, u).Ready? && PcOf(s, u).id == id && PcOf(s, u).up == up)
    requires id < |s.slots| && !s.slots[id].torn
    ensures var s1 := Finishes(s, u);
            && s1.slots == s.slots[id := Slot(Valid, up, false)] && s1.stack == s.stack && s1.pool == s.pool
            && PcOf(s1, u) == Idle && forall v: ThreadId :: v != u ==> PcOf(s1, v) == PcOf(s, v)
  {
    var mid := Apply(s, JoinUpper(u, Skip));
    assert PcOf(mid, u).Ready? && PcOf(mid, u).id == id && PcOf(mid, u).up == up && mid.slots == s.slots
           && mid.stack == s.stack && mid.pool == s.pool;
  }

  // An insert whose slot is valid under another's tombstone has published it, and its slot says what it believes.
  lemma WorksPublished(s: State, u: ThreadId, id: nat)
    requires Acc(s) && Calm(s) && Inserting(PcOf(s, u), id) && IsValid(s, id)
    ensures !s.slots[id].torn
    ensures PcOf(s, u) == Published(id, s.slots[id].upper)
            || (PcOf(s, u).Ready? && PcOf(s, u).id == id && PcOf(s, u).slotUp == s.slots[id].upper)
  {
    assert BookedThread(s, u) && BookedSlot(s, id);
  }

  // The entry an insert will name with its last write.
  function UpOf(pc: Pc): Option<nat> {
    if pc.Published? || pc.Ready? then pc.up else None
  }

  // The slot had an entry: freed, it is named again.
  lemma NamesFreed(s: State, t: ThreadId, u: ThreadId)
    requires Acc(s) && Calm(s) && GivesUp(s, t) && u != t && Inserting(PcOf(s, u), PcOf(s, t).id)
    ensures !Accounted(Finishes(GivesIdBack(Apply(s, Tombstone(t)), t), u))
  {
    var (id, e) := (PcOf(s, t).id, GivenUp(s, t));
    assert ThreadOk(s, u);
    WorksPublished(s, u, id);
    ReadsBound(s, id);
    assert UpOf(PcOf(s, u)) == Some(e);
    IdGivenBack(s, t);
    assert e < s.pool.issued;
    hide Inv, Books, Apply, Acc, ThreadOk, GivesIdBack, Finishes;
    var s1 := GivesIdBack(Apply(s, Tombstone(t)), t);
    LastWrite(s1, u, id, Some(e));
    var s2 := Finishes(s1, u);
    assert NamedLive(s2, id, e) && e in s2.stack;
    assert PlacesOf(s2, e) >= 2;
  }

  // An entry of nobody's: no slot names it and nobody holds it.
  lemma NobodysEntry(s: State, g: nat)
    requires Inv(s) && g < |s.places| && (s.places[g].Free? || s.places[g].Never?)
    ensures forall x: nat :: !Names(s, x, g)
    ensures forall v: ThreadId :: !Holds(PcOf(s, v), g)
  {
    forall x: nat ensures !Names(s, x, g) {
      assert SlotOk(s, x);
    }
    forall v: ThreadId ensures !Holds(PcOf(s, v), g) {
      assert ThreadOk(s, v);
    }
  }

  predicate Available(s: State) {
    s.stack != [] || s.pool.issued < |s.pool.words|
  }

  lemma PopGives(s: State) returns (g: nat)
    requires PoolOk(s) && Available(s)
    ensures Pop(s.pool).1 == Some(g) && g < |s.places| && (s.places[g].Free? || s.places[g].Never?)
    ensures g !in Rest(s.stack) && g < Pop(s.pool).0.issued
  {
    PopTakes(s.pool, s.stack);
    if s.stack != [] {
      RestMembers(s.stack);
      g := s.stack[0];
      assert g in s.stack;
    } else {
      g := s.pool.issued;
    }
  }

  // The entry that insert will be given is nobody's, and not the one the insert under way may have taken.
  lemma NewEntry(s: State, t: ThreadId, u: ThreadId) returns (g: nat)
    requires Acc(s) && Calm(s) && PcOf(s, t).Abandoning? && (PcOf(s, u).Published? || PcOf(s, u).Ready?) && Available(s)
    requires PcOf(s, u).Published? ==> PcOf(s, u).up.None?
    requires PcOf(s, u).Ready? ==> PcOf(s, u).slotUp.None?
    ensures Pop(s.pool).1 == Some(g) && g < |s.places| && g !in Rest(s.stack) && g < Pop(s.pool).0.issued
    ensures (forall x: nat :: !Names(s, x, g)) && (forall v: ThreadId :: !Holds(PcOf(s, v), g))
    ensures UpOf(PcOf(s, u)) != Some(g) && !Holds(Freeing(None, None, PcOf(s, t).extra), g) && Sized(s)
  {
    g := PopGives(s);
    NobodysEntry(s, g);
    hide Inv, Books, Pop, Rest;
    assert !Holds(PcOf(s, u), g) && !Holds(PcOf(s, t), g);
  }

  // The slot had no entry: the next insert of the id gives it one, and the last write of the first loses it.
  lemma LosesNew(s: State, t: ThreadId, u: ThreadId, w: ThreadId)
    requires Acc(s) && Calm(s) && Lands(s, t) && !GivesUp(s, t) && u != t && Inserting(PcOf(s, u), PcOf(s, t).id)
    requires PcOf(s, w).Idle? && Available(s)
    ensures !Accounted(Finishes(InsertWhole(GivesIdBack(Apply(s, Tombstone(t)), t), w, PcOf(s, t).id), u))
  {
    var id := PcOf(s, t).id;
    WorksPublished(s, u, id);
    var g := NewEntry(s, t, u);
    IdGivenBack(s, t);
    hide Inv, Books, Apply, Acc, GivesIdBack, Finishes, InsertWhole, Pop, Holds;
    var s1 := GivesIdBack(Apply(s, Tombstone(t)), t);
    Inserts(s1, w, id, g);
    var s2 := InsertWhole(s1, w, id);
    LastWrite(s2, u, id, UpOf(PcOf(s, u)));
    NamedNowhere(s, t, u, w, id, g, s1, s2, UpOf(PcOf(s, u)));
  }

  lemma NamedNowhere(
    s: State, t: ThreadId, u: ThreadId, w: ThreadId, id: nat, g: nat, s1: State, s2: State, up: Option<nat>)
    requires (forall x: nat :: !Names(s, x, g)) && (forall v: ThreadId :: !Holds(PcOf(s, v), g)) && up != Some(g)
    requires id < |s.slots| && s1.slots == s.slots[id := Slot(Deleted, None, false)]
    requires !Holds(PcOf(s1, t), g) && forall v: ThreadId :: v != t ==> PcOf(s1, v) == PcOf(s, v)
    requires s2.slots == s1.slots[id := Slot(Valid, Some(g), false)] && s2.threads == s1.threads[w := Idle]
    requires g !in s2.stack && g < s2.pool.issued
    requires var s3 := Finishes(s2, u);
             && s3.slots == s2.slots[id := Slot(Valid, up, false)] && s3.stack == s2.stack && s3.pool == s2.pool
             && PcOf(s3, u) == Idle && forall v: ThreadId :: v != u ==> PcOf(s3, v) == PcOf(s2, v)
    ensures !Accounted(Finishes(s2, u))
  {
    hide Finishes;
    var s3 := Finishes(s2, u);
    forall x: nat ensures !NamedLive(s3, x, g) {
      assert x != id ==> !Names(s, x, g);
    }
    forall v: ThreadId ensures !Holds(PcOf(s3, v), g) {
      assert v != u && v != w && v != t ==> PcOf(s3, v) == PcOf(s, v);
    }
    assert PlacesOf(s3, g) == 0;
  }

  // While an entry is to be had: a tombstone lands clear just when, whatever insert is under way, every entry is
  // accounted for once its delete and that insert have ended.
  lemma LandsClearIsExact(s: State, t: ThreadId, w: ThreadId)
    requires Acc(s) && Calm(s) && Lands(s, t) && PcOf(s, w).Idle? && Available(s)
    ensures LandsClear(s, Tombstone(t)) <==> forall u: ThreadId ::
            u != t ==> EndsWell(Apply(s, Tombstone(t)), t, u, w, PcOf(s, t).id)
  {
    var id := PcOf(s, t).id;
    if LandsClear(s, Tombstone(t)) {
      AccStep(s, Tombstone(t));
      var s0 := Apply(s, Tombstone(t));
      assert Calm(s0)
             && (PcOf(s0, t).Emptying? || (PcOf(s0, t).Freeing? && PcOf(s0, t).first.None? && PcOf(s0, t).back.Some?));
      hide Acc, Calm, Apply, GivesIdBack, Finishes, InsertWhole, Accounted;
      GivesBackTame(s0, t);
      var s1 := GivesIdBack(s0, t);
      InsertsTame(s1, w, id);
      forall u: ThreadId | u != t ensures EndsWell(s0, t, u, w, id) {
        FinishesTame(s1, u);
        FinishesTame(InsertWhole(s1, w, id), u);
      }
    } else {
      var u: ThreadId :| u != t && Inserting(PcOf(s, u), id);
      hide Acc, Calm, Apply, GivesIdBack, Finishes, InsertWhole, Accounted;
      if GivesUp(s, t) {
        NamesFreed(s, t, u);
      } else {
        LosesNew(s, t, u, w);
      }
      assert !EndsWell(Apply(s, Tombstone(t)), t, u, w, id);
    }
  }

  lemma PublishesBare(s: State, t: ThreadId, id: nat)
    requires PcOf(s, t) == HasId(id) && id < |s.slots| && !s.slots[id].torn && id !in s.freeIds
    ensures var s1 := Apply(s, EdgelessUpper(t, Skip));
            && s1 == Goto(s, t, Edgeless(id, None))
            && Apply(s1, PublishEdgeless(t, true)) ==
               s1.(slots := s.slots[id := Slot(Valid, None, false)], threads := s1.threads[t := Published(id, None)])
  {
    var s1 := Apply(s, EdgelessUpper(t, Skip));
    assert s1 == Goto(s, t, Edgeless(id, None));
  }

  // It happens, in a run that takes no entry from any insert: thread 1's node, published without an entry, is deleted
  // by thread 2; thread 3 is given its id, takes an entry and returns; thread 1's last write leaves that entry nowhere.
  lemma EntryLostHappens() returns (s: State)
    ensures Reachable(1, 1, s) && Calm(s) && SparesInserts(s, Tombstone(2)) && !LandsClear(s, Tombstone(2))
    ensures var s1 := InsertWhole(GivesIdBack(Apply(s, Tombstone(2)), 2), 3, 0);
            !Accounted(Finishes(s1, 1))
  {
    s := BareUnderWay();
    hide Reachable, Apply, Acc, Accounted, Finishes, InsertWhole, GivesIdBack;
    assert Lands(s, 2) && !GivesUp(s, 2) && Inserting(PcOf(s, 1), 0);
    LosesNew(s, 2, 1, 3);
  }

  lemma OneBlank()
    ensures Init(Standalone, 1, 1) ==
            State(Standalone, [Slot(Untouched, Some(0), false)], Pool(NO_UPPER, [0], 0), [false], [], [Never], {}, 0,
                  false, map[], true)
  {
  }

  lemma BareStart() returns (s: State)
    ensures Reachable(1, 1, s) && Acc(s)
    ensures s ==
            State(Standalone, [Slot(Untouched, Some(0), false)], Pool(NO_UPPER, [0], 0), [false], [], [Never], {}, 1,
                  false, map[1 := HasId(0)], true)
  {
    InitReachable(1, 1);
    InitAcc(1, 1);
    OneBlank();
    var s0 := Init(Standalone, 1, 1);
    hide Reachable, Run, Apply, Acc, Init;
    GetsId(s0, 1, 0);
    TameStep(s0, AllocateId(1, 0));
    s := Plain(1, 1, s0, AllocateId(1, 0));
  }

  lemma BareUnderWay() returns (s: State)
    ensures Reachable(1, 1, s) && Acc(s) && Calm(s) && s.slots == [Slot(Valid, None, false)] && Available(s)
    ensures PcOf(s, 1) == Published(0, None) && PcOf(s, 2) == Abandoning(0, None) && PcOf(s, 3) == Idle
  {
    var s1 := BareStart();
    hide Reachable, Run, Apply, Acc, Begun;
    PublishesBare(s1, 1, 0);
    TameStep(s1, EdgelessUpper(1, Skip));
    var s2 := Plain(1, 1, s1, EdgelessUpper(1, Skip));
    TameStep(s2, PublishEdgeless(1, true));
    var s3 := Plain(1, 1, s2, PublishEdgeless(1, true));
    Deleting(s3, 2, 0);
    AccStep(s3, StartDelete(2, 0));
    s := Plain(1, 1, s3, StartDelete(2, 0));
  }
}
