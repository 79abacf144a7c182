/** Whose lists an upper entry holds. Entries are freed and written again for other nodes while pushes and cuts that
    read the old index are still under way; no upper list ever names its own node for it, so long as no delete lands on
    the slot of an insert that is still running and no entry is freed, as it was written, under an update that holds its
    index. */
module ListOwners {
  import opened Core
  import opened Ranking
  import opened Edits
  import opened Racing
  import opened UpperPool
  import opened Lists

  // ---- The proviso ----

  predicate Inserts(pc: Pc, id: Id) {
    Inserting(pc) && pc.id == id
  }

  // No tombstone lands on a slot that another thread's insert is still working on.
  ghost predicate SparesInserts(s: State, step: Step) {
    step.Tombstone? && PcOf(s, step.t).Deleting? && IsLive(s, PcOf(s, step.t).id) ==>
      forall u: ThreadId :: u != step.t ==> !Inserts(PcOf(s, u), PcOf(s, step.t).id)
  }

  predicate IsFull(s: State, e: nat) {
    EntryOf(s, e).full
  }

  // The entry a step gives back to the freelist.
  function Frees(s: State, step: Step): Option<nat> {
    if step.FreeNext? && PcOf(s, step.t).Freeing? then
      var pc := PcOf(s, step.t);
      if pc.first.Some? then pc.first else if pc.back.None? then pc.second else None
    else None
  }

  // An update under way that will store the degree of the entry's level-1 list, where a link would lie.
  predicate Aims(pc: Pc, e: nat) {
    ((pc.Pushing? && pc.e == e) || (pc.Cutting? && pc.e == e)) && pc.level == 1
  }

  // An entry goes back only without levels, or with no such update holding its index.
  ghost predicate FreesQuiet(s: State, step: Step) {
    Frees(s, step).Some? && IsFull(s, Frees(s, step).value) ==>
      forall u: ThreadId :: !Aims(PcOf(s, u), Frees(s, step).value)
  }

  ghost predicate Careful(s: State, step: Step) {
    SparesInserts(s, step) && FreesQuiet(s, step)
  }

  ghost predicate CarefulRun(s: State, steps: seq<Step>)
    decreases |steps|
  {
    steps != [] ==> Careful(s, steps[0]) && CarefulRun(Apply(s, steps[0]), steps[1..])
  }

  // ---- Invariant ----

  // A delete that has the id to give back.
  predicate Reclaims(pc: Pc, id: Id) {
    (pc.Emptying? && pc.id == id) || (pc.Freeing? && pc.back == Some(id))
  }

  predicate Works(pc: Pc, id: Id) {
    Inserts(pc, id) || Reclaims(pc, id)
  }

  // Entries in one thread's hands alone.
  predicate Keeps(pc: Pc, e: nat) {
    match pc
    case Choosing(_, _, _, up, _, bound, _) => up == Some(e) && !bound
    case Deleting(_, extra) => extra == Some(e)
    case Emptying(_, gone, extra) => gone == e || extra == Some(e)
    case Freeing(_, first, second) => first == Some(e) || second == Some(e)
    case _ => false
  }

  ghost predicate HandsOk(s: State, t: ThreadId) {
    var pc := PcOf(s, t);
    && (forall e: nat :: Keeps(pc, e) ==> PlaceOf(s, e) == Held(t))
    && (pc.Emptying? ==> pc.extra != Some(pc.e))
    && (pc.Freeing? && pc.first.Some? ==> pc.second != pc.first)
    && (pc.Choosing? ==>
          && (pc.bound ==> pc.written && pc.published) &&
            (pc.written ==> pc.up.Some? && OwnerOf(s, pc.up.value) == Some(pc.id))
          && (pc.bound ==> PlaceOf(s, pc.up.value) == Bound(pc.id)) && (pc.written ==> Sound(s, pc.up.value)))
  }

  ghost predicate WorkOk(s: State, t: ThreadId) {
    var pc := PcOf(s, t);
    && (forall x: Id :: Works(pc, x) ==> x !in s.freeIds)
    && (forall x: Id :: Reclaims(pc, x) ==> !IsLive(s, x))
    && (pc.Choosing? && !pc.published ==> !IsLive(s, pc.id))
    && (pc.Pushing? ==> OwnerOf(s, pc.e) != Some(pc.id))
    && (forall e: nat :: Aims(pc, e) ==> !(PlaceOf(s, e).Free? && IsFull(s, e)))
  }

  // One thread at a time works on an id.
  ghost predicate Alone(s: State, t: ThreadId) {
    forall u: ThreadId, x: Id :: u != t && Works(PcOf(s, t), x) ==> !Works(PcOf(s, u), x)
  }

  // A live slot's entry is bound to it and was written for it.
  ghost predicate NamesOwn(s: State, x: Id) {
    UpperOf(s, x).Some? ==> PlaceOf(s, UpperOf(s, x).value) == Bound(x) && OwnerOf(s, UpperOf(s, x).value) == Some(x)
  }

  // An entry's lists are well formed and name its owner nowhere.
  ghost predicate Sound(s: State, e: nat) {
    forall l :: 0 <= l < |LevelsOf(s, e)| ==>
      Well(LevelsOf(s, e)[l], UpperCap(s), s.highWater) &&
        (OwnerOf(s, e).Some? ==> OwnerOf(s, e).value !in LevelsOf(s, e)[l])
  }

  ghost predicate BoundOk(s: State, e: nat) {
    PlaceOf(s, e).Bound? ==> Sound(s, e)
  }

  // The links spell out the free entries.
  ghost predicate PoolOk(s: State) {
    && Chain(s.pool, s.stack)
    && forall e: nat :: (PlaceOf(s, e).Never? <==> e >= s.pool.issued) && (PlaceOf(s, e).Free? <==> e in s.stack)
  }

  ghost predicate IdsOk(s: State) {
    !s.wild && forall x :: x in s.freeIds ==> !IsLive(s, x)
  }

  ghost predicate Owned(s: State) {
    && Inv(s) && PoolOk(s) && IdsOk(s)
    && (forall x: Id :: NamesOwn(s, x)) && (forall e: nat :: BoundOk(s, e))
    && (forall t: ThreadId :: HandsOk(s, t) && WorkOk(s, t) && Alone(s, t))
  }

  // ---- What one step may change ----

  // Everything but one thread, at most one slot's standing and at most one entry is as it was.
  ghost predicate Passed(s: State, s': State, t: ThreadId, id: Option<Id>, e: Option<nat>) {
    && (forall u: ThreadId :: u != t ==> PcOf(s', u) == PcOf(s, u))
    && (forall x: Id :: Some(x) != id ==> IsLive(s', x) == IsLive(s, x) && UpperOf(s', x) == UpperOf(s, x))
    && (forall y: nat :: Some(y) != e ==>
          && PlaceOf(s', y) == PlaceOf(s, y) && OwnerOf(s', y) == OwnerOf(s, y) && LevelsOf(s', y) == LevelsOf(s, y)
          && IsFull(s', y) == IsFull(s, y))
    && UpperCap(s') == UpperCap(s) && s.highWater <= s'.highWater
  }

  // Only the one working on an id makes its slot live or gives the id back, and it takes up no id of another's.
  ghost predicate IdsKept(s: State, s': State, t: ThreadId, id: Option<Id>) {
    && (id.Some? && IsLive(s', id.value) ==> IsLive(s, id.value) || Inserts(PcOf(s, t), id.value))
    && (forall x :: x in s'.freeIds ==> x in s.freeIds || Reclaims(PcOf(s, t), x))
    && (forall u: ThreadId, x: Id :: u != t && Works(PcOf(s', t), x) ==> !Works(PcOf(s, u), x))
  }

  // An entry changes hands only out of the mover's, from nobody's, or out of a slot that no other insert works on; it
  // is written only for the id the mover inserts.
  ghost predicate EntryKept(s: State, s': State, t: ThreadId, id: Option<Id>, e: nat) {
    && (PlaceOf(s', e) != PlaceOf(s, e) ==> match PlaceOf(s, e)
          case Held(u) => u == t
          case Bound(x) => id == Some(x) && forall u: ThreadId :: u != t ==> !Inserts(PcOf(s, u), x)
          case _ => true)
    && (OwnerOf(s', e) != OwnerOf(s, e) ==>
          && id.Some? && OwnerOf(s', e) == id && Inserts(PcOf(s, t), id.value)
          && (PlaceOf(s, e) == Held(t) || PlaceOf(s, e) == Bound(id.value)))
    && (PlaceOf(s', e) == PlaceOf(s, e) && Sound(s, e) ==> Sound(s', e))
    && (PlaceOf(s', e).Free? && IsFull(s', e) ==>
          (PlaceOf(s, e).Free? && IsFull(s, e)) || forall u: ThreadId :: u != t ==> !Aims(PcOf(s, u), e))
  }

  lemma SameSound(s: State, s': State, e: nat)
    requires Sound(s, e) && OwnerOf(s', e) == OwnerOf(s, e) && LevelsOf(s', e) == LevelsOf(s, e)
    requires UpperCap(s') == UpperCap(s) && s.highWater <= s'.highWater
    ensures Sound(s', e)
  {
  }

  lemma OtherHands(s: State, s': State, t: ThreadId, id: Option<Id>, e: Option<nat>, u: ThreadId)
    requires Owned(s) && Passed(s, s', t, id, e) && (e.Some? ==> EntryKept(s, s', t, id, e.value)) && u != t
    ensures HandsOk(s', u)
  {
    assert HandsOk(s, u) && Alone(s, t);
    var pc := PcOf(s, u);
    assert PcOf(s', u) == pc;
    forall y: nat | Keeps(pc, y) ensures PlaceOf(s', y) == Held(u) {
      assert PlaceOf(s, y) == Held(u);
    }
    if pc.Choosing? && pc.up.Some? {
      assert Inserts(pc, pc.id) && Works(pc, pc.id);
      assert !pc.bound ==> Keeps(pc, pc.up.value);
      if pc.written && e != Some(pc.up.value) {
        SameSound(s, s', pc.up.value);
      }
    }
    hide Sound;
  }

  lemma OtherWork(s: State, s': State, t: ThreadId, id: Option<Id>, e: Option<nat>, u: ThreadId)
    requires Owned(s) && Passed(s, s', t, id, e) && IdsKept(s, s', t, id)
             && (e.Some? ==> EntryKept(s, s', t, id, e.value)) && u != t
    ensures WorkOk(s', u)
  {
    assert WorkOk(s, u) && Alone(s, t);
    var pc := PcOf(s, u);
    assert PcOf(s', u) == pc;
    assert Inserting(pc) ==> Works(pc, pc.id);
    assert forall x: Id :: Inserts(PcOf(s, t), x) ==> Works(PcOf(s, t), x);
    assert forall x: Id :: Reclaims(PcOf(s, t), x) ==> Works(PcOf(s, t), x);
  }

  lemma OtherSlot(s: State, s': State, t: ThreadId, id: Option<Id>, e: Option<nat>, x: Id)
    requires Owned(s) && Passed(s, s', t, id, e) && (e.Some? ==> EntryKept(s, s', t, id, e.value)) && Some(x) != id
    ensures NamesOwn(s', x)
  {
    assert NamesOwn(s, x);
  }

  // What a step still has to show.
  lemma OwnedMoved(s: State, s': State, t: ThreadId, id: Option<Id>, e: Option<nat>)
    requires Owned(s) && Inv(s') && Passed(s, s', t, id, e) && IdsKept(s, s', t, id)
    requires e.Some? ==> EntryKept(s, s', t, id, e.value) && BoundOk(s', e.value)
    requires id.Some? ==> NamesOwn(s', id.value)
    requires HandsOk(s', t) && WorkOk(s', t) && PoolOk(s') && !s'.wild
    ensures Owned(s')
  {
    hide HandsOk, WorkOk, PoolOk, Sound, EntryKept, Inv;
    forall u: ThreadId ensures HandsOk(s', u) && WorkOk(s', u) && Alone(s', u) {
      if u != t {
        OtherHands(s, s', t, id, e, u);
        OtherWork(s, s', t, id, e, u);
      }
      OthersAlone(s, s', t, id, u);
    }
    forall x: Id ensures NamesOwn(s', x) {
      if Some(x) != id {
        OtherSlot(s, s', t, id, e, x);
      }
    }
    forall y: nat ensures BoundOk(s', y) {
      assert BoundOk(s, y);
      if Some(y) != e && PlaceOf(s, y).Bound? {
        SameSound(s, s', y);
      }
    }
    FreeStaysDead(s, s', t, id, e);
  }

  lemma OthersAlone(s: State, s': State, t: ThreadId, id: Option<Id>, u: ThreadId)
    requires Owned(s) && IdsKept(s, s', t, id) && forall u: ThreadId :: u != t ==> PcOf(s', u) == PcOf(s, u)
    ensures Alone(s', u)
  {
    assert Alone(s, u);
  }

  lemma FreeStaysDead(s: State, s': State, t: ThreadId, id: Option<Id>, e: Option<nat>)
    requires Owned(s) && Passed(s, s', t, id, e) && IdsKept(s, s', t, id)
    requires WorkOk(s', t) && !s'.wild
    ensures IdsOk(s')
  {
    assert WorkOk(s, t);
  }

  // ---- Each step keeps it ----

  // Entries look the same where they and their words are.
  lemma SameViews(s: State, s': State)
    requires s'.entries == s.entries && s'.pool.words == s.pool.words
    ensures forall y: nat ::
            LevelsOf(s', y) == LevelsOf(s, y) && OwnerOf(s', y) == OwnerOf(s, y) && IsFull(s', y) == IsFull(s, y)
  {
  }

  lemma SamePool(s: State, s': State)
    requires PoolOk(s) && s'.pool == s.pool && s'.stack == s.stack && s'.place == s.place
    ensures PoolOk(s')
  {
    assert forall e: nat :: PlaceOf(s', e) == PlaceOf(s, e);
  }

  lemma SoundAfterSet(s: State, s': State, e: nat, level: nat, list: seq<Id>)
    requires EntryOk(s, e) && HasLevel(s, e, level) && |list| <= UPPER_CAP
    requires s'.entries == SetUpper(s, e, level, list).entries && s'.pool == SetUpper(s, e, level, list).pool
    requires s'.m == s.m && s'.highWater == s.highWater
    requires Sound(s, e) ==>
               Well(list, UpperCap(s), s.highWater) && (OwnerOf(s, e).Some? ==> OwnerOf(s, e).value !in list)
    ensures Sound(s, e) ==> Sound(s', e)
    ensures OwnerOf(s', e) == OwnerOf(s, e) && IsFull(s', e)
  {
    SetUpperReads(s, e, level, list);
    SameLevels(SetUpper(s, e, level, list), s', e);
    ReadsUpper(s, e, level);
    hide Well, SetUpper;
    if Sound(s, e) {
      forall l | 0 <= l < |LevelsOf(s', e)|
        ensures Well(LevelsOf(s', e)[l], UpperCap(s'), s'.highWater)
        ensures OwnerOf(s', e).Some? ==> OwnerOf(s', e).value !in LevelsOf(s', e)[l] {
        assert l != level - 1 ==> LevelsOf(s', e)[l] == LevelsOf(s, e)[l];
        SetUpperOwner(s, e, level, list);
      }
    }
    SetUpperOwner(s, e, level, list);
  }

  lemma SetUpperOwner(s: State, e: nat, level: nat, list: seq<Id>)
    requires HasLevel(s, e, level) && e in s.entries
    ensures OwnerOf(SetUpper(s, e, level, list), e) == OwnerOf(s, e) && IsFull(SetUpper(s, e, level, list), e)
    ensures forall x: nat :: x != e ==>
              OwnerOf(SetUpper(s, e, level, list), x) == OwnerOf(s, x)
                && IsFull(SetUpper(s, e, level, list), x) == IsFull(s, x)
              && LevelsOf(SetUpper(s, e, level, list), x) == LevelsOf(s, x)
  {
  }

  // A degree stored in an entry that is not free leaves the links alone.
  lemma SetUpperPool(s: State, s': State, t: ThreadId, e: nat, level: nat, list: seq<Id>)
    requires Owned(s) && HasLevel(s, e, level) && (level == 1 ==> Aims(PcOf(s, t), e))
    requires s'.pool == SetUpper(s, e, level, list).pool && s'.stack == s.stack && s'.place == s.place
    ensures PoolOk(s')
  {
    assert WorkOk(s, t);
    assert forall x: nat :: PlaceOf(s', x) == PlaceOf(s, x);
    if level == 1 {
      StoreOutside(s.pool, s.stack, e, |list|);
    }
  }

  // What a thread worked on before is still nobody else's.
  lemma StillAlone(s: State, t: ThreadId, pc: Pc)
    requires Owned(s) && forall x: Id :: Works(pc, x) ==> Works(PcOf(s, t), x)
    ensures forall u: ThreadId, x: Id :: u != t && Works(pc, x) ==> !Works(PcOf(s, u), x)
  {
    assert Alone(s, t);
  }

  // Nothing but a thread moved.
  lemma PassedSame(s: State, s': State, t: ThreadId)
    requires s'.entries == s.entries && s'.pool.words == s.pool.words && s'.place == s.place && s'.slots == s.slots
    requires s'.m == s.m && s.highWater <= s'.highWater && forall u: ThreadId :: u != t ==> PcOf(s', u) == PcOf(s, u)
    ensures Passed(s, s', t, None, None)
  {
    SameViews(s, s');
    hide LevelsOf, OwnerOf, IsFull;
  }

  // A move of one thread that changes nothing else.
  lemma ThreadMove(s: State, t: ThreadId, pc: Pc)
    requires Owned(s) && Inv(Goto(s, t, pc))
    requires HandsOk(Goto(s, t, pc), t) && WorkOk(Goto(s, t, pc), t)
    requires forall x: Id :: Works(pc, x) ==> Works(PcOf(s, t), x)
    ensures Owned(Goto(s, t, pc))
  {
    var s' := Goto(s, t, pc);
    StillAlone(s, t, pc);
    SamePool(s, s');
    PassedSame(s, s', t);
    assert IdsKept(s, s', t, None) && !s'.wild;
    hide HandsOk, WorkOk, Inv, PoolOk, Passed, IdsKept;
    OwnedMoved(s, s', t, None, None);
  }

  // A list is replaced, and the thread goes on.
  lemma ListMove(s: State, s': State, t: ThreadId, pc: Pc, e: Option<nat>)
    requires Owned(s) && Inv(s') && PoolOk(s')
    requires s' == Goto(s, t, pc).(slots := s'.slots, entries := s'.entries, pool := s'.pool)
    requires forall x: Id :: IsLive(s', x) == IsLive(s, x) && UpperOf(s', x) == UpperOf(s, x)
    requires forall y: nat :: OwnerOf(s', y) == OwnerOf(s, y) &&
                (Some(y) != e ==> LevelsOf(s', y) == LevelsOf(s, y) && IsFull(s', y) == IsFull(s, y))
    requires e.Some? ==> (Sound(s, e.value) ==> Sound(s', e.value)) && (IsFull(s', e.value) ==> IsFull(s, e.value))
    requires HandsOk(Goto(s, t, pc), t) && WorkOk(Goto(s, t, pc), t)
    requires !pc.Choosing? && (forall x: nat :: !Aims(pc, x)) && forall x: Id :: Works(pc, x) ==> Works(PcOf(s, t), x)
    ensures Owned(s')
  {
    StillAlone(s, t, pc);
    ListMoveHands(s, s', t, pc);
    assert !s'.wild && IdsKept(s, s', t, None);
    PassedOne(s, s', t, e);
    if e.Some? {
      ListKept(s, s', t, e.value);
    }
    hide HandsOk, WorkOk, Inv, Sound, Works, PoolOk, Aims, Passed, IdsKept, EntryKept, BoundOk;
    OwnedMoved(s, s', t, None, e);
  }

  lemma PassedOne(s: State, s': State, t: ThreadId, e: Option<nat>)
    requires forall u: ThreadId :: u != t ==> PcOf(s', u) == PcOf(s, u)
    requires forall x: Id :: IsLive(s', x) == IsLive(s, x) && UpperOf(s', x) == UpperOf(s, x)
    requires forall y: nat :: OwnerOf(s', y) == OwnerOf(s, y) &&
                (Some(y) != e ==> LevelsOf(s', y) == LevelsOf(s, y) && IsFull(s', y) == IsFull(s, y))
    requires s'.place == s.place && s'.m == s.m && s.highWater <= s'.highWater
    ensures Passed(s, s', t, None, e)
  {
    hide LevelsOf, OwnerOf, IsFull, IsLive, UpperOf;
  }

  lemma ListKept(s: State, s': State, t: ThreadId, e: nat)
    requires Owned(s) && s'.place == s.place && OwnerOf(s', e) == OwnerOf(s, e)
    requires (Sound(s, e) ==> Sound(s', e)) && (IsFull(s', e) ==> IsFull(s, e))
    ensures EntryKept(s, s', t, None, e) && BoundOk(s', e)
  {
    assert PlaceOf(s', e) == PlaceOf(s, e);
    assert BoundOk(s, e);
    hide Sound;
  }

  lemma ListMoveHands(s: State, s': State, t: ThreadId, pc: Pc)
    requires HandsOk(Goto(s, t, pc), t) && WorkOk(Goto(s, t, pc), t) && !pc.Choosing? && forall x: nat :: !Aims(pc, x)
    requires s' == Goto(s, t, pc).(slots := s'.slots, entries := s'.entries, pool := s'.pool)
    requires forall x: Id :: IsLive(s', x) == IsLive(s, x)
    requires forall y: nat :: OwnerOf(s', y) == OwnerOf(s, y)
    ensures HandsOk(s', t) && WorkOk(s', t)
  {
    assert forall y: nat ::
           PlaceOf(s', y) == PlaceOf(Goto(s, t, pc), y) && OwnerOf(s', y) == OwnerOf(Goto(s, t, pc), y);
    assert forall x: Id :: IsLive(s', x) == IsLive(Goto(s, t, pc), x);
  }

  // A thread that goes on linking, or to rest, has nothing to answer for.
  lemma Restful(s: State, t: ThreadId, pc: Pc)
    requires Owned(s) && !pc.Choosing? && !pc.Pushing? && !pc.Cutting? && (forall e: nat :: !Keeps(pc, e))
             && (forall x: Id :: !Reclaims(pc, x))
    requires !pc.Emptying? && (pc.Freeing? ==> pc.first.None?)
    requires forall x: Id :: Works(pc, x) ==> Works(PcOf(s, t), x)
    ensures HandsOk(Goto(s, t, pc), t) && WorkOk(Goto(s, t, pc), t)
  {
    assert WorkOk(s, t);
  }

  lemma LooksOwned(s: State, step: Step)
    requires Owned(s) && Looks(step)
    ensures Owned(Goto(s, step.t, LookPc(s, step.t, step)))
  {
    var t := step.t;
    var pc := LookPc(s, t, step);
    LookStep(s, step);
    assert HandsOk(s, t) && WorkOk(s, t);
    assert PcOf(s, t).Choosing? ==>
        pc.Choosing? && pc.id == PcOf(s, t).id && pc.up == PcOf(s, t).up && pc.written == PcOf(s, t).written
        && pc.bound == PcOf(s, t).bound && pc.published == PcOf(s, t).published;
    hide LookPc, Owned, Inv;
    assert forall x: Id :: Works(pc, x) ==> Works(PcOf(s, t), x);
    assert forall x: nat :: Keeps(pc, x) ==> Keeps(PcOf(s, t), x);
    SameStanding(s, t, pc);
    ThreadMove(s, t, pc);
  }

  lemma SameStanding(s: State, t: ThreadId, pc: Pc)
    requires HandsOk(s, t) && WorkOk(s, t)
    requires if PcOf(s, t).Choosing? then
               pc.Choosing? && pc.id == PcOf(s, t).id && pc.up == PcOf(s, t).up && pc.written == PcOf(s, t).written
               && pc.bound == PcOf(s, t).bound && pc.published == PcOf(s, t).published
             else pc == PcOf(s, t)
    ensures HandsOk(Goto(s, t, pc), t) && WorkOk(Goto(s, t, pc), t)
  {
    var s' := Goto(s, t, pc);
    SameViews(s, s');
    assert forall x: nat :: PlaceOf(s', x) == PlaceOf(s, x);
    assert HandsOk(s', t) by {
      assert forall x: nat :: Keeps(pc, x) ==> Keeps(PcOf(s, t), x);
      if pc.Choosing? && pc.written {
        SameSound(s, s', pc.up.value);
      }
      hide Sound, LevelsOf, OwnerOf, IsFull;
    }
    hide Sound, HandsOk, LevelsOf, OwnerOf, IsFull;
    assert forall x: Id :: Works(pc, x) ==> Works(PcOf(s, t), x);
    assert forall x: nat :: Aims(pc, x) ==> Aims(PcOf(s, t), x);
  }

  lemma GivesUpOwned(s: State, t: ThreadId)
    requires Owned(s) && PcOf(s, t).Choosing?
    ensures Owned(Goto(s, t, NextPc(s, t, GiveUp(t))))
  {
    var was := PcOf(s, t);
    var pc := NextPc(s, t, GiveUp(t));
    GoOnStep(s, GiveUp(t));
    assert HandsOk(s, t) && WorkOk(s, t);
    assert forall e: nat :: Keeps(pc, e) ==> Keeps(was, e);
    assert forall x: Id :: Works(pc, x) ==> Works(was, x);
    assert HandsOk(Goto(s, t, pc), t) && WorkOk(Goto(s, t, pc), t);
    hide NextPc, Owned, Inv, HandsOk, WorkOk, Works;
    ThreadMove(s, t, pc);
  }

  // The entry index a reverse edge reads belongs to its neighbour, not to the node being inserted.
  lemma FindsOwned(s: State, t: ThreadId, nid: Id, level: nat)
    requires Owned(s)
    ensures Owned(Goto(s, t, NextPc(s, t, FindUpper(t, nid, level))))
  {
    var pc := NextPc(s, t, FindUpper(t, nid, level));
    GoOnStep(s, FindUpper(t, nid, level));
    assert HandsOk(s, t) && WorkOk(s, t) && NamesOwn(s, nid);
    if pc == PcOf(s, t) {
      SameStanding(s, t, pc);
    } else {
      PushStands(s, t, pc);
    }
    assert forall x: Id :: Works(pc, x) ==> Works(PcOf(s, t), x);
    hide NextPc, Owned, Inv, HandsOk, WorkOk, Works;
    ThreadMove(s, t, pc);
  }

  // A push by the index of another node's entry.
  lemma PushStands(s: State, t: ThreadId, pc: Pc)
    requires WorkOk(s, t) && PcOf(s, t).Linking? && pc.Pushing? && pc.id == PcOf(s, t).id
    requires PlaceOf(s, pc.e).Bound? && OwnerOf(s, pc.e) != Some(pc.id)
    ensures HandsOk(Goto(s, t, pc), t) && WorkOk(Goto(s, t, pc), t)
  {
    assert forall x: Id :: Works(pc, x) ==> Works(PcOf(s, t), x);
  }

  // A cut by the index of an entry in use.
  lemma CutStands(s: State, t: ThreadId, pc: Pc)
    requires pc.Cutting? && PlaceOf(s, pc.e).Bound?
    ensures HandsOk(Goto(s, t, pc), t) && WorkOk(Goto(s, t, pc), t) && forall x: Id :: !Works(pc, x)
  {
  }

  lemma FindsCut(s: State, t: ThreadId, from: Id, level: nat, to: Id)
    requires Owned(s)
    ensures Owned(Goto(s, t, NextPc(s, t, FindCut(t, from, level, to))))
  {
    var pc := NextPc(s, t, FindCut(t, from, level, to));
    GoOnStep(s, FindCut(t, from, level, to));
    assert HandsOk(s, t) && WorkOk(s, t) && NamesOwn(s, from);
    if pc == PcOf(s, t) {
      SameStanding(s, t, pc);
    } else {
      CutStands(s, t, pc);
    }
    hide NextPc, Owned, Inv, HandsOk, WorkOk;
    ThreadMove(s, t, pc);
  }

  lemma GoesOnOwned(s: State, step: Step)
    requires Owned(s) && GoesOn(step)
    ensures Owned(Goto(s, step.t, NextPc(s, step.t, step)))
  {
    var t := step.t;
    var pc := NextPc(s, t, step);
    if step.FindUpper? {
      FindsOwned(s, t, step.nid, step.level);
    } else if step.GiveUp? && PcOf(s, t).Choosing? {
      GivesUpOwned(s, t);
    } else if step.FindCut? {
      FindsCut(s, t, step.from, step.level, step.to);
    } else {
      GoOnStep(s, step);
      if pc == PcOf(s, t) {
        assert HandsOk(s, t) && WorkOk(s, t);
        SameStanding(s, t, pc);
      } else {
        Restful(s, t, pc);
      }
      hide NextPc, Owned, Inv, HandsOk, WorkOk;
      ThreadMove(s, t, pc);
    }
  }

  lemma AllocateOwned(s: State, t: ThreadId, id: Id)
    requires Owned(s)
    ensures Owned(ApplyAllocate(s, t, id))
  {
    AllocateStep(s, t, id);
    var s' := ApplyAllocate(s, t, id);
    if PcOf(s, t).Idle? && (id in s.freeIds || id == s.highWater) {
      AllocatedHands(s, t, id);
      NobodyWorks(s, id);
      NotLive(s, id);
      SamePool(s, s');
      PassedSame(s, s', t);
      assert forall x: Id :: Works(PcOf(s', t), x) ==> x == id;
      assert IdsKept(s, s', t, None);
      hide Inv, HandsOk, WorkOk, PoolOk, ApplyAllocate, Works, Aims, Passed, IdsKept;
      OwnedMoved(s, s', t, None, None);
    }
  }

  lemma AllocatedHands(s: State, t: ThreadId, id: Id)
    requires Owned(s) && PcOf(s, t).Idle? && (id in s.freeIds || id == s.highWater)
    ensures HandsOk(ApplyAllocate(s, t, id), t) && WorkOk(ApplyAllocate(s, t, id), t)
    ensures !ApplyAllocate(s, t, id).wild
  {
    NotLive(s, id);
    assert forall x :: x in s.freeIds ==> x < s.highWater;
    hide Inv, PoolOk, Sound;
  }

  // An id that can be allocated is nobody's.
  lemma NobodyWorks(s: State, id: Id)
    requires Owned(s) && (id in s.freeIds || id == s.highWater)
    ensures forall u: ThreadId :: !Works(PcOf(s, u), id)
  {
    forall u: ThreadId ensures !Works(PcOf(s, u), id) {
      assert WorkOk(s, u) && ThreadOk(s, u);
    }
  }

  lemma NotLive(s: State, id: Id)
    requires Owned(s) && (id in s.freeIds || id == s.highWater)
    ensures !IsLive(s, id)
  {
    assert SlotOk(s, id);
  }

  // An entry off the freelist, or never issued, is nobody's.
  lemma TakePool(s: State, t: ThreadId, e: nat)
    requires PoolOk(s) && Pop(s.pool).1 == Some(e)
    ensures PlaceOf(s, e).Free? || PlaceOf(s, e).Never?
    ensures PoolOk(SetPlace(s.(pool := Pop(s.pool).0, stack := Rest(s.stack)), e, Held(t)))
    ensures Pop(s.pool).0.words == s.pool.words
  {
    PopTakes(s.pool, s.stack);
    if s.stack != [] {
      RestMembers(s.stack);
    }
    var s' := SetPlace(s.(pool := Pop(s.pool).0, stack := Rest(s.stack)), e, Held(t));
    hide Chain, NoDup, Pop;
    assert forall y: nat :: y != e ==> PlaceOf(s', y) == PlaceOf(s, y);
  }

  lemma TakeOwned(s: State, t: ThreadId)
    requires Owned(s)
    ensures Owned(ApplyTake(s, t))
  {
    TakeStep(s, t);
    if PcOf(s, t).Choosing? && PcOf(s, t).up.None? && Pop(s.pool).1.Some? {
      TakenOwned(s, t, Pop(s.pool).1.value);
    }
  }

  lemma TakenOwned(s: State, t: ThreadId, e: nat)
    requires Owned(s) && PcOf(s, t).Choosing? && PcOf(s, t).up.None? && Pop(s.pool).1 == Some(e) && Inv(ApplyTake(s, t))
    ensures Owned(ApplyTake(s, t))
  {
    var s' := ApplyTake(s, t);
    var pc := PcOf(s, t);
    TakePool(s, t, e);
    SamePool(SetPlace(s.(pool := Pop(s.pool).0, stack := Rest(s.stack)), e, Held(t)), s');
    assert HandsOk(s, t) && WorkOk(s, t) && !s.wild;
    assert forall x: Id :: Works(PcOf(s', t), x) ==> Works(pc, x);
    StillAlone(s, t, PcOf(s', t));
    assert forall y: nat :: y != e ==> PlaceOf(s', y) == PlaceOf(s, y);
    assert PlaceOf(s', e) == Held(t);
    TakenHands(s, s', t, e);
    hide Owned, Inv, HandsOk, WorkOk, PoolOk, Works, Pop;
    TakenMoved(s, s', t, e);
  }

  lemma TakenHands(s: State, s': State, t: ThreadId, e: nat)
    requires HandsOk(s, t) && WorkOk(s, t) && PcOf(s, t).Choosing? && PcOf(s, t).up.None?
    requires var pc := PcOf(s, t); PcOf(s', t) == Choosing(pc.id, pc.seen, pc.at, Some(e), false, false, pc.published)
    requires PlaceOf(s', e) == Held(t) && s'.freeIds == s.freeIds && s'.slots == s.slots
    ensures HandsOk(s', t) && WorkOk(s', t)
  {
    assert forall x: Id :: Works(PcOf(s', t), x) ==> Works(PcOf(s, t), x);
  }

  lemma TakenMoved(s: State, s': State, t: ThreadId, e: nat)
    requires Owned(s) && Inv(s') && PoolOk(s') && HandsOk(s', t) && WorkOk(s', t) && !s'.wild
    requires s'.slots == s.slots && s'.freeIds == s.freeIds && s'.m == s.m && s'.highWater == s.highWater
    requires s'.entries == s.entries && s'.pool.words == s.pool.words
    requires forall y: nat :: y != e ==> PlaceOf(s', y) == PlaceOf(s, y)
    requires PlaceOf(s', e) == Held(t) && (PlaceOf(s, e).Free? || PlaceOf(s, e).Never?)
    requires forall u: ThreadId :: u != t ==> PcOf(s', u) == PcOf(s, u)
    requires forall u: ThreadId, x: Id :: u != t && Works(PcOf(s', t), x) ==> !Works(PcOf(s, u), x)
    ensures Owned(s')
  {
    SameViews(s, s');
    hide Owned, Inv, PoolOk, HandsOk, WorkOk, Sound, LevelsOf, OwnerOf, IsFull, Works, Aims;
    assert Passed(s, s', t, None, Some(e)) && IdsKept(s, s', t, None);
    assert EntryKept(s, s', t, None, e) && BoundOk(s', e);
    hide *;
    OwnedMoved(s, s', t, None, Some(e));
  }

  lemma WriteOwned(s: State, t: ThreadId, lists: seq<seq<Id>>)
    requires Owned(s)
    ensures Owned(ApplyWriteEntry(s, t, lists))
  {
    WriteEntryStep(s, t, lists);
    var pc := PcOf(s, t);
    if ApplyWriteEntry(s, t, lists) != s {
      var e := pc.up.value;
      assert HandsOk(s, t) && ThreadOk(s, t) && EntryOk(s, e);
      assert !pc.bound ==> Keeps(pc, e);
      CutNamesOthers(pc.seen, pc.id, lists, 2 * s.m);
      CutsOk(s, pc.seen, pc.id, lists);
      hide CutLists, ChosenFrom;
      WrittenOwned(s, t, CutLists(lists));
    }
  }

  // A whole entry is written by the insert that has it.
  lemma WrittenOwned(s: State, t: ThreadId, lists: seq<seq<Id>>)
    requires Owned(s) && PcOf(s, t).Choosing? && PcOf(s, t).up.Some?
    requires forall l :: 0 <= l < |lists| ==>
               |lists[l]| <= UPPER_CAP && Well(lists[l], UpperCap(s), s.highWater) && PcOf(s, t).id !in lists[l]
    requires var pc := PcOf(s, t);
             Inv(Goto(Rewritten(s, pc.up.value, pc.id, lists), t,
                      Choosing(pc.id, pc.seen, pc.at, pc.up, true, pc.bound, pc.published)))
    ensures var pc := PcOf(s, t);
            Owned(Goto(Rewritten(s, pc.up.value, pc.id, lists), t,
                       Choosing(pc.id, pc.seen, pc.at, pc.up, true, pc.bound, pc.published)))
  {
    var pc := PcOf(s, t);
    var e := pc.up.value;
    var next := Choosing(pc.id, pc.seen, pc.at, pc.up, true, pc.bound, pc.published);
    var s' := Goto(Rewritten(s, e, pc.id, lists), t, next);
    WrittenEntry(s, t, lists);
    assert HandsOk(s, t) && NamesOwn(s, pc.id);
    hide Rewritten, PoolOk, Inv, EntryOk, Sound;
    assert forall x: Id :: Works(next, x) ==> Works(pc, x);
    StillAlone(s, t, next);
    assert forall x: nat :: PlaceOf(s', x) == PlaceOf(s, x);
    assert NamesOwn(s', pc.id);
    WrittenHands(s, s', t, e, next);
    hide HandsOk, WorkOk, Works, Aims, LevelsOf, IsFull, Owned, Goto;
    assert IdsOk(s) by {
      OwnedIds(s);
    }
    OwnedMoved(s, s', t, Some(pc.id), Some(e));
  }

  lemma WrittenHands(s: State, s': State, t: ThreadId, e: nat, next: Pc)
    requires HandsOk(s, t) && WorkOk(s, t) && PcOf(s, t).Choosing? && PcOf(s, t).up == Some(e) && PcOf(s', t) == next
    requires var pc := PcOf(s, t); next == Choosing(pc.id, pc.seen, pc.at, pc.up, true, pc.bound, pc.published)
    requires Sound(s', e) && OwnerOf(s', e) == Some(next.id) && s'.freeIds == s.freeIds && s'.slots == s.slots
    requires forall x: nat :: PlaceOf(s', x) == PlaceOf(s, x)
    ensures HandsOk(s', t) && WorkOk(s', t)
  {
    var pc := PcOf(s, t);
    hide Sound;
    assert forall x: nat :: Keeps(next, x) ==> Keeps(pc, x);
    assert forall x: Id :: Works(next, x) ==> Works(pc, x);
    assert forall x: Id :: IsLive(s', x) == IsLive(s, x);
  }

  // What the write leaves: its entry sound, every other as it was, the links as they were.
  lemma WrittenEntry(s: State, t: ThreadId, lists: seq<seq<Id>>)
    requires Owned(s) && PcOf(s, t).Choosing? && PcOf(s, t).up.Some?
    requires forall l :: 0 <= l < |lists| ==>
               |lists[l]| <= UPPER_CAP && Well(lists[l], UpperCap(s), s.highWater) && PcOf(s, t).id !in lists[l]
    ensures var (pc, e) := (PcOf(s, t), PcOf(s, t).up.value);
            var mid := Rewritten(s, e, pc.id, lists);
            var s' := Goto(mid, t, Choosing(pc.id, pc.seen, pc.at, pc.up, true, pc.bound, pc.published));
            && (PlaceOf(s, e) == Held(t) || PlaceOf(s, e) == Bound(pc.id)) && WorkOk(s, t)
            && mid == s.(entries := mid.entries, pool := mid.pool) && OwnerOf(s', e) == Some(pc.id) && Sound(s', e)
              && PoolOk(s')
            && forall x: nat :: x != e ==>
                 LevelsOf(s', x) == LevelsOf(s, x) && OwnerOf(s', x) == OwnerOf(s, x) && IsFull(s', x) == IsFull(s, x)
  {
    var (pc, e) := (PcOf(s, t), PcOf(s, t).up.value);
    var mid := Rewritten(s, e, pc.id, lists);
    var s' := Goto(mid, t, Choosing(pc.id, pc.seen, pc.at, pc.up, true, pc.bound, pc.published));
    assert HandsOk(s, t) && WorkOk(s, t) && ThreadOk(s, t) && EntryOk(s, e);
    assert PlaceOf(s, e) == Held(t) || PlaceOf(s, e) == Bound(pc.id) by {
      assert !pc.bound ==> Keeps(pc, e);
    }
    hide HandsOk, WorkOk, ThreadOk, Sound;
    RewrittenOk(s, e, pc.id, lists);
    RewrittenOthers(s, e, pc.id, lists);
    StoreOutside(s.pool, s.stack, e, if lists == [] then 0 else |lists[0]|);
    hide Rewritten, EntryOk, Inv;
    SameViews(mid, s');
    assert PoolOk(s') by {
      hide Chain;
      assert forall y: nat :: PlaceOf(s', y) == PlaceOf(s, y);
    }
    WrittenSound(s', e, lists);
  }

  lemma WrittenSound(s: State, e: nat, lists: seq<seq<Id>>)
    requires LevelsOf(s, e) == lists && OwnerOf(s, e).Some?
    requires forall l ::
             0 <= l < |lists| ==> Well(lists[l], UpperCap(s), s.highWater) && OwnerOf(s, e).value !in lists[l]
    ensures Sound(s, e)
  {
  }

  lemma RewrittenOthers(s: State, e: nat, id: Id, lists: seq<seq<Id>>)
    ensures var s' := Rewritten(s, e, id, lists);
            && s' == s.(entries := s'.entries, pool := s'.pool) && OwnerOf(s', e) == Some(id)
            && (IsFull(s', e) <==> lists != []) && |s'.pool.words| == |s.pool.words|
            && (lists == [] ==> s'.pool == s.pool) && (lists != [] ==> s'.pool == Store(s.pool, e, |lists[0]|))
            && forall x: nat :: x != e ==>
                 LevelsOf(s', x) == LevelsOf(s, x) && OwnerOf(s', x) == OwnerOf(s, x) && IsFull(s', x) == IsFull(s, x)
  {
  }

  lemma CutNamesOthers(seen: set<Id>, id: Id, lists: seq<seq<Id>>, limit: nat)
    requires forall l :: 0 <= l < |lists| ==> ChosenFrom(seen, id, lists[l], limit)
    ensures forall l :: 0 <= l < |CutLists(lists)| ==> id !in CutLists(lists)[l]
  {
    forall l | 0 <= l < |CutLists(lists)| ensures id !in CutLists(lists)[l] {
      assert Truncate(lists[l], UPPER_CAP) <= lists[l];
    }
  }

  // A slot goes out, naming the entry its insert has written, or none.
  lemma PublishOwned(s: State, t: ThreadId, list: seq<Id>)
    requires Owned(s)
    ensures Owned(ApplyPublish(s, t, list))
  {
    PublishStep(s, t, list);
    if ApplyPublish(s, t, list) != s {
      if PcOf(s, t).written {
        PublishesNamed(s, t, list);
      } else {
        PublishesBare(s, t, list);
      }
    }
  }

  lemma PublishesBare(s: State, t: ThreadId, list: seq<Id>)
    requires Owned(s) && PcOf(s, t).Choosing? && !PcOf(s, t).written && ApplyPublish(s, t, list) != s
    requires Inv(ApplyPublish(s, t, list))
    ensures Owned(ApplyPublish(s, t, list))
  {
    var (pc, s') := (PcOf(s, t), ApplyPublish(s, t, list));
    var slot := Slot(true, Truncate(list, s.cap), None);
    assert HandsOk(s, t) && WorkOk(s, t) && Works(pc, pc.id) && pc.id !in s.freeIds;
    OwnedIds(s);
    StillAlone(s, t, pc);
    assert s' == s.(slots := s.slots[pc.id := slot],
                    threads := s.threads[t := Choosing(pc.id, pc.seen, pc.at, pc.up, false, false, true)]);
    assert forall x: Id :: Works(PcOf(s', t), x) ==> Works(pc, x);
    hide ApplyPublish, ChosenFrom, Inv, Owned;
    SamePool(s, s');
    BareHands(s, s', t);
    hide HandsOk, WorkOk, PoolOk, Works;
    SlotMoved(s, s', t, pc.id);
  }

  // One slot goes out or dies; its entry, if it names one, is not touched.
  lemma SlotMoved(s: State, s': State, t: ThreadId, id: Id)
    requires Owned(s) && Inv(s') && PoolOk(s') && HandsOk(s', t) && WorkOk(s', t) && NamesOwn(s', id) && !s'.wild
    requires s'.entries == s.entries && s'.pool == s.pool && s'.place == s.place && s'.m == s.m
    requires s'.highWater == s.highWater && s'.freeIds == s.freeIds
    requires forall u: ThreadId :: u != t ==> PcOf(s', u) == PcOf(s, u) && !Works(PcOf(s, u), id)
    requires forall x: Id :: x != id ==> IsLive(s', x) == IsLive(s, x) && UpperOf(s', x) == UpperOf(s, x)
    requires IsLive(s', id) ==> IsLive(s, id) || Inserts(PcOf(s, t), id)
    requires forall x: Id ::
             Works(PcOf(s', t), x) ==>
               Works(PcOf(s, t), x) || forall u: ThreadId :: u != t ==> !Works(PcOf(s, u), x)
    ensures Owned(s')
  {
    assert Alone(s, t);
    assert IdsKept(s, s', t, Some(id)) by {
      hide Owned, Inv, PoolOk, HandsOk, WorkOk, IsLive, NamesOwn;
    }
    hide *;
    PassedSlot(s, s', t, id);
    OwnedMoved(s, s', t, Some(id), None);
  }

  lemma PassedSlot(s: State, s': State, t: ThreadId, id: Id)
    requires s'.entries == s.entries && s'.pool.words == s.pool.words && s'.place == s.place && s'.m == s.m
    requires s.highWater <= s'.highWater && forall u: ThreadId :: u != t ==> PcOf(s', u) == PcOf(s, u)
    requires forall x: Id :: x != id ==> IsLive(s', x) == IsLive(s, x) && UpperOf(s', x) == UpperOf(s, x)
    ensures Passed(s, s', t, Some(id), None)
  {
    SameViews(s, s');
    assert UpperCap(s') == UpperCap(s) && forall y: nat :: PlaceOf(s', y) == PlaceOf(s, y);
    hide LevelsOf, OwnerOf, IsFull, IsLive, UpperOf, PlaceOf, UpperCap, PcOf;
  }

  lemma BareHands(s: State, s': State, t: ThreadId)
    requires HandsOk(s, t) && WorkOk(s, t) && PcOf(s, t).Choosing? && !PcOf(s, t).written
    requires var pc := PcOf(s, t); PcOf(s', t) == Choosing(pc.id, pc.seen, pc.at, pc.up, false, false, true)
    requires s'.freeIds == s.freeIds && s'.place == s.place
    ensures HandsOk(s', t) && WorkOk(s', t)
  {
    assert forall y: nat :: Keeps(PcOf(s', t), y) ==> Keeps(PcOf(s, t), y);
    assert forall y: nat :: PlaceOf(s', y) == PlaceOf(s, y);
    assert forall x: Id :: Works(PcOf(s', t), x) ==> Works(PcOf(s, t), x);
  }

  lemma PublishesNamed(s: State, t: ThreadId, list: seq<Id>)
    requires Owned(s) && PcOf(s, t).Choosing? && PcOf(s, t).written && ApplyPublish(s, t, list) != s
    requires Inv(ApplyPublish(s, t, list))
    ensures Owned(ApplyPublish(s, t, list))
  {
    var (pc, s') := (PcOf(s, t), ApplyPublish(s, t, list));
    assert HandsOk(s, t) && WorkOk(s, t) && Works(pc, pc.id);
    var e := pc.up.value;
    assert !pc.bound ==> Keeps(pc, e);
    assert forall x: Id :: Works(PcOf(s', t), x) ==> Works(pc, x);
    StillAlone(s, t, pc);
    SameViews(s, s');
    SameSound(s, s', e);
    assert forall y: nat :: y != e ==> PlaceOf(s', y) == PlaceOf(s, y);
    assert PlaceOf(s', e) == Bound(pc.id) && (PlaceOf(s, e) == Held(t) || PlaceOf(s, e) == Bound(pc.id));
    assert PoolOk(s') by {
      hide Inv, Sound, ChosenFrom, Chain;
    }
    hide LevelsOf, OwnerOf, IsFull, ChosenFrom, Sound;
    assert NamesOwn(s', pc.id) && HandsOk(s', t) && WorkOk(s', t) && !s'.wild && IdsKept(s, s', t, Some(pc.id)) by {
      hide Inv, PoolOk;
    }
    assert Passed(s, s', t, Some(pc.id), Some(e)) && EntryKept(s, s', t, Some(pc.id), e) && BoundOk(s', e) by {
      hide Owned, HandsOk, WorkOk;
    }
    hide Inv, HandsOk, WorkOk, PoolOk, Works, Passed, IdsKept, EntryKept, BoundOk, ApplyPublish;
    OwnedMoved(s, s', t, Some(pc.id), Some(e));
  }

  lemma SnapshotOwned(s: State, t: ThreadId, pruned: seq<Id>)
    requires Owned(s)
    ensures Owned(ApplySnapshot(s, t, pruned))
  {
    SnapshotStep(s, t, pruned);
    var s' := ApplySnapshot(s, t, pruned);
    if s' != s {
      Restful(s, t, PcOf(s', t));
      assert s' == Goto(s, t, PcOf(s', t));
      hide Owned, Inv;
      ThreadMove(s, t, PcOf(s', t));
    }
  }

  // A slot's list is replaced.
  lemma SlotListMove(s: State, s': State, t: ThreadId, pc: Pc)
    requires Owned(s) && Inv(s') && s' == Goto(s, t, pc).(slots := s'.slots)
    requires forall x: Id :: IsLive(s', x) == IsLive(s, x) && UpperOf(s', x) == UpperOf(s, x)
    requires HandsOk(Goto(s, t, pc), t) && WorkOk(Goto(s, t, pc), t)
    requires !pc.Choosing? && (forall x: nat :: !Aims(pc, x)) && forall x: Id :: Works(pc, x) ==> Works(PcOf(s, t), x)
    ensures Owned(s')
  {
    SamePool(s, s');
    SameViews(s, s');
    hide Owned, Inv, HandsOk, WorkOk, Aims, LevelsOf, OwnerOf, IsFull, IsLive, UpperOf, PoolOk;
    ListMove(s, s', t, pc, None);
  }

  lemma SetIfOwned(s: State, t: ThreadId)
    requires Owned(s)
    ensures Owned(ApplySetIf(s, t)) && Owned(ApplyMerge(s, t))
  {
    SetIfStep(s, t);
    MergeStep(s, t);
    var pc := PcOf(s, t);
    if pc.Prepared? {
      var s' := ApplySetIf(s, t);
      Restful(s, t, PcOf(s', t));
      hide Owned, Inv, HandsOk, WorkOk;
      SlotListMove(s, s', t, PcOf(s', t));
    } else if pc.Merging? {
      var s' := ApplyMerge(s, t);
      Restful(s, t, PcOf(s', t));
      hide Owned, Inv, HandsOk, WorkOk, Merged;
      SlotListMove(s, s', t, PcOf(s', t));
    }
  }

  // An entry's list is replaced by the thread that read the entry's index.
  lemma UpperListMove(s: State, t: ThreadId, e: nat, level: nat, list: seq<Id>, pc: Pc)
    requires Owned(s) && HasLevel(s, e, level) && |list| <= UPPER_CAP && (level == 1 ==> Aims(PcOf(s, t), e))
    requires Sound(s, e) ==>
               Well(list, UpperCap(s), s.highWater) && (OwnerOf(s, e).Some? ==> OwnerOf(s, e).value !in list)
    requires Inv(Goto(SetUpper(s, e, level, list), t, pc)) && HandsOk(Goto(s, t, pc), t) && WorkOk(Goto(s, t, pc), t)
    requires !pc.Choosing? && (forall x: nat :: !Aims(pc, x)) && forall x: Id :: Works(pc, x) ==> Works(PcOf(s, t), x)
    ensures Owned(Goto(SetUpper(s, e, level, list), t, pc))
  {
    var mid := SetUpper(s, e, level, list);
    var s' := Goto(mid, t, pc);
    assert EntryOk(s, e);
    ReadsUpper(s, e, level);
    SoundAfterSet(s, s', e, level, list);
    SetUpperPool(s, s', t, e, level, list);
    SetUpperOwner(s, e, level, list);
    SameViews(mid, s');
    assert mid == s.(entries := mid.entries, pool := mid.pool);
    hide SetUpper, Owned, Inv, HandsOk, WorkOk, PoolOk, Sound, EntryOk, LevelsOf, OwnerOf, Aims, Works;
    ListMove(s, s', t, pc, Some(e));
  }

  // The push names the node being inserted, which owns no entry it can have read.
  lemma PushOwned(s: State, t: ThreadId, pruned: seq<Id>)
    requires Owned(s)
    ensures Owned(ApplyPush(s, t, pruned))
  {
    PushStep(s, t, pruned);
    var pc := PcOf(s, t);
    if pc.Pushing? {
      var next := Linking(pc.id, pc.seen);
      Restful(s, t, next);
      assert WorkOk(s, t) && EntryOk(s, pc.e) && ThreadOk(s, t);
      if !HasLevel(s, pc.e, pc.level) {
        hide Owned, Inv, HandsOk, WorkOk;
        ThreadMove(s, t, next);
      } else if PruneFits(UpperList(s, pc.e, pc.level), pc.id, 2 * s.m, pruned) {
        ReadsUpper(s, pc.e, pc.level);
        PushedOk(UpperList(s, pc.e, pc.level), pc.id, 2 * s.m, pruned, s.highWater);
        hide Owned, Inv, HandsOk, WorkOk, Pushed, PruneFits, Well, EntryOk;
        UpperListMove(s, t, pc.e, pc.level, Pushed(UpperList(s, pc.e, pc.level), pc.id, 2 * s.m, pruned), next);
      }
    }
  }

  lemma CutOwned(s: State, t: ThreadId)
    requires Owned(s)
    ensures Owned(Apply(s, Cut(t)))
  {
    CutStep(s, t);
    var pc := PcOf(s, t);
    if pc.Cutting? {
      Restful(s, t, Idle);
      assert EntryOk(s, pc.e);
      if HasLevel(s, pc.e, pc.level) {
        var list := UpperList(s, pc.e, pc.level);
        ReadsUpper(s, pc.e, pc.level);
        WithoutPart(list, pc.to);
        if NoDup(list) {
          WithoutMembers(list, pc.to);
        }
        hide Owned, Inv, HandsOk, WorkOk, Without, EntryOk;
        UpperListMove(s, t, pc.e, pc.level, Without(list, pc.to), Idle);
      } else {
        hide Owned, Inv, HandsOk, WorkOk;
        ThreadMove(s, t, Idle);
      }
    }
  }

  lemma RemoveEdgeOwned(s: State, from: Id, to: Id)
    requires Owned(s)
    ensures Owned(Apply(s, RemoveEdge(from, to)))
  {
    RemoveEdgeStep(s, from, to);
    var s' := Apply(s, RemoveEdge(from, to));
    assert s' == s.(slots := s'.slots);
    assert forall x: Id :: IsLive(s', x) == IsLive(s, x) && UpperOf(s', x) == UpperOf(s, x);
    hide Apply, Inv, Without;
    SlotsAside(s, s');
  }

  // No thread moves, and no slot's standing.
  lemma SlotsAside(s: State, s': State)
    requires Owned(s) && Inv(s') && s' == s.(slots := s'.slots)
    requires forall x: Id :: IsLive(s', x) == IsLive(s, x) && UpperOf(s', x) == UpperOf(s, x)
    ensures Owned(s')
  {
    assert HandsOk(s, 0) && WorkOk(s, 0);
    StillAlone(s, 0, PcOf(s, 0));
    SamePool(s, s');
    SameViews(s, s');
    StandsAside(s, s', 0);
    assert Passed(s, s', 0, None, None) && IdsKept(s, s', 0, None) && !s'.wild by {
      hide Inv, HandsOk, WorkOk, LevelsOf, OwnerOf, IsFull, IsLive, UpperOf;
    }
    hide Inv, HandsOk, WorkOk, PoolOk, Passed, IdsKept;
    OwnedMoved(s, s', 0, None, None);
  }

  lemma StandsAside(s: State, s': State, t: ThreadId)
    requires HandsOk(s, t) && WorkOk(s, t) && s' == s.(slots := s'.slots)
    requires forall x: Id :: IsLive(s', x) ==> IsLive(s, x)
    ensures HandsOk(s', t) && WorkOk(s', t)
  {
    SameViews(s, s');
    assert forall y: nat :: PlaceOf(s', y) == PlaceOf(s, y);
    assert PcOf(s', t).Choosing? && PcOf(s', t).written ==> Sound(s', PcOf(s', t).up.value) by {
      if PcOf(s', t).Choosing? && PcOf(s', t).written {
        SameSound(s, s', PcOf(s', t).up.value);
      }
    }
    hide Sound, LevelsOf, OwnerOf, IsFull;
  }

  lemma DeadTombstone(s: State, t: ThreadId)
    requires Owned(s) && PcOf(s, t).Deleting? && !IsLive(s, PcOf(s, t).id)
    ensures Owned(ApplyTombstone(s, t))
  {
    TombstoneStep(s, t);
    var pc := PcOf(s, t);
    var next := Freeing(None, None, pc.extra);
    assert HandsOk(s, t) && WorkOk(s, t);
    assert forall y: nat :: Keeps(next, y) ==> Keeps(pc, y);
    assert forall x: Id :: !Works(next, x);
    assert HandsOk(Goto(s, t, next), t) && WorkOk(Goto(s, t, next), t);
    hide Owned, Inv, HandsOk, WorkOk;
    ThreadMove(s, t, next);
  }

  lemma OwnedIds(s: State)
    requires Owned(s)
    ensures IdsOk(s)
  {
  }

  lemma TombstoneHands(s: State, t: ThreadId)
    requires Owned(s) && SparesInserts(s, Tombstone(t)) && PcOf(s, t).Deleting? && IsLive(s, PcOf(s, t).id)
    ensures HandsOk(ApplyTombstone(s, t), t) && WorkOk(ApplyTombstone(s, t), t)
  {
    var pc := PcOf(s, t);
    var s' := ApplyTombstone(s, t);
    assert HandsOk(s, t) && WorkOk(s, t) && NamesOwn(s, pc.id);
    OnlyDeleter(s, t);
    TombstoneShape(s, t);
    hide Owned, Inv, Sound, PoolOk, ApplyTombstone;
    assert pc.extra.Some? ==> Keeps(pc, pc.extra.value);
    assert HandsOk(s', t) by {
      hide WorkOk;
    }
    hide HandsOk;
    assert WorkOk(s', t);
  }

  // A tombstone gives the slot's entry and id to its thread: nobody else works on the id.
  lemma TombstoneOwned(s: State, t: ThreadId)
    requires Owned(s) && SparesInserts(s, Tombstone(t))
    ensures Owned(ApplyTombstone(s, t))
  {
    if PcOf(s, t).Deleting? {
      if !IsLive(s, PcOf(s, t).id) {
        DeadTombstone(s, t);
      } else {
        TombstoneStep(s, t);
        hide Inv;
        LiveTombstone(s, t);
      }
    }
  }

  // What a landing tombstone changes: the slot, its entry's place, and its thread.
  lemma TombstoneShape(s: State, t: ThreadId)
    requires Owned(s) && PcOf(s, t).Deleting? && IsLive(s, PcOf(s, t).id)
    ensures var (id, s') := (PcOf(s, t).id, ApplyTombstone(s, t));
            var up := UpperOf(s, id);
            && s' == s.(slots := s.slots[id := Slot(false, ListOf(s, id), None)], place := s'.place,
              threads := s'.threads)
            && (forall u: ThreadId :: u != t ==> PcOf(s', u) == PcOf(s, u)) && PoolOk(s')
            && (forall y: nat :: Some(y) != up ==> PlaceOf(s', y) == PlaceOf(s, y))
            && (up.Some? ==> PlaceOf(s', up.value) == Held(t) && PlaceOf(s, up.value) == Bound(id))
            && PcOf(s', t) == if up.Some? then Emptying(id, up.value, PcOf(s, t).extra)
              else Freeing(Some(id), None, PcOf(s, t).extra)
  {
    var (id, s') := (PcOf(s, t).id, ApplyTombstone(s, t));
    var up := UpperOf(s, id);
    assert NamesOwn(s, id);
    assert PoolOk(s);
    hide Owned, Chain, Inv;
    assert forall y: nat :: Some(y) != up ==> PlaceOf(s', y) == PlaceOf(s, y);
  }

  lemma LiveTombstone(s: State, t: ThreadId)
    requires Owned(s) && SparesInserts(s, Tombstone(t)) && PcOf(s, t).Deleting? && IsLive(s, PcOf(s, t).id)
    requires Inv(ApplyTombstone(s, t))
    ensures Owned(ApplyTombstone(s, t))
  {
    var (pc, s') := (PcOf(s, t), ApplyTombstone(s, t));
    var up := UpperOf(s, pc.id);
    TombstoneHands(s, t);
    OnlyDeleter(s, t);
    TombstoneShape(s, t);
    OwnedIds(s);
    assert forall x: Id :: Works(PcOf(s', t), x) ==> x == pc.id;
    assert NamesOwn(s', pc.id) && !IsLive(s', pc.id);
    hide Owned, Inv, PoolOk, HandsOk, WorkOk, Sound, ApplyTombstone, Works;
    TombstoneMoved(s, s', t, pc.id, up);
  }

  lemma TombstoneMoved(s: State, s': State, t: ThreadId, id: Id, up: Option<nat>)
    requires Owned(s) && Inv(s') && PoolOk(s') && HandsOk(s', t) && WorkOk(s', t) && NamesOwn(s', id) && IdsOk(s)
    requires s' ==
             s.(slots := s.slots[id := Slot(false, ListOf(s, id), None)], place := s'.place, threads := s'.threads)
    requires !IsLive(s', id) && forall u: ThreadId :: u != t ==> PcOf(s', u) == PcOf(s, u) && !Works(PcOf(s, u), id)
    requires forall y: nat :: Some(y) != up ==> PlaceOf(s', y) == PlaceOf(s, y)
    requires up.Some? ==> PlaceOf(s', up.value) == Held(t) && PlaceOf(s, up.value) == Bound(id)
    requires forall x: Id :: Works(PcOf(s', t), x) ==> x == id
    ensures Owned(s')
  {
    hide Owned, Inv, PoolOk, HandsOk, WorkOk, Sound, NamesOwn;
    SameViews(s, s');
    assert forall x: Id :: x != id ==> IsLive(s', x) == IsLive(s, x) && UpperOf(s', x) == UpperOf(s, x);
    hide LevelsOf, OwnerOf, IsFull, IsLive, UpperOf;
    assert Passed(s, s', t, Some(id), up);
    assert IdsKept(s, s', t, Some(id)) by {
      hide Passed;
    }
    if up.Some? {
      assert EntryKept(s, s', t, Some(id), up.value) && BoundOk(s', up.value) by {
        hide Passed, IdsKept;
      }
    }
    hide Passed, IdsKept, EntryKept, BoundOk, Works;
    OwnedMoved(s, s', t, Some(id), up);
  }

  lemma OnlyDeleter(s: State, t: ThreadId)
    requires Owned(s) && SparesInserts(s, Tombstone(t)) && PcOf(s, t).Deleting? && IsLive(s, PcOf(s, t).id)
    ensures PcOf(s, t).id !in s.freeIds
    ensures forall u: ThreadId :: u != t ==> !Works(PcOf(s, u), PcOf(s, t).id)
  {
    forall u: ThreadId | u != t ensures !Works(PcOf(s, u), PcOf(s, t).id) {
      assert WorkOk(s, u);
    }
  }

  // An entry loses its levels.
  lemma ClearViews(s: State, e: nat)
    ensures var s' := ClearUpper(s, e);
            && s' == s.(entries := s'.entries) && !IsFull(s', e) && LevelsOf(s', e) == []
            && (forall y: nat :: OwnerOf(s', y) == OwnerOf(s, y))
            && forall y: nat :: y != e ==> LevelsOf(s', y) == LevelsOf(s, y) && IsFull(s', y) == IsFull(s, y)
  {
  }

  lemma EmptyOwned(s: State, t: ThreadId, ok: bool)
    requires Owned(s)
    ensures Owned(Apply(s, Empty(t, ok)))
  {
    EmptyStep(s, t, ok);
    var pc := PcOf(s, t);
    if pc.Emptying? {
      var next := if ok then Freeing(Some(pc.id), Some(pc.e), pc.extra) else Freeing(None, None, pc.extra);
      EmptiedHands(s, t, next);
      assert Apply(s, Empty(t, ok)) == Goto(if ok then ClearUpper(s, pc.e) else s, t, next);
      hide Owned, Inv, HandsOk, WorkOk, Apply;
      if ok {
        ClearMove(s, t, pc.e, next);
      } else {
        ThreadMove(s, t, next);
      }
    }
  }

  lemma ClearMove(s: State, t: ThreadId, e: nat, pc: Pc)
    requires Owned(s) && Inv(Goto(ClearUpper(s, e), t, pc)) && HandsOk(Goto(s, t, pc), t) && WorkOk(Goto(s, t, pc), t)
    requires !pc.Choosing? && (forall x: nat :: !Aims(pc, x)) && forall x: Id :: Works(pc, x) ==> Works(PcOf(s, t), x)
    ensures Owned(Goto(ClearUpper(s, e), t, pc))
  {
    var s' := Goto(ClearUpper(s, e), t, pc);
    ClearViews(s, e);
    SameViews(ClearUpper(s, e), s');
    SamePool(s, s');
    assert Sound(s', e);
    hide ClearUpper, Owned, Inv, HandsOk, WorkOk, PoolOk, Sound, LevelsOf, OwnerOf, Aims, Works;
    ListMove(s, s', t, pc, Some(e));
  }

  lemma EmptiedHands(s: State, t: ThreadId, next: Pc)
    requires Owned(s) && PcOf(s, t).Emptying?
    requires var pc := PcOf(s, t);
             next == Freeing(Some(pc.id), Some(pc.e), pc.extra) || next == Freeing(None, None, pc.extra)
    ensures HandsOk(Goto(s, t, next), t) && WorkOk(Goto(s, t, next), t)
    ensures forall x: Id :: Works(next, x) ==> Works(PcOf(s, t), x)
  {
    var pc := PcOf(s, t);
    assert HandsOk(s, t) && WorkOk(s, t);
    hide Owned, Inv;
    assert forall y: nat :: Keeps(next, y) ==> Keeps(pc, y);
    assert forall x: Id :: Reclaims(next, x) ==> Reclaims(pc, x);
  }

  // One entry goes back to the freelist: without levels, or with nobody aiming at it.
  lemma FreeEntryOwned(s: State, t: ThreadId, e: nat, next: Pc)
    requires Owned(s) && PcOf(s, t).Freeing? && Keeps(PcOf(s, t), e) && Inv(Goto(FreeEntry(s, e), t, next))
    requires next.Freeing? && next.back == PcOf(s, t).back && next.first.None?
    requires forall y: nat :: Keeps(next, y) ==> Keeps(PcOf(s, t), y) && y != e
    requires IsFull(s, e) ==> forall u: ThreadId :: !Aims(PcOf(s, u), e)
    ensures Owned(Goto(FreeEntry(s, e), t, next))
  {
    var s' := Goto(FreeEntry(s, e), t, next);
    assert HandsOk(s, t) && WorkOk(s, t);
    assert forall x: Id :: Reclaims(next, x) ==> Reclaims(PcOf(s, t), x);
    assert forall x: Id :: Works(next, x) ==> Works(PcOf(s, t), x);
    StillAlone(s, t, next);
    FreePool(s, s', t, e);
    FreeViews(s, s', e);
    OwnedIds(s);
    hide Owned, Inv, PoolOk, Sound, LevelsOf, OwnerOf, IsFull;
    assert HandsOk(s', t) && WorkOk(s', t);
    hide HandsOk, WorkOk, Works, Keeps;
    FreedMoved(s, s', t, e);
  }

  lemma FreedMoved(s: State, s': State, t: ThreadId, e: nat)
    requires Owned(s) && Inv(s') && PoolOk(s') && HandsOk(s', t) && WorkOk(s', t) && IdsOk(s) && s'.freeIds == s.freeIds
    requires s'.slots == s.slots && s'.m == s.m && s'.highWater == s.highWater && s'.wild == s.wild
    requires PlaceOf(s, e) == Held(t) && PlaceOf(s', e).Free?
    requires IsFull(s, e) ==> forall u: ThreadId :: !Aims(PcOf(s, u), e)
    requires forall y: nat :: OwnerOf(s', y) == OwnerOf(s, y) && IsFull(s', y) == IsFull(s, y)
    requires forall y: nat :: y != e ==> LevelsOf(s', y) == LevelsOf(s, y) && PlaceOf(s', y) == PlaceOf(s, y)
    requires forall u: ThreadId :: u != t ==> PcOf(s', u) == PcOf(s, u)
    requires forall u: ThreadId, x: Id :: u != t && Works(PcOf(s', t), x) ==> !Works(PcOf(s, u), x)
    ensures Owned(s')
  {
    hide Owned, Inv, PoolOk, HandsOk, WorkOk, Sound, LevelsOf, OwnerOf, IsFull, Works, Aims;
    assert Passed(s, s', t, None, Some(e));
    assert IdsKept(s, s', t, None) && EntryKept(s, s', t, None, e) && BoundOk(s', e);
    hide Passed, IdsKept, EntryKept, BoundOk;
    OwnedMoved(s, s', t, None, Some(e));
  }

  lemma FreePool(s: State, s': State, t: ThreadId, e: nat)
    requires PoolOk(s) && PlaceOf(s, e) == Held(t)
    requires s'.pool == UpperPool.Push(s.pool, e) && s'.stack == [e] + s.stack && s'.place == s.place[e := Free]
    ensures PoolOk(s')
  {
    PushPuts(s.pool, s.stack, e);
    assert forall y: nat :: y in s'.stack <==> y == e || y in s.stack;
    hide Chain, NoDup;
    assert forall y: nat :: y != e ==> PlaceOf(s', y) == PlaceOf(s, y);
    assert PlaceOf(s', e) == Free;
  }

  // Only the freed entry's word changed.
  lemma FreeViews(s: State, s': State, e: nat)
    requires s'.entries == s.entries && s'.pool == UpperPool.Push(s.pool, e) && s'.place == s.place[e := Free]
    ensures forall y: nat :: OwnerOf(s', y) == OwnerOf(s, y) && IsFull(s', y) == IsFull(s, y)
    ensures forall y: nat :: y != e ==> LevelsOf(s', y) == LevelsOf(s, y) && PlaceOf(s', y) == PlaceOf(s, y)
    ensures PlaceOf(s', e) == Free
  {
  }

  // The id goes back: it is dead, and nobody else works on it.
  lemma FreeIdOwned(s: State, t: ThreadId, id: Id, next: Pc)
    requires Owned(s) && PcOf(s, t).Freeing? && PcOf(s, t).first.None? && PcOf(s, t).back == Some(id)
    requires next == Freeing(None, None, PcOf(s, t).second) && Inv(Goto(s.(freeIds := s.freeIds + {id}), t, next))
    ensures id !in s.freeIds && Owned(Goto(s.(freeIds := s.freeIds + {id}), t, next))
  {
    var s' := Goto(s.(freeIds := s.freeIds + {id}), t, next);
    assert HandsOk(s, t) && WorkOk(s, t) && Alone(s, t) && Reclaims(PcOf(s, t), id) && Works(PcOf(s, t), id);
    assert forall y: nat :: Keeps(next, y) ==> Keeps(PcOf(s, t), y);
    assert forall x: Id :: !Works(next, x);
    assert HandsOk(s', t) && WorkOk(s', t);
    assert IdsKept(s, s', t, None) && !s'.wild;
    SamePool(s, s');
    PassedSame(s, s', t);
    hide Inv, HandsOk, WorkOk, Keeps, PoolOk, Passed, IdsKept;
    OwnedMoved(s, s', t, None, None);
  }

  lemma FreeOwned(s: State, t: ThreadId)
    requires Owned(s) && FreesQuiet(s, FreeNext(t))
    ensures Owned(ApplyFreeNext(s, t))
  {
    FreeStep(s, t);
    var pc := PcOf(s, t);
    assert HandsOk(s, t) && WorkOk(s, t);
    assert pc.Freeing? && pc.back.Some? ==> Reclaims(pc, pc.back.value) && Works(pc, pc.back.value) && !s.wild;
    assert pc.Freeing? && pc.back.Some? ==> pc.back.value !in s.freeIds;
    hide Owned, Inv, Aims;
    if pc.Freeing? {
      if pc.first.Some? {
        FreeEntryOwned(s, t, pc.first.value, Freeing(pc.back, None, pc.second));
      } else if pc.back.Some? {
        assert ApplyFreeNext(s, t) ==
               Goto(s.(freeIds := s.freeIds + {pc.back.value}), t, Freeing(None, None, pc.second));
        FreeIdOwned(s, t, pc.back.value, Freeing(None, None, pc.second));
      } else if pc.second.Some? {
        FreeEntryOwned(s, t, pc.second.value, Freeing(None, None, None));
      } else {
        Restful(s, t, Idle);
        ThreadMove(s, t, Idle);
      }
    }
  }

  lemma WreckSlotOwned(s: State, id: Id)
    requires Owned(s)
    ensures Owned(Apply(s, WreckSlot(id)))
  {
    WreckSlotStep(s, id);
    var s' := Apply(s, WreckSlot(id));
    if id in s.slots {
      assert s' == s.(slots := s.slots[id := Slot(false, ListOf(s, id), None)]);
      hide Apply, Inv;
      SlotDies(s, s', id);
    }
  }

  lemma SlotDies(s: State, s': State, id: Id)
    requires Owned(s) && Inv(s') && id in s.slots && s' == s.(slots := s.slots[id := Slot(false, ListOf(s, id), None)])
    ensures Owned(s')
  {
    assert HandsOk(s, 0) && WorkOk(s, 0);
    StillAlone(s, 0, PcOf(s, 0));
    SamePool(s, s');
    SameViews(s, s');
    StandsAside(s, s', 0);
    assert NamesOwn(s', id);
    SlotDied(s, s', id);
  }

  // A wrecked slot is dead whoever works on its id.
  lemma SlotDied(s: State, s': State, id: Id)
    requires Owned(s) && Inv(s') && PoolOk(s') && HandsOk(s', 0) && WorkOk(s', 0) && NamesOwn(s', id)
    requires s' == s.(slots := s'.slots) && !IsLive(s', id)
    requires forall x: Id :: x != id ==> IsLive(s', x) == IsLive(s, x) && UpperOf(s', x) == UpperOf(s, x)
    ensures Owned(s')
  {
    assert Alone(s, 0) && !s.wild;
    assert IdsKept(s, s', 0, Some(id)) by {
      hide Owned, Inv, PoolOk, HandsOk, WorkOk, NamesOwn;
    }
    assert forall u: ThreadId :: PcOf(s', u) == PcOf(s, u);
    hide *;
    PassedSlot(s, s', 0, id);
    OwnedMoved(s, s', 0, Some(id), None);
  }

  lemma WreckEntryOwned(s: State, e: nat)
    requires Owned(s)
    ensures Owned(ClearUpper(s, e))
  {
    WreckEntryStep(s, e);
    var s' := ClearUpper(s, e);
    assert HandsOk(s, 0) && WorkOk(s, 0) && BoundOk(s, e);
    StillAlone(s, 0, PcOf(s, 0));
    ClearViews(s, e);
    SamePool(s, s');
    assert Sound(s', e);
    assert forall y: nat :: PlaceOf(s', y) == PlaceOf(s, y);
    hide ClearUpper;
    ClearStands(s, s', e, 0);
    assert Passed(s, s', 0, None, Some(e)) && IdsKept(s, s', 0, None) && !s'.wild by {
      hide Inv, HandsOk, WorkOk, LevelsOf, OwnerOf, IsFull;
    }
    assert EntryKept(s, s', 0, None, e) && BoundOk(s', e) by {
      hide Inv, HandsOk, WorkOk, Sound;
    }
    hide Inv, HandsOk, WorkOk, PoolOk, Passed, IdsKept, EntryKept, BoundOk;
    OwnedMoved(s, s', 0, None, Some(e));
  }

  lemma ClearStands(s: State, s': State, e: nat, t: ThreadId)
    requires HandsOk(s, t) && WorkOk(s, t) && s' == s.(entries := s'.entries) && Sound(s', e) && !IsFull(s', e)
    requires forall y: nat :: OwnerOf(s', y) == OwnerOf(s, y)
    requires forall y: nat :: y != e ==> LevelsOf(s', y) == LevelsOf(s, y) && IsFull(s', y) == IsFull(s, y)
    ensures HandsOk(s', t) && WorkOk(s', t)
  {
    assert forall y: nat :: PlaceOf(s', y) == PlaceOf(s, y);
    assert forall x: Id :: IsLive(s', x) == IsLive(s, x);
    if PcOf(s, t).Choosing? && PcOf(s, t).written && PcOf(s, t).up != Some(e) {
      SameSound(s, s', PcOf(s, t).up.value);
    }
    hide Sound, LevelsOf, OwnerOf, IsFull;
  }

  lemma OwnedStep(s: State, step: Step)
    requires Owned(s) && Careful(s, step)
    ensures Owned(Apply(s, step))
  {
    hide Owned, SparesInserts, FreesQuiet, ApplyAllocate, ApplyTake, ApplySnapshot, ApplySetIf, ApplyMerge, ApplyPush,
      ApplyPublish, ApplyWriteEntry, ApplyTombstone, ApplyFreeNext, LookPc, NextPc, SetUpper, ClearUpper, SetPlace,
      Lists.SetList;
    if Looks(step) {
      LooksOwned(s, step);
    } else if GoesOn(step) {
      GoesOnOwned(s, step);
    } else {
      match step {
        case AllocateId(t, id) => AllocateOwned(s, t, id);
        case TakeEntry(t) => TakeOwned(s, t);
        case FreeNext(t) => FreeOwned(s, t);
        case WriteEntry(t, lists) => WriteOwned(s, t, lists);
        case Publish(t, list) => PublishOwned(s, t, list);
        case Snapshot(t, pruned) => SnapshotOwned(s, t, pruned);
        case SetIf(t) => SetIfOwned(s, t);
        case Merge(t) => SetIfOwned(s, t);
        case Push(t, pruned) => PushOwned(s, t, pruned);
        case RemoveEdge(from, to) => RemoveEdgeOwned(s, from, to);
        case Cut(t) => CutOwned(s, t);
        case Tombstone(t) => TombstoneOwned(s, t);
        case Empty(t, ok) => EmptyOwned(s, t, ok);
        case WreckSlot(id) => WreckSlotOwned(s, id);
        case WreckEntry(e) => WreckEntryOwned(s, e);
      }
    }
  }

  lemma {:induction false} OwnedRun(s: State, steps: seq<Step>)
    requires Owned(s) && CarefulRun(s, steps)
    ensures Owned(Run(s, steps))
    decreases |steps|
  {
    if steps != [] {
      OwnedStep(s, steps[0]);
      OwnedRun(Apply(s, steps[0]), steps[1..]);
    }
  }

  lemma InitOwned(cap: nat, m: nat, entries: nat)
    requires cap >= 1 && entries <= NO_UPPER
    ensures Owned(Init(cap, m, entries))
  {
    InitInv(cap, m, entries);
  }

  // In every careful run a live node's lists are its own at every level: the entry its slot names was written for it
  // and is no other live node's, and no list, layer 0 or upper, names its node, repeats an id, passes its cap or names
  // an id never allocated.
  lemma NodeListsOk(cap: nat, m: nat, entries: nat, steps: seq<Step>, id: Id)
    requires cap >= 1 && entries <= NO_UPPER && CarefulRun(Init(cap, m, entries), steps)
    requires IsLive(Run(Init(cap, m, entries), steps), id)
    ensures var s := Run(Init(cap, m, entries), steps);
            && ListOk(id, ListOf(s, id), cap, s.highWater)
            && (UpperOf(s, id).Some? ==>
                  var e := UpperOf(s, id).value;
                  && OwnerOf(s, e) == Some(id) && (forall x: Id :: UpperOf(s, x) == Some(e) ==> x == id)
                  && forall level: nat ::
                    HasLevel(s, e, level) ==> ListOk(id, UpperList(s, e, level), Min(2 * m, UPPER_CAP), s.highWater))
  {
    ListsWellFormed(cap, m, entries, steps);
    InitOwned(cap, m, entries);
    OwnedRun(Init(cap, m, entries), steps);
    SizesRun(Init(cap, m, entries), steps);
    var s := Run(Init(cap, m, entries), steps);
    hide Run, Init, Inv;
    assert NamesOwn(s, id);
    if UpperOf(s, id).Some? {
      var e := UpperOf(s, id).value;
      assert BoundOk(s, e);
      forall x: Id | UpperOf(s, x) == Some(e) ensures x == id {
        assert NamesOwn(s, x);
      }
    }
  }
}
