/** Both provisos on upper entries are exact, and runs show that each can fail: a delete that lands on an insert under
    way, and an update that stores a degree over a free entry's link. */
module UpperRuns {
  import opened Core
  import opened UpperPool
  import opened Uppers

  // ---- A tombstone that spares inserts ----

  // The rest of a delete by `t` and of an insert by `u`, one after the other.
  function Ending(t: ThreadId, u: ThreadId): seq<Step> {
    [EmptyUpper(t, true), FreeOne(t), JoinUpper(u, Skip), FinalWrite(u, true)]
  }

  // A slot names an entry that anybody may be given.
  predicate FreeYetNamed(s: State, id: nat, e: nat) {
    Names(s, id, e) && e in s.stack
  }

  lemma RunFirst(s: State, step: Step, rest: seq<Step>)
    ensures Run(s, [step] + rest) == Run(Apply(s, step), rest)
    ensures Careful(s, step) && CarefulRun(Apply(s, step), rest) ==> CarefulRun(s, [step] + rest)
  {
    assert ([step] + rest)[1..] == rest;
    hide Apply, Careful;
  }

  lemma RunFour(s: State, a: Step, b: Step, c: Step, d: Step)
    ensures Run(s, [a, b, c, d]) == Apply(Apply(Apply(Apply(s, a), b), c), d)
  {
    assert [a, b, c, d] == [a] + [b, c, d] && [b, c, d] == [b] + [c, d] && [c, d] == [c] + [d] && [d] == [d] + [];
    var s1 := Apply(s, a);
    var s2 := Apply(s1, b);
    var s3 := Apply(s2, c);
    hide Apply, Careful;
    RunFirst(s, a, [b, c, d]);
    RunFirst(s1, b, [c, d]);
    RunFirst(s2, c, [d]);
    RunFirst(s3, d, []);
  }

  // A tombstone takes what another insert refers to just when some insert's last write will then name a freed entry.
  lemma SparingIsExact(s: State, t: ThreadId)
    requires Inv(s) && GivesUp(s, t)
    ensures SparesInserts(s, Tombstone(t)) <==> forall u: ThreadId ::
            u != t ==>
              !FreeYetNamed(Run(Apply(s, Tombstone(t)), Ending(t, u)), PcOf(s, t).id, GivenUp(s, t))
  {
    forall u: ThreadId | u != t && SparesInserts(s, Tombstone(t))
      ensures !FreeYetNamed(Run(Apply(s, Tombstone(t)), Ending(t, u)), PcOf(s, t).id, GivenUp(s, t)) {
      InvStep(s, Tombstone(t));
      SpareEnding(Apply(s, Tombstone(t)), t, u, PcOf(s, t).id, GivenUp(s, t), PcOf(s, t).extra);
      NotFree(Run(Apply(s, Tombstone(t)), Ending(t, u)), PcOf(s, t).id, GivenUp(s, t));
    }
    if !SparesInserts(s, Tombstone(t)) {
      var u: ThreadId :| u != t && Refers(PcOf(s, u), GivenUp(s, t));
      HitsInsert(s, t, u);
    }
  }

  lemma SpareEnding(s: State, t: ThreadId, u: ThreadId, id: nat, e: nat, extra: Option<nat>)
    requires Inv(s) && PcOf(s, t) == Emptying(id, e, extra)
    ensures Inv(Run(s, Ending(t, u)))
  {
    var (a, b, c, d) := (EmptyUpper(t, true), FreeOne(t), JoinUpper(u, Skip), FinalWrite(u, true));
    RunFour(s, a, b, c, d);
    var s1 := Apply(s, a);
    assert Careful(s, a) && Careful(s1, b) by {
      hide Inv;
    }
    hide Inv, Apply, GivesUp, Frees;
    InvStep(s, a);
    InvStep(s1, b);
    InvStep(Apply(s1, b), c);
    InvStep(Apply(Apply(s1, b), c), d);
  }

  lemma NotFree(s: State, id: nat, e: nat)
    requires Inv(s)
    ensures !FreeYetNamed(s, id, e)
  {
    assert SlotOk(s, id);
  }

  // The entry goes to the freelist, and the insert stores it again.
  lemma HitsInsert(s: State, t: ThreadId, u: ThreadId)
    requires Inv(s) && GivesUp(s, t) && u != t && Refers(PcOf(s, u), GivenUp(s, t))
    ensures FreeYetNamed(Run(Apply(s, Tombstone(t)), Ending(t, u)), PcOf(s, t).id, GivenUp(s, t))
  {
    var (id, e) := (PcOf(s, t).id, GivenUp(s, t));
    assert ThreadOk(s, t) && ThreadOk(s, u) && SlotOk(s, id) && Names(s, id, e);
    assert PcOf(s, u).id == id && (PcOf(s, u).Published? || PcOf(s, u).Ready?);
    assert PcOf(s, u).Ready? ==> PcOf(s, u).up == Some(e);
    hide Inv, Run, PoolOk, ThreadOk, SlotOk;
    var s0 := Apply(s, Tombstone(t));
    assert PcOf(s0, t) == Emptying(id, e, PcOf(s, t).extra) && PcOf(s0, u) == PcOf(s, u)
           && !s0.slots[id].torn && id < |s0.slots|;
    FreesEntry(s0, t, u, e);
    var s2 := Apply(Apply(s0, EmptyUpper(t, true)), FreeOne(t));
    StoresAgain(s2, u, id, e);
    RunFour(s0, EmptyUpper(t, true), FreeOne(t), JoinUpper(u, Skip), FinalWrite(u, true));
  }

  lemma FreesEntry(s: State, t: ThreadId, u: ThreadId, e: nat)
    requires PcOf(s, t).Emptying? && PcOf(s, t).gone == e && u != t
    ensures var s' := Apply(Apply(s, EmptyUpper(t, true)), FreeOne(t));
            s'.slots == s.slots && PcOf(s', u) == PcOf(s, u) && e in s'.stack
  {
    var mid := Apply(s, EmptyUpper(t, true));
    assert PcOf(mid, t).Freeing? && PcOf(mid, t).first == Some(e) && PcOf(mid, u) == PcOf(s, u)
           && mid.slots == s.slots;
    assert ([e] + mid.stack)[0] == e;
  }

  lemma StoresAgain(s: State, u: ThreadId, id: nat, e: nat)
    requires PcOf(s, u) == Published(id, Some(e))
             || (PcOf(s, u).Ready? && PcOf(s, u).id == id && PcOf(s, u).up == Some(e))
    requires id < |s.slots| && !s.slots[id].torn && e in s.stack
    ensures FreeYetNamed(Apply(Apply(s, JoinUpper(u, Skip)), FinalWrite(u, true)), id, e)
  {
    var mid := Apply(s, JoinUpper(u, Skip));
    assert PcOf(mid, u).Ready? && PcOf(mid, u).id == id && PcOf(mid, u).up == Some(e) && mid.slots == s.slots
           && mid.stack == s.stack;
  }

  // ---- A step that frees quietly ----

  function LinkOf(s: State, e: nat): nat {
    if e < |s.pool.words| then s.pool.words[e] else 0
  }

  // The step may free the entry just when no update still under way can then change the link it leaves there.
  lemma FreesQuietIsExact(s: State, step: Step)
    requires Inv(s) && Frees(s, step).Some?
    ensures var (s1, e) := (Apply(s, step), Frees(s, step).value);
            && s1.pool.head == e && LinkOf(s1, e) == s.pool.head
            && (FreesQuiet(s, step) <==>
                  forall u: ThreadId, degree: nat :: LinkOf(Apply(s1, Update(u, degree)), e) == LinkOf(s1, e))
  {
    var e := Frees(s, step).value;
    var s1 := Apply(s, step);
    FreedEntry(s, step);
    hide Inv, Apply;
    if FreesQuiet(s, step) {
      forall u: ThreadId, degree: nat ensures LinkOf(Apply(s1, Update(u, degree)), e) == LinkOf(s1, e) {
        LinkStays(s1, u, degree, e);
      }
    } else {
      var u: ThreadId :| PcOf(s, u) == Pushing(e);
      var degree := LinkGoes(s1, u, e);
      assert LinkOf(Apply(s1, Update(u, degree)), e) != LinkOf(s1, e);
    }
  }

  lemma FreedEntry(s: State, step: Step)
    requires Inv(s) && Frees(s, step).Some?
    ensures var (s1, e) := (Apply(s, step), Frees(s, step).value);
            && e < |s1.pool.words| && s1.pool.head == e && s1.pool.words[e] == s.pool.head && s1.full == s.full
            && forall u: ThreadId :: PcOf(s1, u) == Pushing(e) <==> PcOf(s, u) == Pushing(e)
  {
    var e := Frees(s, step).value;
    assert ThreadOk(s, step.t) && Holds(PcOf(s, step.t), e);
  }

  lemma LinkStays(s: State, u: ThreadId, degree: nat, e: nat)
    requires e < |s.pool.words| && (!IsFull(s, e) || PcOf(s, u) != Pushing(e))
    ensures LinkOf(Apply(s, Update(u, degree)), e) == LinkOf(s, e)
  {
  }

  lemma LinkGoes(s: State, u: ThreadId, e: nat) returns (degree: nat)
    requires e < |s.pool.words| && IsFull(s, e) && PcOf(s, u) == Pushing(e)
    ensures LinkOf(Apply(s, Update(u, degree)), e) != LinkOf(s, e)
  {
    degree := SomeDegreeShows(s.pool.words[e]);
  }

  // ---- Runs that break what the provisos keep ----

  ghost predicate Reachable(ids: nat, entries: nat, s: State) {
    exists steps :: CarefulRun(Init(Standalone, ids, entries), steps) && Run(Init(Standalone, ids, entries), steps) == s
  }

  lemma {:induction false} RunSnoc(s: State, steps: seq<Step>, step: Step)
    requires CarefulRun(s, steps) && Careful(Run(s, steps), step)
    ensures CarefulRun(s, steps + [step]) && Run(s, steps + [step]) == Apply(Run(s, steps), step)
    decreases |steps|
  {
    hide Apply, Careful;
    if steps == [] {
      assert [] + [step] == [step] && [step][1..] == [];
    } else {
      assert (steps + [step])[1..] == steps[1..] + [step];
      RunSnoc(Apply(s, steps[0]), steps[1..], step);
    }
  }

  lemma Next(ids: nat, entries: nat, s: State, step: Step)
    requires Reachable(ids, entries, s) && Careful(s, step)
    ensures Reachable(ids, entries, Apply(s, step))
  {
    hide Apply, Careful, Init;
    var init := Init(Standalone, ids, entries);
    var steps :| CarefulRun(init, steps) && Run(init, steps) == s;
    RunSnoc(init, steps, step);
  }

  lemma InitReachable(ids: nat, entries: nat)
    ensures Reachable(ids, entries, Init(Standalone, ids, entries))
  {
    var init := Init(Standalone, ids, entries);
    assert CarefulRun(init, []) && Run(init, []) == init;
  }

  // A step that frees and tombstones nothing.
  lemma Plain(ids: nat, entries: nat, s: State, step: Step) returns (s': State)
    requires Reachable(ids, entries, s) && !step.Tombstone? && !step.FreeOne?
    ensures Reachable(ids, entries, s') && s' == Apply(s, step)
  {
    Next(ids, entries, s, step);
    s' := Apply(s, step);
  }

  predicate Sized(s: State) {
    |s.places| == |s.full| == |s.pool.words|
  }

  lemma GetsId(s: State, t: ThreadId, id: nat)
    requires s.mode.Standalone? && PcOf(s, t).Idle? && id < |s.slots| && (id in s.freeIds || id == s.nextId)
    ensures Apply(s, AllocateId(t, id)) ==
            Goto(s.(freeIds := s.freeIds - {id}, nextId := if id == s.nextId then s.nextId + 1 else s.nextId), t,
              HasId(id))
  {
  }

  lemma GetsEntry(s: State, t: ThreadId, id: nat, e: nat)
    requires PcOf(s, t) == HasId(id) && Sized(s) && e < |s.places| && Pop(s.pool).1 == Some(e)
    ensures |Pop(s.pool).0.words| == |s.pool.words|
    ensures Apply(s, EdgelessUpper(t, Grant(0))) ==
            s.(pool := Store(Pop(s.pool).0, e, 0), stack := Rest(s.stack), places := s.places[e := HeldBy(t)],
               full := s.full[e := true], threads := s.threads[t := Edgeless(id, Some(e))])
  {
  }

  lemma GoesOut(s: State, t: ThreadId, id: nat, e: nat)
    requires PcOf(s, t) == Edgeless(id, Some(e)) && id < |s.slots| && !s.slots[id].torn && id !in s.freeIds
    requires e < |s.places|
    ensures Apply(s, PublishEdgeless(t, true)) ==
            s.(slots := s.slots[id := Slot(Valid, Some(e), false)], places := s.places[e := Bound(id)],
               threads := s.threads[t := Published(id, Some(e))])
  {
  }

  lemma Rests(s: State, t: ThreadId)
    requires PcOf(s, t).Published?
    ensures Apply(s, ClaimWon(t)) == Goto(s, t, Idle)
  {
  }

  // A whole insert that stands alone: it takes an entry and publishes, edgeless.
  function InsertWhole(s: State, t: ThreadId, id: nat): State {
    Apply(Apply(Apply(Apply(s, AllocateId(t, id)), EdgelessUpper(t, Grant(0))), PublishEdgeless(t, true)), ClaimWon(t))
  }

  lemma Inserts(s: State, t: ThreadId, id: nat, e: nat)
    requires s.mode.Standalone? && PcOf(s, t).Idle? && id < |s.slots| && (id in s.freeIds || id == s.nextId)
    requires Sized(s) && e < |s.places| && Pop(s.pool).1 == Some(e) && !s.slots[id].torn
    ensures InsertWhole(s, t, id) ==
            s.(slots := s.slots[id := Slot(Valid, Some(e), false)], pool := Store(Pop(s.pool).0, e, 0),
               stack := Rest(s.stack), places := s.places[e := Bound(id)], full := s.full[e := true],
               freeIds := s.freeIds - {id}, nextId := if id == s.nextId then s.nextId + 1 else s.nextId,
               threads := s.threads[t := Idle])
  {
    hide Apply, Pop, Store;
    GetsId(s, t, id);
    var s1 := Apply(s, AllocateId(t, id));
    GetsEntry(s1, t, id, e);
    var s2 := Apply(s1, EdgelessUpper(t, Grant(0)));
    GoesOut(s2, t, id, e);
    var s3 := Apply(s2, PublishEdgeless(t, true));
    Rests(s3, t);
    assert s3.places == s.places[e := Bound(id)];
    assert s3.threads[t := Idle] == s.threads[t := Idle];
  }

  lemma InsertsReachably(ids: nat, entries: nat, s: State, t: ThreadId, id: nat)
    requires Reachable(ids, entries, s)
    ensures Reachable(ids, entries, InsertWhole(s, t, id))
  {
    hide Apply, Run, Reachable;
    var s1 := Plain(ids, entries, s, AllocateId(t, id));
    var s2 := Plain(ids, entries, s1, EdgelessUpper(t, Grant(0)));
    var s3 := Plain(ids, entries, s2, PublishEdgeless(t, true));
    var s4 := Plain(ids, entries, s3, ClaimWon(t));
  }

  // A whole delete of a node with an entry.
  function Begun(s: State, t: ThreadId, id: nat): State {
    Apply(s, StartDelete(t, id))
  }

  function Emptied(s: State, t: ThreadId, id: nat): State {
    Apply(Apply(Begun(s, t, id), Tombstone(t)), EmptyUpper(t, true))
  }

  function DeleteWhole(s: State, t: ThreadId, id: nat): State {
    Apply(Apply(Apply(Emptied(s, t, id), FreeOne(t)), FreeOne(t)), FreeOne(t))
  }

  lemma Begins(s: State, t: ThreadId, id: nat)
    requires s.mode.Standalone? && PcOf(s, t).Idle? && id < |s.slots|
    ensures Begun(s, t, id) == Goto(s, t, Abandoning(id, None))
  {
  }

  lemma Tombstones(s: State, t: ThreadId, id: nat, e: nat)
    requires PcOf(s, t) == Abandoning(id, None) && id < |s.slots| && s.slots[id] == Slot(Valid, Some(e), false)
    requires e < |s.places|
    ensures Apply(s, Tombstone(t)) ==
            s.(slots := s.slots[id := Slot(Deleted, None, false)], places := s.places[e := HeldBy(t)],
               threads := s.threads[t := Emptying(id, e, None)])
  {
  }

  lemma Empties(s: State, t: ThreadId, id: nat, e: nat)
    requires PcOf(s, t) == Emptying(id, e, None) && e < |s.full|
    ensures Apply(s, EmptyUpper(t, true)) ==
            s.(full := s.full[e := false], threads := s.threads[t := Freeing(Some(e), Some(id), None)])
  {
  }

  lemma EmptiesNode(s: State, t: ThreadId, id: nat, e: nat)
    requires s.mode.Standalone? && PcOf(s, t).Idle? && id < |s.slots| && s.slots[id] == Slot(Valid, Some(e), false)
    requires Sized(s) && e < |s.places|
    ensures Emptied(s, t, id) ==
            s.(slots := s.slots[id := Slot(Deleted, None, false)], places := s.places[e := HeldBy(t)],
               full := s.full[e := false], threads := s.threads[t := Freeing(Some(e), Some(id), None)])
  {
    Begins(s, t, id);
    hide Apply, Begun;
    var s1 := Begun(s, t, id);
    Tombstones(s1, t, id, e);
    var s2 := Apply(s1, Tombstone(t));
    Empties(s2, t, id, e);
    assert s2.threads[t := Freeing(Some(e), Some(id), None)] == s.threads[t := Freeing(Some(e), Some(id), None)];
  }

  lemma FreesAll(s: State, t: ThreadId, id: nat, e: nat)
    requires PcOf(s, t) == Freeing(Some(e), Some(id), None) && Sized(s) && e < |s.places| && id !in s.freeIds
    ensures Apply(Apply(Apply(s, FreeOne(t)), FreeOne(t)), FreeOne(t)) ==
            s.(pool := Push(s.pool, e), stack := [e] + s.stack, places := s.places[e := Free],
               freeIds := s.freeIds + {id}, threads := s.threads[t := Idle])
  {
    var s1 := Apply(s, FreeOne(t));
    assert s1 == Goto(FreeEntry(s, e), t, Freeing(None, Some(id), None));
    var s2 := Apply(s1, FreeOne(t));
    assert s2 == Goto(s1.(freeIds := s.freeIds + {id}), t, Freeing(None, None, None));
    var s3 := Apply(s2, FreeOne(t));
    assert s3 == Goto(s2, t, Idle);
    assert s3.threads == s.threads[t := Idle];
  }

  lemma Deletes(s: State, t: ThreadId, id: nat, e: nat)
    requires s.mode.Standalone? && PcOf(s, t).Idle? && id < |s.slots| && s.slots[id] == Slot(Valid, Some(e), false)
    requires Sized(s) && e < |s.places| && id !in s.freeIds
    ensures DeleteWhole(s, t, id) ==
            s.(slots := s.slots[id := Slot(Deleted, None, false)], pool := Push(s.pool, e), stack := [e] + s.stack,
               places := s.places[e := Free], full := s.full[e := false], freeIds := s.freeIds + {id},
               threads := s.threads[t := Idle])
  {
    hide Apply, Emptied, Push;
    EmptiesNode(s, t, id, e);
    var mid := Emptied(s, t, id);
    FreesAll(mid, t, id, e);
    assert mid.threads[t := Idle] == s.threads[t := Idle];
    assert mid.places[e := Free] == s.places[e := Free];
  }

  lemma DeletesReachably(ids: nat, entries: nat, s: State, t: ThreadId, id: nat, e: nat)
    requires Reachable(ids, entries, s) && s.mode.Standalone? && PcOf(s, t).Idle? && id < |s.slots|
    requires s.slots[id] == Slot(Valid, Some(e), false) && Sized(s) && e < |s.places| && id !in s.freeIds
    requires forall u: ThreadId :: !Refers(PcOf(s, u), e)
    ensures Reachable(ids, entries, DeleteWhole(s, t, id))
  {
    hide Reachable, Run, Push;
    var s1 := Plain(ids, entries, s, StartDelete(t, id));
    Begins(s, t, id);
    forall u: ThreadId ensures !Refers(PcOf(s1, u), e) {
      assert u != t ==> PcOf(s1, u) == PcOf(s, u);
    }
    assert GivesUp(s1, t) && GivenUp(s1, t) == e;
    assert Careful(s1, Tombstone(t));
    Next(ids, entries, s1, Tombstone(t));
    EmptiesNode(s, t, id, e);
    hide Apply;
    var s3 := Plain(ids, entries, Apply(s1, Tombstone(t)), EmptyUpper(t, true));
    FreesReachably(ids, entries, s3, t, id, e);
  }

  // The emptied entry and the id go back, and the thread rests.
  lemma FreesReachably(ids: nat, entries: nat, s: State, t: ThreadId, id: nat, e: nat)
    requires Reachable(ids, entries, s) && PcOf(s, t) == Freeing(Some(e), Some(id), None) && !IsFull(s, e)
    ensures Reachable(ids, entries, Apply(Apply(Apply(s, FreeOne(t)), FreeOne(t)), FreeOne(t)))
  {
    hide Reachable, Run;
    Next(ids, entries, s, FreeOne(t));
    var s1 := Apply(s, FreeOne(t));
    assert PcOf(s1, t) == Freeing(None, Some(id), None);
    Next(ids, entries, s1, FreeOne(t));
    var s2 := Apply(s1, FreeOne(t));
    assert PcOf(s2, t) == Freeing(None, None, None);
    Next(ids, entries, s2, FreeOne(t));
  }

  // It happens: an insert publishes its node, another thread deletes it and frees its entry, and the insert's last
  // write names the entry again.
  lemma DeleteHitsInsert() returns (s: State)
    ensures Reachable(1, 1, s)
    ensures !SparesInserts(s, Tombstone(2)) && FreeYetNamed(Run(Apply(s, Tombstone(2)), Ending(2, 1)), 0, 0)
  {
    s := PublishedUnderWay();
    hide Reachable, Run, Init, Inv, Apply;
    assert GivesUp(s, 2) && GivenUp(s, 2) == 0 && Refers(PcOf(s, 1), 0);
    ReachableInv(1, 1, s);
    HitsInsert(s, 2, 1);
  }

  lemma PublishedUnderWay() returns (s: State)
    ensures Reachable(1, 1, s) && s.slots == [Slot(Valid, Some(0), false)]
    ensures PcOf(s, 1) == Published(0, Some(0)) && PcOf(s, 2) == Abandoning(0, None)
  {
    InitReachable(1, 1);
    var s0 := Init(Standalone, 1, 1);
    hide Reachable, Run, Apply;
    GetsId(s0, 1, 0);
    var s1 := Plain(1, 1, s0, AllocateId(1, 0));
    GetsEntry(s1, 1, 0, 0);
    var s2 := Plain(1, 1, s1, EdgelessUpper(1, Grant(0)));
    GoesOut(s2, 1, 0, 0);
    var s3 := Plain(1, 1, s2, PublishEdgeless(1, true));
    hide Begun;
    Deleting(s3, 2, 0);
    s := Plain(1, 1, s3, StartDelete(2, 0));
  }

  lemma Deleting(s: State, t: ThreadId, id: nat)
    requires s.mode.Standalone? && PcOf(s, t).Idle? && id < |s.slots|
    ensures Apply(s, StartDelete(t, id)) == Goto(s, t, Abandoning(id, None))
  {
  }

  lemma ReachableInv(ids: nat, entries: nat, s: State)
    requires Reachable(ids, entries, s) && entries <= NO_UPPER
    ensures Inv(s)
  {
    var steps :| CarefulRun(Init(Standalone, ids, entries), steps) && Run(Init(Standalone, ids, entries), steps) == s;
    InitInv(Standalone, ids, entries);
    InvRun(Init(Standalone, ids, entries), steps);
  }

  lemma FindsIndex(s: State, t: ThreadId, id: nat, e: nat)
    requires PcOf(s, t).Idle? && id < |s.slots| && s.slots[id] == Slot(Valid, Some(e), false)
    ensures Apply(s, FindIndex(t, id)) == Goto(s, t, Pushing(e))
  {
  }

  lemma TwoBlank()
    ensures Init(Standalone, 2, 2) ==
            State(Standalone, [Slot(Untouched, Some(0), false), Slot(Untouched, Some(0), false)],
              Pool(NO_UPPER, [0, 0], 0),
                  [false, false], [], [Never, Never], {}, 0, false, map[], true)
  {
  }

  lemma OneNode() returns (s: State)
    ensures Reachable(2, 2, s)
    ensures s ==
            State(Standalone, [Slot(Valid, Some(0), false), Slot(Untouched, Some(0), false)], Pool(NO_UPPER, [0, 0], 1),
                       [true, false], [], [Bound(0), Never], {}, 1, false, map[1 := Idle], true)
  {
    InitReachable(2, 2);
    TwoBlank();
    var s0 := Init(Standalone, 2, 2);
    hide Reachable, Run, Apply, InsertWhole, Init;
    Inserts(s0, 1, 0, 0);
    InsertsReachably(2, 2, s0, 1, 0);
    s := InsertWhole(s0, 1, 0);
    assert s.slots == [Slot(Valid, Some(0), false), Slot(Untouched, Some(0), false)];
    assert s.pool == Pool(NO_UPPER, [0, 0], 1);
  }

  // Two nodes stand, each with its entry; thread 9 has read the index of the second.
  lemma TwoNodes() returns (s: State)
    ensures Reachable(2, 2, s)
    ensures s ==
            State(Standalone, [Slot(Valid, Some(0), false), Slot(Valid, Some(1), false)], Pool(NO_UPPER, [0, 0], 2),
                       [true, true], [], [Bound(0), Bound(1)], {}, 2, false, map[1 := Idle, 9 := Pushing(1)], true)
  {
    var s1 := OneNode();
    hide Reachable, Run, Apply, InsertWhole;
    Inserts(s1, 1, 1, 1);
    InsertsReachably(2, 2, s1, 1, 1);
    var s2 := InsertWhole(s1, 1, 1);
    assert s2.pool == Pool(NO_UPPER, [0, 0], 2);
    FindsIndex(s2, 9, 1, 1);
    s := Plain(2, 2, s2, FindIndex(9, 1));
  }

  // Both are deleted, their entries emptied and freed: entry 1 links to entry 0.
  lemma BothFreed() returns (s: State)
    ensures Reachable(2, 2, s)
    ensures s == State(Standalone, [Slot(Deleted, None, false), Slot(Deleted, None, false)], Pool(1, [NO_UPPER, 0], 2),
                       [false, false], [1, 0], [Free, Free], {0, 1}, 2, false, map[1 := Idle, 9 := Pushing(1)], true)
  {
    var s0 := TwoNodes();
    hide Reachable, Run, DeleteWhole;
    Deletes(s0, 1, 0, 0);
    DeletesReachably(2, 2, s0, 1, 0, 0);
    var s1 := DeleteWhole(s0, 1, 0);
    assert s1.threads == s0.threads;
    Deletes(s1, 1, 1, 1);
    DeletesReachably(2, 2, s1, 1, 1, 1);
    s := DeleteWhole(s1, 1, 1);
    assert s.pool == Pool(1, [NO_UPPER, 0], 2) && s.stack == [1, 0] && s.places == [Free, Free]
           && s.full == [false, false];
    assert s.slots == [Slot(Deleted, None, false), Slot(Deleted, None, false)] && s.threads == s0.threads;
  }

  // A new insert takes entry 1 and writes it, but its slot write fails: it will free the entry as it was written.
  lemma AboutToFree() returns (s: State)
    ensures Reachable(2, 2, s)
    ensures s == State(Standalone, [Slot(Deleted, None, false), Slot(Deleted, None, false)], Pool(0, [NO_UPPER, 0], 2),
                       [false, true], [0], [Free, HeldBy(1)], {1}, 2, false,
                       map[1 := Freeing(Some(1), Some(0), None), 9 := Pushing(1)], true)
  {
    var s0 := BothFreed();
    hide Reachable, Run;
    GetsId(s0, 1, 0);
    var s1 := Plain(2, 2, s0, AllocateId(1, 0));
    GetsEntry(s1, 1, 0, 1);
    var s2 := Plain(2, 2, s1, EdgelessUpper(1, Grant(0)));
    assert s2.pool == Pool(0, [NO_UPPER, 0], 2);
    s := Plain(2, 2, s2, PublishEdgeless(1, false));
    assert s.freeIds == {1} && s.places == [Free, HeldBy(1)] && s.full == [false, true] && s.stack == [0];
    assert s.threads == map[1 := Freeing(Some(1), Some(0), None), 9 := Pushing(1)];
  }

  // Thread 9 stores the degree of a list it lengthened over the link: entry 1 links to itself.
  lemma LinkToItself(s: State) returns (s': State)
    requires s == State(Standalone, [Slot(Deleted, None, false), Slot(Deleted, None, false)], Pool(0, [NO_UPPER, 0], 2),
                        [false, true], [0], [Free, HeldBy(1)], {1}, 2, false,
                        map[1 := Freeing(Some(1), Some(0), None), 9 := Pushing(1)], true)
    ensures s' == Apply(Apply(Apply(Apply(s, FreeOne(1)), Update(9, 1)), FreeOne(1)), FreeOne(1))
    ensures s'.pool == Pool(1, [NO_UPPER, 1], 2) && s'.freeIds == {0, 1} && PcOf(s', 1) == Idle && s'.slots == s.slots
    ensures Sized(s') && |s'.places| == 2 && s'.mode == s.mode && s'.nextId == 2
    ensures LinkOf(Apply(Apply(s, FreeOne(1)), Update(9, 1)), 1) == 1
  {
    var s0 := Apply(s, FreeOne(1));
    assert s0 == Goto(FreeEntry(s, 1), 1, Freeing(None, Some(0), None));
    var s1 := Apply(s0, Update(9, 1));
    assert s1 == Goto(s0.(pool := Store(s0.pool, 1, 1)), 9, Idle);
    assert s1.pool == Pool(1, [NO_UPPER, 1], 2);
    var s2 := Apply(s1, FreeOne(1));
    assert s2 == Goto(s1.(freeIds := s1.freeIds + {0}), 1, Freeing(None, None, None));
    s' := Apply(s2, FreeOne(1));
    assert s' == Goto(s2, 1, Idle);
  }

  // It happens, in a run that spares every insert: the next two inserts are both given entry 1.
  lemma LinkOverwritten() returns (s: State)
    ensures Reachable(2, 2, s) && !FreesQuiet(s, FreeOne(1))
    ensures var s1 := Apply(Apply(s, FreeOne(1)), Update(9, 1));
            var s2 := Apply(Apply(s1, FreeOne(1)), FreeOne(1));
            var s3 := InsertWhole(InsertWhole(s2, 1, 0), 1, 1);
            LinkOf(s1, 1) == 1 && Names(s3, 0, 1) && Names(s3, 1, 1)
  {
    s := AboutToFree();
    assert !FreesQuiet(s, FreeOne(1)) by {
      assert PcOf(s, 9) == Pushing(1);
    }
    hide Apply, Reachable, InsertWhole;
    var s2 := LinkToItself(s);
    Inserts(s2, 1, 0, 1);
    var s3 := InsertWhole(s2, 1, 0);
    assert s3.pool == Pool(1, [NO_UPPER, 0], 2);
    Inserts(s3, 1, 1, 1);
  }
}
