/** Both provisos on upper lists can fail, and runs show what then happens: a node's own upper list comes to name it,
    and one entry comes to be two nodes'. The proviso on tombstones is exact for its step. */
module ListRuns {
  import opened Core
  import opened Edits
  import opened Racing
  import opened UpperPool
  import opened Lists
  import opened ListOwners

  // ---- A tombstone that spares inserts ----

  // A delete that has landed runs to where its id is given back.
  ghost function GivesIdBack(s: State, t: ThreadId): State {
    if PcOf(s, t).Emptying? then Apply(Apply(Apply(s, Empty(t, true)), FreeNext(t)), FreeNext(t))
    else Apply(s, FreeNext(t))
  }

  // An id is free while an insert still works on it.
  ghost predicate FreeYetWorkedOn(s: State, u: ThreadId, id: Id) {
    id in s.freeIds && Inserts(PcOf(s, u), id)
  }

  // A tombstone spares inserts just when the rest of its delete gives back no id that an insert still works on.
  lemma SparingIsExact(s: State, t: ThreadId)
    requires PcOf(s, t).Deleting? && IsLive(s, PcOf(s, t).id)
    ensures var s1 := GivesIdBack(Apply(s, Tombstone(t)), t);
            SparesInserts(s, Tombstone(t)) <==> forall u: ThreadId :: u != t ==> !FreeYetWorkedOn(s1, u, PcOf(s, t).id)
  {
    var id := PcOf(s, t).id;
    IdComesBack(s, t);
    hide Apply, GivesIdBack;
    var s1 := GivesIdBack(Apply(s, Tombstone(t)), t);
    forall u: ThreadId | u != t ensures FreeYetWorkedOn(s1, u, id) <==> Inserts(PcOf(s, u), id) {
    }
  }

  lemma IdComesBack(s: State, t: ThreadId)
    requires PcOf(s, t).Deleting? && IsLive(s, PcOf(s, t).id)
    ensures var s1 := GivesIdBack(Apply(s, Tombstone(t)), t);
            PcOf(s, t).id in s1.freeIds && forall u: ThreadId :: u != t ==> PcOf(s1, u) == PcOf(s, u)
  {
    var id := PcOf(s, t).id;
    LandsOn(s, t);
    var s0 := Apply(s, Tombstone(t));
    hide Apply;
    if PcOf(s0, t).Emptying? {
      EmptiesThenFrees(s0, t);
      BackInHand(Apply(Apply(s0, Empty(t, true)), FreeNext(t)), t, id);
    } else {
      BackInHand(s0, t, id);
    }
  }

  lemma LandsOn(s: State, t: ThreadId)
    requires PcOf(s, t).Deleting? && IsLive(s, PcOf(s, t).id)
    ensures var (id, s0) := (PcOf(s, t).id, Apply(s, Tombstone(t)));
            && (PcOf(s0, t).Emptying? ==> PcOf(s0, t).id == id)
            && (!PcOf(s0, t).Emptying? ==> PcOf(s0, t) == Freeing(Some(id), None, PcOf(s, t).extra))
            && forall u: ThreadId :: u != t ==> PcOf(s0, u) == PcOf(s, u)
  {
  }

  lemma EmptiesThenFrees(s: State, t: ThreadId)
    requires PcOf(s, t).Emptying?
    ensures var s2 := Apply(Apply(s, Empty(t, true)), FreeNext(t));
            && PcOf(s2, t) == Freeing(Some(PcOf(s, t).id), None, PcOf(s, t).extra)
            && forall u: ThreadId :: u != t ==> PcOf(s2, u) == PcOf(s, u)
  {
    var s1 := Apply(s, Empty(t, true));
    assert s1 ==
           Goto(ClearUpper(s, PcOf(s, t).e), t, Freeing(Some(PcOf(s, t).id), Some(PcOf(s, t).e), PcOf(s, t).extra));
  }

  lemma BackInHand(s: State, t: ThreadId, id: Id)
    requires PcOf(s, t).Freeing? && PcOf(s, t).first.None? && PcOf(s, t).back == Some(id)
    ensures id in Apply(s, FreeNext(t)).freeIds
    ensures forall u: ThreadId :: u != t ==> PcOf(Apply(s, FreeNext(t)), u) == PcOf(s, u)
  {
  }

  // ---- Reachable states ----

  ghost predicate Reachable(entries: nat, s: State) {
    exists steps :: CarefulRun(Init(1, 1, entries), steps) && Run(Init(1, 1, entries), steps) == s
  }

  lemma {:induction false} RunSnoc(s: State, steps: seq<Step>, step: Step)
    requires CarefulRun(s, steps) && Careful(Run(s, steps), step)
    ensures CarefulRun(s, steps + [step]) && Run(s, steps + [step]) == Apply(Run(s, steps), step)
    decreases |steps|
  {
    hide Apply, Careful;
    if steps == [] {
      assert [] + [step] == [step] && [step][1..] == [];
    } else {
      assert (steps + [step])[1..] == steps[1..] + [step];
      RunSnoc(Apply(s, steps[0]), steps[1..], step);
    }
  }

  lemma Next(entries: nat, s: State, step: Step)
    requires Reachable(entries, s) && Careful(s, step)
    ensures Reachable(entries, Apply(s, step))
  {
    hide Apply, Careful, Init;
    var steps :| CarefulRun(Init(1, 1, entries), steps) && Run(Init(1, 1, entries), steps) == s;
    RunSnoc(Init(1, 1, entries), steps, step);
  }

  // A step that frees and tombstones nothing.
  lemma Plain(entries: nat, s: State, step: Step) returns (s': State)
    requires Reachable(entries, s) && !step.Tombstone? && !step.FreeNext?
    ensures Reachable(entries, s') && s' == Apply(s, step)
  {
    Next(entries, s, step);
    s' := Apply(s, step);
  }

  lemma InitReachable(entries: nat)
    ensures Reachable(entries, Init(1, 1, entries))
  {
    var init := Init(1, 1, entries);
    assert CarefulRun(init, []) && Run(init, []) == init;
  }

  // ---- Whole operations ----

  function Fresh(id: Id): Pc {
    Choosing(id, {}, None, None, false, false, false)
  }

  function Wrote(id: Id, e: nat): Pc {
    Choosing(id, {}, None, Some(e), true, false, false)
  }

  lemma AllocatesId(s: State, t: ThreadId, id: Id)
    requires PcOf(s, t).Idle? && (id in s.freeIds || id == s.highWater) && id <= s.highWater
    ensures Apply(s, AllocateId(t, id)) ==
            Goto(s.(freeIds := s.freeIds - {id}, highWater := if id == s.highWater then s.highWater + 1
              else s.highWater),
                 t, Fresh(id))
  {
  }

  lemma TakesEntry(s: State, t: ThreadId, id: Id, e: nat)
    requires PcOf(s, t) == Fresh(id) && Pop(s.pool).1 == Some(e)
    ensures Apply(s, TakeEntry(t)) ==
            s.(pool := Pop(s.pool).0, stack := Rest(s.stack), place := s.place[e := Held(t)],
               threads := s.threads[t := Choosing(id, {}, None, Some(e), false, false, false)])
  {
  }

  lemma WritesEntry(s: State, t: ThreadId, id: Id, e: nat)
    requires PcOf(s, t) == Choosing(id, {}, None, Some(e), false, false, false)
    ensures Apply(s, WriteEntry(t, [[]])) ==
            s.(entries := s.entries[e := Entry(id, true, EntryOf(s, e).first, [])], pool := Store(s.pool, e, 0),
               threads := s.threads[t := Wrote(id, e)])
  {
    var lists: seq<seq<Id>> := [[]];
    assert CutLists(lists) == lists && lists[1..] == [];
    assert Overlay(EntryOf(s, e).first, []) == EntryOf(s, e).first;
  }

  lemma PublishesEntry(s: State, t: ThreadId, id: Id, e: nat)
    requires PcOf(s, t) == Wrote(id, e) && id !in s.freeIds && !s.wild
    ensures Apply(s, Publish(t, [])) ==
            s.(slots := s.slots[id := Slot(true, [], Some(e))], place := s.place[e := Bound(id)],
               threads := s.threads[t := Choosing(id, {}, None, Some(e), true, true, true)])
  {
  }

  lemma Rests(s: State, t: ThreadId)
    requires PcOf(s, t).Choosing? && PcOf(s, t).published
    ensures Apply(s, Done(t)) == Goto(s, t, Idle)
  {
  }

  // An insert up to its written entry.
  ghost function Written(s: State, t: ThreadId, id: Id): State {
    Apply(Apply(Apply(s, AllocateId(t, id)), TakeEntry(t)), WriteEntry(t, [[]]))
  }

  lemma Writes(s: State, t: ThreadId, id: Id, e: nat)
    requires PcOf(s, t).Idle? && (id in s.freeIds || id == s.highWater) && id <= s.highWater && Pop(s.pool).1 == Some(e)
    ensures Written(s, t, id) ==
            s.(entries := s.entries[e := Entry(id, true, EntryOf(s, e).first, [])], pool := Store(Pop(s.pool).0, e, 0),
               stack := Rest(s.stack), place := s.place[e := Held(t)], freeIds := s.freeIds - {id},
               highWater := if id == s.highWater then s.highWater + 1 else s.highWater,
               threads := s.threads[t := Wrote(id, e)])
  {
    hide Apply, Pop, Store, EntryOf;
    AllocatesId(s, t, id);
    var s1 := Apply(s, AllocateId(t, id));
    TakesEntry(s1, t, id, e);
    var s2 := Apply(s1, TakeEntry(t));
    WritesEntry(s2, t, id, e);
    assert EntryOf(s2, e) == EntryOf(s, e) by {
      SameEntries(s, s2, e);
    }
    assert s2.threads[t := Wrote(id, e)] == s.threads[t := Wrote(id, e)];
  }

  lemma SameEntries(s: State, s': State, e: nat)
    requires s'.entries == s.entries
    ensures EntryOf(s', e) == EntryOf(s, e)
  {
  }

  // A whole insert of a node with one empty upper list, that links to nobody.
  ghost function Inserted(s: State, t: ThreadId, id: Id): State {
    Apply(Apply(Written(s, t, id), Publish(t, [])), Done(t))
  }

  lemma InsertsNode(s: State, t: ThreadId, id: Id, e: nat)
    requires PcOf(s, t).Idle? && (id in s.freeIds || id == s.highWater) && id <= s.highWater && Pop(s.pool).1 == Some(e)
    requires !s.wild
    ensures Inserted(s, t, id) ==
            s.(slots := s.slots[id := Slot(true, [], Some(e))],
               entries := s.entries[e := Entry(id, true, EntryOf(s, e).first, [])], pool := Store(Pop(s.pool).0, e, 0),
               stack := Rest(s.stack), place := s.place[e := Bound(id)], freeIds := s.freeIds - {id},
               highWater := if id == s.highWater then s.highWater + 1 else s.highWater,
               threads := s.threads[t := Idle])
  {
    hide Apply, Written, Pop, Store, EntryOf;
    Writes(s, t, id, e);
    var s1 := Written(s, t, id);
    PublishesEntry(s1, t, id, e);
    var s2 := Apply(s1, Publish(t, []));
    Rests(s2, t);
    assert s1.place[e := Bound(id)] == s.place[e := Bound(id)];
    assert s2.threads[t := Idle] == s.threads[t := Idle];
  }

  lemma WritesReachably(entries: nat, s: State, t: ThreadId, id: Id)
    requires Reachable(entries, s)
    ensures Reachable(entries, Written(s, t, id))
  {
    hide Apply, Run, Reachable;
    var s1 := Plain(entries, s, AllocateId(t, id));
    var s2 := Plain(entries, s1, TakeEntry(t));
    var s3 := Plain(entries, s2, WriteEntry(t, [[]]));
  }

  lemma InsertsReachably(entries: nat, s: State, t: ThreadId, id: Id)
    requires Reachable(entries, s)
    ensures Reachable(entries, Inserted(s, t, id))
  {
    WritesReachably(entries, s, t, id);
    hide Apply, Run, Reachable, Written;
    var s1 := Plain(entries, Written(s, t, id), Publish(t, []));
    var s2 := Plain(entries, s1, Done(t));
  }

  lemma StartsDelete(s: State, t: ThreadId, id: Id)
    requires PcOf(s, t).Idle? && id < s.highWater
    ensures Apply(s, StartDelete(t, id)) == Goto(s, t, Deleting(id, None))
  {
  }

  lemma Tombstones(s: State, t: ThreadId, id: Id, e: nat)
    requires PcOf(s, t) == Deleting(id, None) && UpperOf(s, id) == Some(e)
    ensures Apply(s, Tombstone(t)) ==
            s.(slots := s.slots[id := Slot(false, ListOf(s, id), None)], place := s.place[e := Held(t)],
               threads := s.threads[t := Emptying(id, e, None)])
  {
  }

  lemma Empties(s: State, t: ThreadId, id: Id, e: nat)
    requires PcOf(s, t) == Emptying(id, e, None) && e in s.entries
    ensures Apply(s, Empty(t, true)) ==
            s.(entries := s.entries[e := s.entries[e].(full := false)],
               threads := s.threads[t := Freeing(Some(id), Some(e), None)])
  {
  }

  lemma FreesEntry(s: State, t: ThreadId, id: Id, e: nat)
    requires PcOf(s, t) == Freeing(Some(id), Some(e), None)
    ensures Apply(s, FreeNext(t)) ==
            s.(pool := UpperPool.Push(s.pool, e), stack := [e] + s.stack, place := s.place[e := Free],
               threads := s.threads[t := Freeing(Some(id), None, None)])
  {
  }

  lemma FreesId(s: State, t: ThreadId, id: Id)
    requires PcOf(s, t) == Freeing(Some(id), None, None) && id !in s.freeIds
    ensures Apply(Apply(s, FreeNext(t)), FreeNext(t)) ==
            s.(freeIds := s.freeIds + {id}, threads := s.threads[t := Idle])
  {
    var s1 := Apply(s, FreeNext(t));
    assert s1 == Goto(s.(freeIds := s.freeIds + {id}), t, Freeing(None, None, None));
    assert s1.threads[t := Idle] == s.threads[t := Idle];
  }

  // A whole delete of a node with an upper entry.
  ghost function Gone(s: State, t: ThreadId, id: Id): State {
    Apply(Apply(Apply(s, StartDelete(t, id)), Tombstone(t)), Empty(t, true))
  }

  ghost function Deleted(s: State, t: ThreadId, id: Id): State {
    Apply(Apply(Apply(Gone(s, t, id), FreeNext(t)), FreeNext(t)), FreeNext(t))
  }

  lemma GoesNode(s: State, t: ThreadId, id: Id, e: nat)
    requires PcOf(s, t).Idle? && id < s.highWater && UpperOf(s, id) == Some(e) && e in s.entries
    ensures Gone(s, t, id) ==
            s.(slots := s.slots[id := Slot(false, ListOf(s, id), None)],
               entries := s.entries[e := s.entries[e].(full := false)], place := s.place[e := Held(t)],
               threads := s.threads[t := Freeing(Some(id), Some(e), None)])
  {
    hide Apply;
    StartsDelete(s, t, id);
    var s1 := Apply(s, StartDelete(t, id));
    Tombstones(s1, t, id, e);
    var s2 := Apply(s1, Tombstone(t));
    Empties(s2, t, id, e);
    assert s2.threads[t := Freeing(Some(id), Some(e), None)] == s.threads[t := Freeing(Some(id), Some(e), None)];
  }

  lemma DeletesNode(s: State, t: ThreadId, id: Id, e: nat)
    requires PcOf(s, t).Idle? && id < s.highWater && UpperOf(s, id) == Some(e) && e in s.entries && id !in s.freeIds
    ensures Deleted(s, t, id) ==
            s.(slots := s.slots[id := Slot(false, ListOf(s, id), None)],
               entries := s.entries[e := s.entries[e].(full := false)], pool := UpperPool.Push(s.pool, e),
               stack := [e] + s.stack, place := s.place[e := Free], freeIds := s.freeIds + {id},
               threads := s.threads[t := Idle])
  {
    hide Apply, Gone;
    GoesNode(s, t, id, e);
    var s1 := Gone(s, t, id);
    FreesEntry(s1, t, id, e);
    var s2 := Apply(s1, FreeNext(t));
    FreesId(s2, t, id);
    assert s1.place[e := Free] == s.place[e := Free];
    assert s2.threads[t := Idle] == s.threads[t := Idle];
  }

  lemma DeletesReachably(entries: nat, s: State, t: ThreadId, id: Id, e: nat)
    requires Reachable(entries, s) && PcOf(s, t).Idle? && id < s.highWater && UpperOf(s, id) == Some(e)
             && e in s.entries
    requires forall u: ThreadId :: !Inserts(PcOf(s, u), id)
    ensures Reachable(entries, Deleted(s, t, id))
  {
    StartsDelete(s, t, id);
    hide Reachable, Run;
    var s1 := Plain(entries, s, StartDelete(t, id));
    forall u: ThreadId ensures !Inserts(PcOf(s1, u), id) {
      assert u != t ==> PcOf(s1, u) == PcOf(s, u);
    }
    assert Careful(s1, Tombstone(t));
    Next(entries, s1, Tombstone(t));
    GoesNode(s, t, id, e);
    var s3 := Plain(entries, Apply(s1, Tombstone(t)), Empty(t, true));
    assert PcOf(s3, t) == Freeing(Some(id), Some(e), None) && !IsFull(s3, e);
    hide Apply;
    FreesReachably(entries, s3, t, id, e);
  }

  lemma FreesReachably(entries: nat, s: State, t: ThreadId, id: Id, e: nat)
    requires Reachable(entries, s) && PcOf(s, t) == Freeing(Some(id), Some(e), None) && !IsFull(s, e)
    ensures Reachable(entries, Apply(Apply(Apply(s, FreeNext(t)), FreeNext(t)), FreeNext(t)))
  {
    hide Reachable, Run;
    FreesEntry(s, t, id, e);
    Next(entries, s, FreeNext(t));
    var s1 := Apply(s, FreeNext(t));
    assert Careful(s1, FreeNext(t));
    Next(entries, s1, FreeNext(t));
    var s2 := Apply(s1, FreeNext(t));
    assert PcOf(s2, t) == Freeing(None, None, None);
    Next(entries, s2, FreeNext(t));
  }

  // ---- A node's own upper list names it ----

  lemma InitIs(entries: nat)
    ensures Init(1, 1, entries) ==
            State(1, 1, map[], map[], Pool(NO_UPPER, seq(entries, _ => 0), 0), [], map[], {}, 0, false, map[])
  {
  }

  // Thread 1 inserts node 0 with upper entry 0.
  lemma NodeZero(entries: nat) returns (s: State)
    requires 0 < entries <= NO_UPPER
    ensures Reachable(entries, s) && s.m == 1 && s.highWater == 1 && !s.wild && s.freeIds == {} && s.stack == []
    ensures s.slots == map[0 := Slot(true, [], Some(0))] && s.entries == map[0 := Entry(0, true, Blank().first, [])]
    ensures s.pool == Pool(NO_UPPER, seq(entries, _ => 0), 1) && s.threads == map[1 := Idle]
  {
    InitReachable(entries);
    InitIs(entries);
    var s0 := Init(1, 1, entries);
    hide Reachable, Run, Apply, Inserted, Init;
    InsertsNode(s0, 1, 0, 0);
    InsertsReachably(entries, s0, 1, 0);
    s := Inserted(s0, 1, 0);
    assert s.pool.words == seq(entries, _ => 0);
  }

  lemma SeesEntryPoint(s: State, t: ThreadId, id: Id, x: Id)
    requires PcOf(s, t) == Fresh(id) && x < s.highWater
    ensures Apply(s, SeeEntryPoint(t, x)) == Goto(s, t, Choosing(id, {x}, None, None, false, false, false))
  {
    assert {} + {x} == {x};
  }

  lemma PublishesLow(s: State, t: ThreadId, id: Id, x: Id)
    requires PcOf(s, t) == Choosing(id, {x}, None, None, false, false, false) && id !in s.freeIds && !s.wild
    ensures Apply(s, Publish(t, [])) ==
            s.(slots := s.slots[id := Slot(true, [], None)],
               threads := s.threads[t := Choosing(id, {x}, None, None, false, false, true)])
  {
  }

  lemma LinksUpper(s: State, t: ThreadId, id: Id, x: Id, e: nat)
    requires PcOf(s, t) == Choosing(id, {x}, None, None, false, false, true) && x != id && UpperOf(s, x) == Some(e)
    ensures var mid := Apply(s, StartLinking(t));
            Apply(mid, FindUpper(t, x, 1)) == Goto(mid, t, Pushing(id, {x}, e, 1))
              && mid == Goto(s, t, Linking(id, {x}))
  {
    var mid := Apply(s, StartLinking(t));
    assert mid == Goto(s, t, Linking(id, {x}));
    assert UpperOf(mid, x) == Some(e);
  }

  // An insert of a node at layer 0 that has got as far as reading the entry index of its neighbour `x`.
  ghost function Linked(s: State, t: ThreadId, id: Id, x: Id): State {
    Apply(Apply(Apply(Apply(Apply(s, AllocateId(t, id)), SeeEntryPoint(t, x)), Publish(t, [])), StartLinking(t)),
          FindUpper(t, x, 1))
  }

  lemma LinksNode(s: State, t: ThreadId, x: Id, e: nat)
    requires PcOf(s, t).Idle? && x < s.highWater < NO_ID && UpperOf(s, x) == Some(e) && !s.wild && s.freeIds == {}
    ensures var id := s.highWater;
            Linked(s, t, id, x) ==
            s.(slots := s.slots[id := Slot(true, [], None)], highWater := id + 1,
               threads := s.threads[t := Pushing(id, {x}, e, 1)])
  {
    var id := s.highWater;
    hide Apply;
    AllocatesId(s, t, id);
    var s1 := Apply(s, AllocateId(t, id));
    assert s1.freeIds == {};
    SeesEntryPoint(s1, t, id, x);
    var s2 := Apply(s1, SeeEntryPoint(t, x));
    PublishesLow(s2, t, id, x);
    var s3 := Apply(s2, Publish(t, []));
    LinksUpper(s3, t, id, x, e);
    var s4 := Apply(s3, StartLinking(t));
    assert s4.threads[t := Pushing(id, {x}, e, 1)] == s.threads[t := Pushing(id, {x}, e, 1)];
  }

  lemma LinksReachably(entries: nat, s: State, t: ThreadId, id: Id, x: Id)
    requires Reachable(entries, s)
    ensures Reachable(entries, Linked(s, t, id, x))
  {
    hide Apply, Run, Reachable;
    var s1 := Plain(entries, s, AllocateId(t, id));
    var s2 := Plain(entries, s1, SeeEntryPoint(t, x));
    var s3 := Plain(entries, s2, Publish(t, []));
    var s4 := Plain(entries, s3, StartLinking(t));
    var s5 := Plain(entries, s4, FindUpper(t, x, 1));
  }

  // Thread 2 links node 1 and has read the index of node 0's entry.
  lemma LinkingOne() returns (s: State)
    ensures Reachable(1, s) && s.m == 1 && s.highWater == 2 && !s.wild && s.freeIds == {} && s.stack == []
    ensures s.slots == map[0 := Slot(true, [], Some(0)), 1 := Slot(true, [], None)] && s.pool == Pool(NO_UPPER, [0], 1)
    ensures s.entries == map[0 := Entry(0, true, Blank().first, [])]
    ensures s.threads == map[1 := Idle, 2 := Pushing(1, {0}, 0, 1)]
  {
    var s0 := NodeZero(1);
    assert s0.pool == Pool(NO_UPPER, [0], 1);
    hide Reachable, Run, Linked, Blank, Apply;
    LinksNode(s0, 2, 0, 0);
    LinksReachably(1, s0, 2, 1, 0);
    s := Linked(s0, 2, 1, 0);
  }

  // Thread 3 deletes node 0 and frees its entry; thread 4 is about to tombstone node 1.
  lemma EntryFreed() returns (s: State)
    ensures Reachable(1, s) && s.m == 1 && s.highWater == 2 && !s.wild && s.freeIds == {0} && s.stack == [0]
    ensures 1 in s.slots && s.slots[1] == Slot(true, [], None) && s.pool == Pool(0, [NO_UPPER], 1)
    ensures s.entries == map[0 := Entry(0, false, Blank().first, [])]
    ensures PcOf(s, 2) == Pushing(1, {0}, 0, 1) && PcOf(s, 4) == Deleting(1, None) && PcOf(s, 5) == Idle
  {
    var s1 := LinkingOne();
    hide Reachable, Run, Deleted, Blank, Apply;
    DeletesNode(s1, 3, 0, 0);
    DeletesReachably(1, s1, 3, 0, 0);
    var s2 := Deleted(s1, 3, 0);
    assert s2.pool == Pool(0, [NO_UPPER], 1);
    StartsDelete(s2, 4, 1);
    s := Plain(1, s2, StartDelete(4, 1));
    assert s.entries == map[0 := Entry(0, false, Blank().first, [])];
  }

  lemma DeletesLow(s: State, t: ThreadId, id: Id)
    requires PcOf(s, t) == Deleting(id, None) && IsLive(s, id) && UpperOf(s, id) == None && id !in s.freeIds
    ensures Apply(Apply(s, Tombstone(t)), FreeNext(t)) ==
            s.(slots := s.slots[id := Slot(false, ListOf(s, id), None)], freeIds := s.freeIds + {id},
               threads := s.threads[t := Freeing(None, None, None)])
  {
    var s1 := Apply(s, Tombstone(t));
    assert s1 == Goto(s.(slots := s.slots[id := Slot(false, ListOf(s, id), None)]), t, Freeing(Some(id), None, None));
    assert s1.threads[t := Freeing(None, None, None)] == s.threads[t := Freeing(None, None, None)];
  }

  // A push onto an empty level-1 list stores the id and the degree 1.
  lemma PushesOne(s: State, t: ThreadId, id: Id, seen: set<Id>, e: nat)
    requires PcOf(s, t) == Pushing(id, seen, e, 1) && e in s.entries && s.entries[e].full && s.m == 1
    requires e < |s.pool.words| && Degree(s.pool.words[e]) == 0 && |s.entries[e].first| == UPPER_CAP
    ensures var s' := Apply(s, Push(t, []));
            && s' == s.(entries := s'.entries, pool := Store(s.pool, e, 1),
              threads := s.threads[t := Linking(id, seen)])
            && s'.entries == s.entries[e := s.entries[e].(first := Overlay(s.entries[e].first, [id]))]
            && HasLevel(s', e, 1) && UpperList(s', e, 1) == [id]
  {
    assert LowList(s, e) == [] && UpperList(s, e, 1) == [];
    assert [] + [id] == [id];
    SetDegreeReads(s.pool.words[e], 1);
    OverlayHolds(s.entries[e].first, [id]);
    var s' := Apply(s, Push(t, []));
    assert s' == Goto(SetUpper(s, e, 1, [id]), t, Linking(id, seen));
    assert LowList(s', e) == [id];
  }

  // It happens: thread 4 tombstones node 1 under thread 2's insert and gives its id back; thread 5 is given that id and
  // the freed entry, so the push of thread 2, by the index it read, makes node 1's own upper list name node 1.
  lemma SelfLoopHappens() returns (s: State)
    ensures Reachable(1, s) && !SparesInserts(s, Tombstone(4))
    ensures var s1 := Apply(Apply(s, Tombstone(4)), FreeNext(4));
            var s2 := Apply(Inserted(s1, 5, 1), Push(2, []));
            UpperOf(s2, 1) == Some(0) && HasLevel(s2, 0, 1) && 1 in UpperList(s2, 0, 1)
  {
    s := EntryFreed();
    assert !SparesInserts(s, Tombstone(4)) by {
      assert Inserts(PcOf(s, 2), 1);
    }
    hide Reachable, Run, Init, Apply, Inserted;
    DeletesLow(s, 4, 1);
    var s1 := Apply(Apply(s, Tombstone(4)), FreeNext(4));
    InsertsNode(s1, 5, 1, 0);
    var mid := Inserted(s1, 5, 1);
    assert mid.pool.words[0] == SetDegree(NO_UPPER, 0);
    SetDegreeReads(NO_UPPER, 0);
    assert mid.entries[0] == Entry(1, true, Blank().first, []);
    PushesOne(mid, 2, 1, {0}, 0);
  }

  // ---- One entry comes to be two nodes' ----

  // Thread 1 inserts nodes 0 and 1; thread 9 links node 2 and has read the index of node 1's entry.
  lemma TwoNodes() returns (s: State)
    ensures Reachable(2, s) && s.m == 1 && s.highWater == 3 && !s.wild && s.freeIds == {} && s.stack == []
    ensures s.slots == map[0 := Slot(true, [], Some(0)), 1 := Slot(true, [], Some(1)), 2 := Slot(true, [], None)]
    ensures s.entries == map[0 := Entry(0, true, Blank().first, []), 1 := Entry(1, true, Blank().first, [])]
    ensures s.pool == Pool(NO_UPPER, [0, 0], 2) && s.threads == map[1 := Idle, 9 := Pushing(2, {1}, 1, 1)]
  {
    var s0 := NodeZero(2);
    assert s0.pool == Pool(NO_UPPER, [0, 0], 1);
    hide Reachable, Run, Apply, Inserted, Linked;
    InsertsNode(s0, 1, 1, 1);
    InsertsReachably(2, s0, 1, 1);
    var s1 := Inserted(s0, 1, 1);
    assert s1.pool == Pool(NO_UPPER, [0, 0], 2) && EntryOf(s0, 1) == Blank();
    LinksNode(s1, 9, 1, 1);
    LinksReachably(2, s1, 9, 2, 1);
    s := Linked(s1, 9, 2, 1);
  }

  // Nodes 0 and 1 are deleted, their entries emptied and freed: entry 1 links to entry 0.
  lemma BothFreed() returns (s: State)
    ensures Reachable(2, s) && s.m == 1 && s.highWater == 3 && !s.wild && s.freeIds == {0, 1} && s.stack == [1, 0]
    ensures s.slots.Keys == {0, 1, 2}
            && s.entries == map[0 := Entry(0, false, Blank().first, []), 1 := Entry(1, false, Blank().first, [])]
    ensures s.pool == Pool(1, [NO_UPPER, 0], 2) && s.threads == map[1 := Idle, 9 := Pushing(2, {1}, 1, 1)]
  {
    var s0 := TwoNodes();
    hide Reachable, Run, Deleted, Apply, Blank;
    DeletesNode(s0, 1, 0, 0);
    DeletesReachably(2, s0, 1, 0, 0);
    var s1 := Deleted(s0, 1, 0);
    assert s1.pool == Pool(0, [NO_UPPER, 0], 2) && s1.threads == s0.threads;
    DeletesNode(s1, 1, 1, 1);
    DeletesReachably(2, s1, 1, 1, 1);
    s := Deleted(s1, 1, 1);
    assert s.pool == Pool(1, [NO_UPPER, 0], 2) && s.threads == s0.threads;
    assert s.entries == map[0 := Entry(0, false, Blank().first, []), 1 := Entry(1, false, Blank().first, [])];
  }

  lemma GivesUpFresh(s: State, t: ThreadId, id: Id, e: nat)
    requires PcOf(s, t) == Wrote(id, e)
    ensures Apply(s, GiveUp(t)) == Goto(s, t, Freeing(Some(id), Some(e), None))
  {
  }

  // A new insert takes entry 1 and writes it, but its slot write fails: it will free the entry as it was written.
  lemma AboutToFree() returns (s: State)
    ensures Reachable(2, s) && s.m == 1 && s.highWater == 3 && !s.wild && s.freeIds == {1} && s.stack == [0]
    ensures s.slots.Keys == {0, 1, 2}
            && s.entries == map[0 := Entry(0, false, Blank().first, []), 1 := Entry(0, true, Blank().first, [])]
    ensures s.pool == Pool(0, [NO_UPPER, 0], 2)
    ensures s.threads == map[1 := Freeing(Some(0), Some(1), None), 9 := Pushing(2, {1}, 1, 1)]
  {
    var s0 := BothFreed();
    hide Reachable, Run, Written, Apply, Blank;
    Writes(s0, 1, 0, 1);
    WritesReachably(2, s0, 1, 0);
    var s1 := Written(s0, 1, 0);
    assert s1.pool == Pool(0, [NO_UPPER, 0], 2);
    GivesUpFresh(s1, 1, 0, 1);
    s := Plain(2, s1, GiveUp(1));
    assert s.freeIds == {1};
  }

  // The entry goes back as it was written; the push lands on its link, so that it links to itself; the id goes back
  // too.
  ghost function Overwritten(s: State): State {
    Apply(Apply(Apply(Apply(s, FreeNext(1)), Push(9, [])), FreeNext(1)), FreeNext(1))
  }

  lemma LinkToItself(s: State)
    requires s.m == 1 && s.highWater == 3 && !s.wild && s.freeIds == {1} && s.slots.Keys == {0, 1, 2}
    requires s.entries == map[0 := Entry(0, false, Blank().first, []), 1 := Entry(0, true, Blank().first, [])]
    requires s.pool == Pool(0, [NO_UPPER, 0], 2)
    requires s.threads == map[1 := Freeing(Some(0), Some(1), None), 9 := Pushing(2, {1}, 1, 1)]
    ensures var s' := Overwritten(s);
            && s'.pool == Pool(1, [NO_UPPER, 1], 2) && s'.freeIds == {0, 1} && PcOf(s', 1) == Idle && !s'.wild
            && s'.highWater == 3
  {
    FreesEntry(s, 1, 0, 1);
    hide Apply;
    var s1 := Apply(s, FreeNext(1));
    assert s1.pool == Pool(1, [NO_UPPER, 0], 2);
    PushesOne(s1, 9, 2, {1}, 1);
    var s2 := Apply(s1, Push(9, []));
    assert s2.pool == Pool(1, [NO_UPPER, 1], 2);
    FreesId(s2, 1, 0);
  }

  // It happens, in a run that spares every insert: the next two inserts are both given entry 1, and the second writes
  // it for itself while the first one's slot names it.
  lemma EntryOfTwo() returns (s: State)
    ensures Reachable(2, s) && !FreesQuiet(s, FreeNext(1))
    ensures var s2 := Inserted(Inserted(Overwritten(s), 1, 0), 1, 1);
            && UpperOf(s2, 0) == Some(1) && UpperOf(s2, 1) == Some(1) && OwnerOf(s2, 1) == Some(1)
  {
    s := AboutToFree();
    assert !FreesQuiet(s, FreeNext(1)) by {
      assert Aims(PcOf(s, 9), 1);
    }
    LinkToItself(s);
    hide Reachable, Run, Apply, Inserted, Overwritten;
    var s0 := Overwritten(s);
    InsertsNode(s0, 1, 0, 1);
    var s1 := Inserted(s0, 1, 0);
    assert s1.pool == Pool(1, [NO_UPPER, 0], 2);
    InsertsNode(s1, 1, 1, 1);
  }
}
