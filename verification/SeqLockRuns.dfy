/** Two runs of the slot lock that show its provisos are needed: one word stored twice lets two live threads in,
    and one generation published twice lets a read return what no write ever stored. */
module SeqLockRuns {
  import opened Core
  import opened SeqLock

  lemma {:induction false} RunSnoc(s: State, steps: seq<Step>, step: Step)
    requires SafeRun(s, steps) && WordSafe(Run(s, steps), step)
    ensures SafeRun(s, steps + [step]) && Run(s, steps + [step]) == Apply(Run(s, steps), step)
    decreases |steps|
  {
    hide Apply, WordSafe;
    if steps == [] {
      assert [] + [step] == [step] && [step][1..] == [];
    } else {
      assert (steps + [step])[1..] == steps[1..] + [step];
      RunSnoc(Apply(s, steps[0]), steps[1..], step);
    }
  }

  lemma Next(cells: nat, s: State, step: Step)
    requires Reachable(cells, s) && WordSafe(s, step)
    ensures Reachable(cells, Apply(s, step))
  {
    hide Apply, WordSafe, Init;
    var steps :| SafeRun(Init(cells), steps) && Run(Init(cells), steps) == s;
    RunSnoc(Init(cells), steps, step);
  }

  lemma ReachableStart(cells: nat)
    ensures Reachable(cells, Init(cells))
  {
    assert SafeRun(Init(cells), []) && Run(Init(cells), []) == Init(cells);
  }

  // ---- What one or two steps make of a reachable state ----

  // A handle opens with its registration.
  lemma Registers(cells: nat, s: State, h: HandleId, slot: nat, epoch: nat) returns (s': State)
    requires Reachable(cells, s) && h !in s.handles && 1 <= epoch < 4096
    requires slot < |s.slots| && s.slots[slot].holder.None?
    ensures Reachable(cells, s')
    ensures s' ==
            s.(handles := s.handles[h := Open(TagOf(epoch, slot))],
            slots := s.slots[slot := RegSlot(TagOf(epoch, slot), Some(h))])
  {
    Next(cells, s, LockSlot(h, slot));
    var mid := Apply(s, LockSlot(h, slot));
    Next(cells, mid, StoreTag(h, epoch));
    s' := Apply(mid, StoreTag(h, epoch));
    assert s'.handles == s.handles[h := Open(TagOf(epoch, slot))];
  }

  lemma OpensBare(cells: nat, s: State, h: HandleId) returns (s': State)
    requires Reachable(cells, s) && h !in s.handles
    ensures Reachable(cells, s') && s' == s.(handles := s.handles[h := Open(0)])
  {
    Next(cells, s, OpenUnregistered(h));
    s' := Apply(s, OpenUnregistered(h));
  }

  lemma Spawns(cells: nat, s: State, t: ThreadId, h: HandleId) returns (s': State)
    requires Reachable(cells, s) && IsOpen(s, h) && t !in s.threads
    ensures Reachable(cells, s') && s' == s.(threads := s.threads[t := Thread(h, Idle)])
  {
    Next(cells, s, Spawn(t, h));
    s' := Apply(s, Spawn(t, h));
  }

  // The handle goes; its slot keeps the tag and loses the kernel lock.
  lemma Crashes(cells: nat, s: State, h: HandleId, slot: nat) returns (s': State)
    requires Reachable(cells, s) && h in s.handles && slot < |s.slots| && s.slots[slot].holder == Some(h)
    ensures Reachable(cells, s') && s' == s.(handles := s.handles[h := Gone], slots := s'.slots)
    ensures |s'.slots| == |s.slots| && s'.slots[slot] == RegSlot(s.slots[slot].tag, None)
  {
    Next(cells, s, Crash(h));
    s' := Apply(s, Crash(h));
  }

  lemma Begins(cells: nat, s: State, t: ThreadId, call: Call) returns (s': State)
    requires Reachable(cells, s) && Alive(s, t) && PcOf(s, t).Idle? && CallOk(s, call)
    ensures Reachable(cells, s') && s' == Goto(s, t, Trying(call))
  {
    Next(cells, s, Start(t, call));
    s' := Apply(s, Start(t, call));
  }

  ghost predicate NobodyConvicted(s: State) {
    forall u: ThreadId :: u in s.threads ==> !s.threads[u].pc.Convicted?
  }

  lemma Acquires(cells: nat, s: State, t: ThreadId, salt: nat) returns (s': State)
    requires Reachable(cells, s) && Alive(s, t) && PcOf(s, t).Trying? && PcOf(s, t).call.WriteCall? && s.word.Gen?
    requires NobodyConvicted(s)
    ensures Reachable(cells, s')
    ensures var op := PcOf(s, t).call.op;
            s' == Goto(s, t,
              Writing(op, Plan(op, s.mem), false, (s.word.gen + 1) % GENERATIONS)).(word :=
              Held(salt, SelfTag(s, t)), owner := Some(t))
  {
    Next(cells, s, Acquire(t, salt));
    s' := Apply(s, Acquire(t, salt));
  }

  // A waiter that finds the word locked watches it, and moves on to the registry.
  lemma Watches(cells: nat, s: State, t: ThreadId) returns (s': State)
    requires Reachable(cells, s) && Alive(s, t) && PcOf(s, t).Trying? && s.word.Held?
    ensures Reachable(cells, s') && s' == Goto(s, t, Watching(PcOf(s, t).call, s.word))
  {
    Next(cells, s, Observe(t));
    s' := Apply(s, Observe(t));
  }

  // It convicts an owner whose tag still stands in a slot that nobody holds.
  lemma Convicts(cells: nat, s: State, t: ThreadId) returns (s': State)
    requires Reachable(cells, s) && Alive(s, t) && PcOf(s, t).Watching? && PcOf(s, t).seen.Held?
    requires var tag := PcOf(s, t).seen.tag;
             && tag != 0 && tag != SelfTag(s, t) && tag % REGISTRY_SLOTS < |s.slots|
               && s.slots[tag % REGISTRY_SLOTS] == RegSlot(tag, None)
    ensures Reachable(cells, s') && s' == Goto(s, t, Convicted(PcOf(s, t).call, PcOf(s, t).seen))
  {
    Next(cells, s, LoadTag(t));
    var mid := Apply(s, LoadTag(t));
    assert mid == Goto(s, t, Probing(PcOf(s, t).call, PcOf(s, t).seen));
    Next(cells, mid, Probe(t));
    s' := Apply(mid, Probe(t));
    assert s'.threads == s.threads[t := s.threads[t].(pc := s'.threads[t].pc)];
  }

  lemma TakesOver(cells: nat, s: State, t: ThreadId, salt: nat) returns (s': State)
    requires Reachable(cells, s) && Alive(s, t) && PcOf(s, t).Convicted? && s.word == PcOf(s, t).seen
    requires NobodyElseConvicted(s, t)
    ensures Reachable(cells, s')
    ensures s' ==
            Goto(s, t, Sanitizing(PcOf(s, t).call, SanitizePlan())).(word := Held(salt, SelfTag(s, t)),
            owner := Some(t))
  {
    Next(cells, s, TakeOver(t, salt));
    s' := Apply(s, TakeOver(t, salt));
  }

  ghost predicate NobodyElseConvicted(s: State, t: ThreadId) {
    forall u: ThreadId :: u in s.threads && u != t ==> !s.threads[u].pc.Convicted?
  }

  // All the stores an owner still has to make.
  lemma {:induction false} Writes(
    cells: nat, s: State, t: ThreadId, op: Op, todo: seq<Store>, tookOver: bool, next: nat)
    returns (s': State)
    requires Reachable(cells, s) && Alive(s, t) && PcOf(s, t) == Writing(op, todo, tookOver, next)
    ensures Reachable(cells, s') && s' == Goto(s, t, Writing(op, [], tookOver, next)).(mem := StoreAll(s.mem, todo))
    decreases |todo|
  {
    if todo == [] {
      s' := s;
      assert s.threads == s.threads[t := s.threads[t]];
    } else {
      Next(cells, s, DoStore(t));
      var mid := Apply(s, DoStore(t));
      s' := Writes(cells, mid, t, op, todo[1..], tookOver, next);
      assert s'.threads == s.threads[t := s.threads[t].(pc := s'.threads[t].pc)];
    }
  }

  lemma {:induction false} Sanitizes(
    cells: nat, s: State, t: ThreadId, call: Call, todo: seq<Store>) returns (s': State)
    requires Reachable(cells, s) && Alive(s, t) && PcOf(s, t) == Sanitizing(call, todo)
    ensures Reachable(cells, s') && s' == Goto(s, t, Sanitizing(call, [])).(mem := StoreAll(s.mem, todo))
    decreases |todo|
  {
    if todo == [] {
      s' := s;
      assert s.threads == s.threads[t := s.threads[t]];
    } else {
      Next(cells, s, DoStore(t));
      var mid := Apply(s, DoStore(t));
      s' := Sanitizes(cells, mid, t, call, todo[1..]);
      assert s'.threads == s.threads[t := s.threads[t].(pc := s'.threads[t].pc)];
    }
  }

  // A publication as every thread sees it.
  ghost predicate Published(s: State, t: ThreadId, gen: nat, commits: seq<Commit>, pc: Pc, s': State)
    requires t in s.threads
  {
    && s' == s.(word := Gen(gen), owner := None, log := s.log + commits, threads := s'.threads)
    && s'.threads.Keys == s.threads.Keys && s'.threads[t] == s.threads[t].(pc := pc)
    && forall x: ThreadId ::
      x in s.threads && x != t ==> s'.threads[x] == s.threads[x].(pc := Spoil(s.threads[x].pc, gen))
  }

  lemma Releases(cells: nat, s: State, t: ThreadId, op: Op, next: nat) returns (s': State)
    requires Reachable(cells, s) && Alive(s, t) && PcOf(s, t) == Writing(op, [], false, next)
    ensures Reachable(cells, s') && Published(s, t, next, [Committed(op)], Idle, s')
  {
    Next(cells, s, Release(t));
    s' := Apply(s, Release(t));
  }

  // A reader that took over publishes a generation of its choice and reads on.
  lemma Proceeds(cells: nat, s: State, t: ThreadId, gen: nat) returns (s': State)
    requires Reachable(cells, s) && Alive(s, t) && PcOf(s, t) == Sanitizing(ReadCall, []) && gen < GENERATIONS
    ensures Reachable(cells, s') && Published(s, t, gen, [Sanitized], Trying(ReadCall), s')
  {
    Next(cells, s, Proceed(t, gen));
    s' := Apply(s, Proceed(t, gen));
  }

  lemma BeginsRead(cells: nat, s: State, t: ThreadId) returns (s': State)
    requires Reachable(cells, s) && Alive(s, t) && PcOf(s, t) == Trying(ReadCall) && s.word.Gen?
    ensures Reachable(cells, s') && s' == Goto(s, t, Reading(s.word.gen, true, Some(s.mem.live), []))
  {
    Next(cells, s, BeginRead(t));
    var mid := Apply(s, BeginRead(t));
    Next(cells, mid, Copy(t));
    s' := Apply(mid, Copy(t));
    assert s'.threads == s.threads[t := s.threads[t].(pc := s'.threads[t].pc)];
  }

  // Of a payload of one cell: the reader copies it and looks at the word again.
  lemma EndsRead(cells: nat, s: State, t: ThreadId, before: nat, clean: bool) returns (s': State)
    requires Reachable(cells, s) && Alive(s, t) && PcOf(s, t) == Reading(before, clean, Some(true), [])
    requires |s.mem.body| == 1 && s.word == Gen(before)
    ensures Reachable(cells, s') && PcOf(s', t) == Returned(Some(s.mem.body), clean) && s'.log == s.log
  {
    Next(cells, s, Copy(t));
    var mid := Apply(s, Copy(t));
    assert [] + [s.mem.body[0]] == s.mem.body;
    Next(cells, mid, Check(t));
    s' := Apply(mid, Check(t));
  }

  // ---- The same word stored twice ----

  // Handle 1 deletes through thread 10 and goes, after thread 20 has seen its word; thread 20 then convicts it.
  lemma VerdictOverDeparted() returns (s: State)
    ensures Reachable(2, s) && s.word.Gen?
    ensures s.handles == map[1 := Gone, 2 := Open(0)] && |s.slots| == REGISTRY_SLOTS && s.slots[0] == RegSlot(64, None)
    ensures 20 in s.threads && s.threads[20] == Thread(2, Convicted(WriteCall(Delete), Held(5, 64)))
    ensures 30 !in s.threads
  {
    hide Reachable, Apply, Run;
    ReachableStart(2);
    s := Registers(2, Init(2), 1, 0, 1);
    s := OpensBare(2, s, 2);
    s := Spawns(2, s, 10, 1);
    s := Spawns(2, s, 20, 2);
    s := Begins(2, s, 10, WriteCall(Delete));
    s := Acquires(2, s, 10, 5);
    s := Begins(2, s, 20, WriteCall(Delete));
    s := Watches(2, s, 20);
    s := Releases(2, s, 10, Delete, 1);
    s := Crashes(2, s, 1, 0);
    s := Convicts(2, s, 20);
  }

  // Handle 3 then opens under the same tag and its thread acquires with the same salt: the word that thread 20 is
  // about to exchange stands again, and its takeover gets it in beside a live owner.
  lemma RobberyHappens() returns (s: State, step: Step)
    ensures Reachable(2, s) && Locks(s, step) && !WordSafe(s, step)
    ensures var s' := Apply(Apply(s, step), TakeOver(20, 9));
            && Alive(s', 30) && InCritical(PcOf(s', 30)) && Alive(s', 20) && InCritical(PcOf(s', 20))
  {
    s := VerdictOverDeparted();
    hide Reachable, Run;
    s := Registers(2, s, 3, 0, 1);
    s := Spawns(2, s, 30, 3);
    s := Begins(2, s, 30, WriteCall(Delete));
    step := Acquire(30, 5);
    assert PcOf(s, 20).seen == Held(5, SelfTag(s, 30));
  }

  // ---- The same generation published twice ----

  // Thread 10 of handle 1 stores [5].
  lemma FiveStored() returns (s: State)
    ensures Reachable(1, s) && s.word == Gen(1) && s.mem == Mem(true, [5]) && s.log == [Committed(Write([5]))]
    ensures s.handles == map[1 := Open(64), 2 := Open(0)] && |s.slots| == REGISTRY_SLOTS
            && s.slots[0] == RegSlot(64, Some(1))
    ensures s.threads.Keys == {10, 20, 21} && s.threads[10] == Thread(1, Idle)
    ensures s.threads[20] == Thread(2, Idle) && s.threads[21] == Thread(2, Idle)
  {
    hide Reachable, Apply, Run;
    ReachableStart(1);
    s := Registers(1, Init(1), 1, 0, 1);
    s := OpensBare(1, s, 2);
    s := Spawns(1, s, 10, 1);
    s := Spawns(1, s, 20, 2);
    s := Spawns(1, s, 21, 2);
    s := Begins(1, s, 10, WriteCall(Write([5])));
    s := Acquires(1, s, 10, 1);
    StoresFive(s.mem);
    s := Writes(1, s, 10, Write([5]), Plan(Write([5]), s.mem), false, 1);
    s := Releases(1, s, 10, Write([5]), 1);
  }

  // Thread 20 of handle 2 starts to read, and handle 1 goes in the middle of a delete.
  lemma ReaderUnderWay() returns (s: State)
    ensures Reachable(1, s) && s.word == Held(1, 64) && s.mem == Mem(true, [5]) && s.log == [Committed(Write([5]))]
    ensures s.handles == map[1 := Gone, 2 := Open(0)] && |s.slots| == REGISTRY_SLOTS && s.slots[0] == RegSlot(64, None)
    ensures s.threads.Keys == {10, 20, 21} && NobodyConvicted(s)
    ensures s.threads[20] == Thread(2, Reading(1, true, Some(true), [])) && s.threads[21] == Thread(2, Idle)
  {
    s := FiveStored();
    hide Reachable, Apply, Run;
    s := Begins(1, s, 20, ReadCall);
    s := BeginsRead(1, s, 20);
    s := Begins(1, s, 10, WriteCall(Delete));
    s := Acquires(1, s, 10, 1);
    s := Crashes(1, s, 1, 0);
  }

  lemma StoresFive(mem: Mem)
    requires |mem.body| == 1
    ensures StoreAll(mem, Plan(Write([5]), mem)) == Mem(true, [5])
  {
    PutsWriteBody(mem, [5], 1);
    assert Puts([5])[..1] == Puts([5]);
    StoreAllConcat(mem, Puts([5]), [Mark(true)]);
    var mid := StoreAll(mem, Puts([5]));
    assert StoreAll(mid, [Mark(true)]) == StoreAll(StoreOne(mid, Mark(true)), []);
  }

  // Thread 21 takes over, clears the slot and happens to publish the generation thread 20 started from: the read
  // returns [0], which is neither what the slot holds now nor what it ever held.
  lemma StaleReadHappens() returns (s: State)
    ensures Reachable(1, s) && PcOf(s, 20) == Returned(Some([0]), false)
    ensures forall n :: 0 <= n <= |s.log| ==> Replay(s.log[..n]) != Some([0])
  {
    s := ReaderUnderWay();
    hide Reachable, Apply, Run;
    s := Begins(1, s, 21, ReadCall);
    s := Watches(1, s, 21);
    s := Convicts(1, s, 21);
    s := TakesOver(1, s, 21, 7);
    Cleared(s.mem);
    s := Sanitizes(1, s, 21, ReadCall, SanitizePlan());
    s := Proceeds(1, s, 21, 1);
    s := EndsRead(1, s, 20, 1, false);
    NeverZero(s.log);
  }

  lemma Cleared(mem: Mem)
    requires |mem.body| == 1
    ensures StoreAll(mem, SanitizePlan()) == Mem(false, [0])
  {
    var plan := SanitizePlan();
    assert plan[1..] == [Put(1, 0), Mark(false)] && plan[1..][1..] == [Mark(false)] && plan[1..][1..][1..] == [];
    var one := StoreOne(mem, plan[0]);
    assert one.body == [0];
    assert StoreAll(mem, plan) == StoreAll(one, plan[1..]) == StoreAll(StoreOne(one, Put(1, 0)), [Mark(false)]);
    assert StoreAll(one, [Mark(false)]) == StoreAll(StoreOne(one, Mark(false)), []);
  }

  lemma NeverZero(log: seq<Commit>)
    requires log == [Committed(Write([5]))] + [Sanitized]
    ensures forall n :: 0 <= n <= |log| ==> Replay(log[..n]) != Some([0])
  {
    forall n | 0 <= n <= |log| ensures Replay(log[..n]) != Some([0]) {
      if n == 1 {
        assert log[..1] == [Committed(Write([5]))];
        assert Replay(log[..1]) == Some([5]);
      } else if n == 2 {
        assert log[..2][1] == Sanitized;
      }
    }
  }
}
