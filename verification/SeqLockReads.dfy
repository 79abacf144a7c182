/** Why an ordinary read is undisturbed: releases count generations up one by one, and it takes as many of them as a
    word has generations, 2^31, to come back to the one a read began with. */
module SeqLockReads {
  import opened Core
  import opened SeqLock

  // The generations are all the values of a word that is not locked.
  lemma GenerationsFillTheMask()
    ensures GENERATIONS == GEN_MASK as int + 1 == 0x8000_0000
  {
  }

  // A publication that follows a takeover, whose generation nobody counted up to.
  predicate Sanitizes(s: State, step: Step) {
    Publishes(s, step).Some? && (step.Proceed? || PcOf(s, step.t).tookOver)
  }

  // While `t` reads: it does not come to its check, and nothing is published after a takeover.
  ghost predicate Undisturbed(s: State, t: ThreadId, steps: seq<Step>)
    decreases |steps|
  {
    steps != [] ==>
      steps[0] != Check(t) && !Sanitizes(s, steps[0]) && Undisturbed(Apply(s, steps[0]), t, steps[1..])
  }

  // How many writers release the slot.
  function Releases(s: State, steps: seq<Step>): nat
    decreases |steps|
  {
    if steps == [] then 0
    else (if Publishes(s, steps[0]).Some? then 1 else 0) + Releases(Apply(s, steps[0]), steps[1..])
  }

  // Every generation there is, or is about to be, is one a word can hold.
  ghost predicate GensOk(s: State) {
    && (s.word.Gen? ==> s.word.gen < GENERATIONS)
    && forall u: ThreadId :: PcOf(s, u).Writing? ==> PcOf(s, u).next < GENERATIONS
  }

  lemma GensStep(s: State, step: Step)
    requires GensOk(s)
    ensures GensOk(Apply(s, step))
  {
    if Publishes(s, step).Some? {
      PublishLeaves(s, step);
    } else {
      var u := Mover(step);
      OthersPc(s, step);
      NextOfMover(s, step);
      hide Apply;
      assert forall v: ThreadId :: v != u ==> PcOf(Apply(s, step), v) == PcOf(s, v);
    }
  }

  // The thread a step is about; opening and dying are about none.
  function Mover(step: Step): ThreadId {
    if step.LockSlot? || step.StoreTag? || step.OpenUnregistered? || step.Crash? then 0 else step.t
  }

  // Who publishes is done; the others at most find their reads spoilt.
  lemma PublishLeaves(s: State, step: Step)
    requires Publishes(s, step).Some?
    ensures var s' := Apply(s, step);
            && s'.word == Gen(Publishes(s, step).value) && s'.handles == s.handles
            && (PcOf(s', step.t) == Idle || PcOf(s', step.t) == Trying(ReadCall))
            && forall v: ThreadId :: v != step.t ==>
                 PcOf(s', v) == Spoil(PcOf(s, v), Publishes(s, step).value) && (Alive(s', v) <==> Alive(s, v))
  {
  }

  // Other steps leave the other threads where they are.
  lemma OthersPc(s: State, step: Step)
    requires Publishes(s, step).None?
    ensures forall v: ThreadId :: v != Mover(step) ==> PcOf(Apply(s, step), v) == PcOf(s, v)
  {
    hide Plan, StoreOne, SanitizePlan, OpOk;
  }

  // No step wakes a thread.
  lemma NobodyWakes(s: State, step: Step)
    requires forall v: ThreadId :: HomeOk(s, v)
    ensures forall v: ThreadId :: v in s.threads && Alive(Apply(s, step), v) ==> Alive(s, v)
  {
    hide Plan, StoreOne, SanitizePlan, OpOk;
    forall v: ThreadId | v in s.threads && Alive(Apply(s, step), v) ensures Alive(s, v) {
      assert HomeOk(s, v);
    }
  }

  // What a step that does not publish does to the word, and to the generation its thread will publish.
  lemma NextOfMover(s: State, step: Step)
    requires Publishes(s, step).None?
    ensures var (s', u) := (Apply(s, step), Mover(step));
            && (s'.word == s.word || s'.word.Held?)
            && (PcOf(s', u).Writing? ==>
                  || (PcOf(s, u).Writing? && PcOf(s', u).next == PcOf(s, u).next
                      && PcOf(s', u).tookOver == PcOf(s, u).tookOver)
                  || (PcOf(s', u).tookOver && PcOf(s', u).next < GENERATIONS)
                  || (s.word.Gen? && PcOf(s', u).next == (s.word.gen + 1) % GENERATIONS))
  {
    hide Plan, StoreOne, SanitizePlan, OpOk, ApplyLockSlot, ApplyStoreTag, ApplyCrash;
    HandleSteps(s, step);
  }

  lemma HandleSteps(s: State, step: Step)
    ensures step.LockSlot? || step.StoreTag? || step.Crash? ==>
              Apply(s, step).threads == s.threads && Apply(s, step).word == s.word
  {
  }

  lemma {:induction false} GensRun(s: State, steps: seq<Step>)
    requires GensOk(s)
    ensures GensOk(Run(s, steps))
    decreases |steps|
  {
    if steps != [] {
      GensStep(s, steps[0]);
      GensRun(Apply(s, steps[0]), steps[1..]);
    }
  }

  // After `r` releases since `t` began to read at generation `g`: the word is r further on when it is free, the writer
  // inside will set it one further still, and until it has gone all the way round the read is clean.
  ghost predicate Counted(s: State, t: ThreadId, g: nat, r: nat) {
    && PcOf(s, t).Reading? && PcOf(s, t).before == g && (r < GENERATIONS ==> PcOf(s, t).clean)
    && (s.word.Gen? ==> s.word.gen == (g + r) % GENERATIONS)
    && forall u: ThreadId :: Alive(s, u) && PcOf(s, u).Writing? && !PcOf(s, u).tookOver ==>
         PcOf(s, u).next == (g + r + 1) % GENERATIONS
  }

  lemma ReadCounted(s: State, t: ThreadId)
    requires Inv(s) && GensOk(s) && Alive(s, t) && PcOf(s, t) == Trying(ReadCall) && s.word.Gen?
    ensures Counted(Apply(s, BeginRead(t)), t, s.word.gen, 0) && Inv(Apply(s, BeginRead(t)))
  {
    NobodyInside(s);
    InvStep(s, BeginRead(t));
    hide Inv;
  }

  lemma TurnedRound(g: nat, k: nat)
    requires g < GENERATIONS && 0 < k < GENERATIONS
    ensures (g + k) % GENERATIONS != g
  {
  }

  lemma CountedStep(s: State, t: ThreadId, g: nat, r: nat, step: Step)
    requires Inv(s) && Counted(s, t, g, r) && step != Check(t) && !Sanitizes(s, step) && g < GENERATIONS
    ensures Counted(Apply(s, step), t, g, if Publishes(s, step).Some? then r + 1 else r)
  {
    if Publishes(s, step).Some? {
      PublishLeaves(s, step);
      CountedPublish(s, t, g, r, step);
    } else {
      OthersPc(s, step);
      NextOfMover(s, step);
      HomesOk(s);
      NobodyWakes(s, step);
      ReaderStays(s, t, step);
      hide Inv, Apply;
      CountedMove(s, Apply(s, step), t, g, r, Mover(step));
    }
  }

  lemma HomesOk(s: State)
    requires Inv(s)
    ensures forall v: ThreadId :: HomeOk(s, v)
  {
    forall v: ThreadId ensures HomeOk(s, v) {
      assert v in s.threads ==> ThreadOk(s, v);
    }
  }

  // Short of its check a reader goes on reading.
  lemma ReaderStays(s: State, t: ThreadId, step: Step)
    requires PcOf(s, t).Reading? && step != Check(t) && Publishes(s, step).None?
    ensures var (was, pc) := (PcOf(s, t), PcOf(Apply(s, step), t));
            pc.Reading? && pc.before == was.before && pc.clean == was.clean
  {
    hide Plan, StoreOne, SanitizePlan, OpOk, ApplyLockSlot, ApplyStoreTag, ApplyCrash;
    HandleSteps(s, step);
  }

  lemma CountedMove(s: State, s': State, t: ThreadId, g: nat, r: nat, u: ThreadId)
    requires Counted(s, t, g, r) && (s'.word == s.word || s'.word.Held?)
    requires forall v: ThreadId :: v != u ==> PcOf(s', v) == PcOf(s, v)
    requires forall v: ThreadId :: v in s.threads && Alive(s', v) ==> Alive(s, v)
    requires var (was, pc) := (PcOf(s, t), PcOf(s', t)); pc.Reading? && pc.before == was.before && pc.clean == was.clean
    requires PcOf(s', u).Writing? ==>
               || (PcOf(s, u).Writing? && PcOf(s', u).next == PcOf(s, u).next
                   && PcOf(s', u).tookOver == PcOf(s, u).tookOver)
               || PcOf(s', u).tookOver
               || (s.word.Gen? && PcOf(s', u).next == (s.word.gen + 1) % GENERATIONS)
    ensures Counted(s', t, g, r)
  {
    hide Alive;
    forall v: ThreadId | Alive(s', v) && PcOf(s', v).Writing? && !PcOf(s', v).tookOver
      ensures PcOf(s', v).next == (g + r + 1) % GENERATIONS {
      if PcOf(s, v).Writing? && PcOf(s', v).next == PcOf(s, v).next && PcOf(s', v).tookOver == PcOf(s, v).tookOver {
        assert v in s.threads;
      } else {
        assert v == u;
        NextGeneration(g, r);
      }
    }
  }

  lemma NextGeneration(g: nat, r: nat)
    ensures ((g + r) % GENERATIONS + 1) % GENERATIONS == (g + r + 1) % GENERATIONS
  {
  }

  // A release counts one up, and leaves nobody inside.
  lemma CountedPublish(s: State, t: ThreadId, g: nat, r: nat, step: Step)
    requires Inv(s) && Counted(s, t, g, r) && g < GENERATIONS && Publishes(s, step).Some? && !Sanitizes(s, step)
    ensures Counted(Apply(s, step), t, g, r + 1)
  {
    PublishLeaves(s, step);
    var (s', gen) := (Apply(s, step), Publishes(s, step).value);
    assert gen == (g + r + 1) % GENERATIONS && step.t != t;
    SoleOwner(s, step.t);
    if r + 1 < GENERATIONS {
      TurnedRound(g, r + 1);
    }
    hide Inv, Apply, Publishes, Alive;
  }

  // However the steps fall, while fewer than 2^31 releases and no sanitization fall into a read, it stays clean.
  lemma {:induction false} ReadStaysClean(s: State, t: ThreadId, g: nat, r: nat, steps: seq<Step>)
    requires Inv(s) && Counted(s, t, g, r) && g < GENERATIONS && SafeRun(s, steps) && Undisturbed(s, t, steps)
    ensures Counted(Run(s, steps), t, g, r + Releases(s, steps))
    decreases |steps|
  {
    hide Inv, Counted, Apply, Publishes, WordSafe, Sanitizes;
    if steps != [] {
      CountedStep(s, t, g, r, steps[0]);
      InvStep(s, steps[0]);
      ReadStaysClean(Apply(s, steps[0]), t, g, if Publishes(s, steps[0]).Some? then r + 1 else r, steps[1..]);
    }
  }

  // A read that begins, and comes to its check after any steps of anybody among which are fewer than 2^31 releases and
  // no publication after a takeover: if it returns, it returns the object that the operations finished by then amount
  // to. The writes that fall into it make it try again, or are all in what it returns.
  lemma OrdinaryReadsAreAtomic(cells: nat, s: State, t: ThreadId, steps: seq<Step>)
    requires Reachable(cells, s) && Alive(s, t) && PcOf(s, t) == Trying(ReadCall) && s.word.Gen?
    requires SafeRun(Apply(s, BeginRead(t)), steps) && Undisturbed(Apply(s, BeginRead(t)), t, steps)
    requires Releases(Apply(s, BeginRead(t)), steps) < 0x8000_0000
    ensures var s' := Run(Apply(s, BeginRead(t)), steps);
            var pc := PcOf(Apply(s', Check(t)), t);
            PcOf(s', t).Reading? && (Alive(s', t) && pc.Returned? ==> pc.value == Replay(s'.log))
  {
    hide Reachable, SafeRun, Undisturbed, Inv, Apply, Run, Alive, Releases;
    ReachableInv(cells, s);
    ReachableGens(cells, s);
    ReadCounted(s, t);
    var s1 := Apply(s, BeginRead(t));
    ReadStaysClean(s1, t, s.word.gen, 0, steps);
    InvRun(s1, steps);
    if Alive(Run(s1, steps), t) {
      CleanReadReturns(Run(s1, steps), t);
    }
  }

  lemma ReachableGens(cells: nat, s: State)
    requires Reachable(cells, s)
    ensures GensOk(s)
  {
    var steps :| SafeRun(Init(cells), steps) && Run(Init(cells), steps) == s;
    GensRun(Init(cells), steps);
  }

  lemma CleanReadReturns(s: State, t: ThreadId)
    requires Inv(s) && PcOf(s, t).Reading? && PcOf(s, t).clean && Alive(s, t)
    ensures var pc := PcOf(Apply(s, Check(t)), t); pc.Returned? ==> pc.value == Replay(s.log)
  {
    assert ThreadOk(s, t) && MemOk(s);
    assert s.mem.body[..|s.mem.body|] == s.mem.body;
    hide Inv, RegistryOk, OwnerOk, WriterOk, JudgeOk;
  }

  // The bound is the right one: after exactly 2^31 releases a free word shows the generation the read began with, and a
  // read that has copied all it needs returns, whatever of it is old.
  lemma FullTurnReturns(cells: nat, s: State, t: ThreadId, steps: seq<Step>)
    requires Reachable(cells, s) && Alive(s, t) && PcOf(s, t) == Trying(ReadCall) && s.word.Gen?
    requires SafeRun(Apply(s, BeginRead(t)), steps) && Undisturbed(Apply(s, BeginRead(t)), t, steps)
    requires Releases(Apply(s, BeginRead(t)), steps) == 0x8000_0000
    requires var s' := Run(Apply(s, BeginRead(t)), steps);
             && Alive(s', t) && s'.word.Gen? && PcOf(s', t).Reading? && PcOf(s', t).flag.Some?
             && (PcOf(s', t).flag.value ==> |PcOf(s', t).got| == |s'.mem.body|)
    ensures PcOf(Apply(Run(Apply(s, BeginRead(t)), steps), Check(t)), t).Returned?
  {
    hide Reachable, SafeRun, Undisturbed, Inv, Apply, Run, Alive, Releases;
    ReachableInv(cells, s);
    ReachableGens(cells, s);
    ReadCounted(s, t);
    var s1 := Apply(s, BeginRead(t));
    ReadStaysClean(s1, t, s.word.gen, 0, steps);
    assert (s.word.gen + GENERATIONS) % GENERATIONS == s.word.gen;
    var s2 := Run(s1, steps);
    assert s2.word == Gen(PcOf(s2, t).before);
    hide Counted;
    CheckReturns(s2, t);
  }

  lemma CheckReturns(s: State, t: ThreadId)
    requires Alive(s, t) && PcOf(s, t).Reading? && PcOf(s, t).flag.Some? && s.word == Gen(PcOf(s, t).before)
    requires PcOf(s, t).flag.value ==> |PcOf(s, t).got| == |s.mem.body|
    ensures PcOf(Apply(s, Check(t)), t).Returned?
  {
  }

  // A tag names its registry slot, of 64, and the epoch of the handle that has it; it is not 0 and fits the identity
  // bits of a lock word.
  lemma TagsAreDistinct(epoch: nat, slot: nat)
    requires 1 <= epoch < 4096 && slot < 64
    ensures TagOf(epoch, slot) % 64 == slot && TagOf(epoch, slot) / 64 == epoch
    ensures 0 < TagOf(epoch, slot) <= TAG_MASK as int && REGISTRY_SLOTS == 64
  {
  }

  // A sanitized slot is not live, and what a later writer would trust without being told is cleared.
  lemma SanitizedIsCleared(mem: Mem)
    requires |mem.body| >= 2
    ensures StoreAll(mem, SanitizePlan()) == Mem(false, mem.body[0 := 0][1 := 0])
  {
    var (a, b, c) := (Put(0, 0), Put(1, 0), Mark(false));
    assert SanitizePlan() == [a, b, c] && [a, b, c][1..] == [b, c] && [b, c][1..] == [c] && [c][1..] == [];
    var m1 := StoreOne(mem, a);
    var m2 := StoreOne(m1, b);
    assert StoreAll(m2, [c]) == StoreAll(StoreOne(m2, c), []);
    assert StoreAll(m1, [b, c]) == StoreAll(m2, [c]);
  }
}
