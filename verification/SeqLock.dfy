/** The lock of one slot (seqlock.rs) with the opener registry behind it (format.rs), as a machine of
    atomic steps: handles open and crash at any point, writers store cell by cell, readers copy cell by cell,
    waiters watch, judge and take over. */
module SeqLock {
  import opened Core

  type HandleId = nat
  type ThreadId = nat

  const REGISTRY_SLOTS: nat := 64
  const GENERATIONS: nat := 0x8000_0000

  // The lock word: a generation when unlocked, else the owner's tag and a salt of the acquisition.
  datatype Word = Gen(gen: nat) | Held(salt: nat, tag: nat)

  // A slot's payload: the flag that makes it live, and everything else.
  datatype Mem = Mem(live: bool, body: seq<nat>)
  datatype Store = Put(at: nat, value: nat) | Mark(live: bool)

  // What a writer does under the lock: write_node, update_neighbors or write_neighbors, delete_node.
  datatype Op = Write(body: seq<nat>) | Update(puts: seq<Store>) | Delete
  datatype Commit = Committed(op: Op) | Sanitized
  datatype Call = WriteCall(op: Op) | ReadCall

  datatype Pc =
    | Idle
    | Trying(call: Call)
    | Watching(call: Call, seen: Word)
    | Probing(call: Call, seen: Word)
    | Convicted(call: Call, seen: Word)
    | Sanitizing(call: Call, todo: seq<Store>)
    | Writing(op: Op, todo: seq<Store>, tookOver: bool, next: nat)
    | Reading(before: nat, clean: bool, flag: Option<bool>, got: seq<nat>)
    | Returned(value: Option<seq<nat>>, undisturbed: bool)
    | FellBack

  datatype Handle = Opening(slot: nat) | Open(tag: nat) | Gone
  datatype RegSlot = RegSlot(tag: nat, holder: Option<HandleId>)
  datatype Thread = Thread(handle: HandleId, pc: Pc)

  datatype State = State(
    word: Word, owner: Option<ThreadId>, mem: Mem, log: seq<Commit>,
    slots: seq<RegSlot>, handles: map<HandleId, Handle>, threads: map<ThreadId, Thread>)

  datatype Step =
    | LockSlot(h: HandleId, slot: nat)
    | StoreTag(h: HandleId, epoch: nat)
    | OpenUnregistered(h: HandleId)
    | Crash(h: HandleId)
    | Spawn(t: ThreadId, h: HandleId)
    | Start(t: ThreadId, call: Call)
    | Acquire(t: ThreadId, salt: nat)
    | Observe(t: ThreadId)
    | LoadTag(t: ThreadId)
    | Probe(t: ThreadId)
    | TakeOver(t: ThreadId, salt: nat)
    | DoStore(t: ThreadId)
    | Proceed(t: ThreadId, fresher: nat)
    | Release(t: ThreadId)
    | BeginRead(t: ThreadId)
    | Copy(t: ThreadId)
    | Check(t: ThreadId)

  // ---- The meaning of the payload and of the log ----

  function Decode(mem: Mem): Option<seq<nat>> {
    if mem.live then Some(mem.body) else None
  }

  function StoreOne(mem: Mem, s: Store): Mem {
    match s
    case Put(at, value) => if at < |mem.body| then mem.(body := mem.body[at := value]) else mem
    case Mark(live) => mem.(live := live)
  }

  function StoreAll(mem: Mem, todo: seq<Store>): Mem
    decreases |todo|
  {
    if todo == [] then mem else StoreAll(StoreOne(mem, todo[0]), todo[1..])
  }

  // The stores of a whole write: every cell, the flag last.
  function Puts(body: seq<nat>): seq<Store> {
    seq(|body|, i requires 0 <= i < |body| => Put(i, body[i]))
  }

  // The stores an operation makes once it holds the lock and has looked at the flag.
  function Plan(op: Op, mem: Mem): seq<Store> {
    match op
    case Write(body) => Puts(body) + [Mark(true)]
    case Update(puts) => if mem.live then puts else []
    case Delete => if mem.live then [Mark(false)] else []
  }

  // slot_sanitizer: the upper index and the key length are cleared before the flag.
  function SanitizePlan(): seq<Store> {
    [Put(0, 0), Put(1, 0), Mark(false)]
  }

  // The atomic object the slot stands for.
  function Effect(op: Op, value: Option<seq<nat>>): Option<seq<nat>> {
    match op
    case Write(body) => Some(body)
    case Update(puts) => if value.Some? then Decode(StoreAll(Mem(true, value.value), puts)) else None
    case Delete => None
  }

  function Replay(log: seq<Commit>): Option<seq<nat>> {
    if log == [] then None
    else
      var last := |log| - 1;
      match log[last]
      case Committed(op) => Effect(op, Replay(log[..last]))
      case Sanitized => None
  }

  predicate OpOk(op: Op, cells: nat) {
    match op
    case Write(body) => |body| == cells
    case Update(puts) => forall i :: 0 <= i < |puts| ==> puts[i].Put?
    case Delete => true
  }

  // ---- Steps ----

  function TagOf(epoch: nat, slot: nat): nat {
    epoch * REGISTRY_SLOTS + slot
  }

  predicate Names(word: Word, tag: nat) {
    word.Held? && word.tag == tag
  }

  predicate IsOpen(s: State, h: HandleId) {
    h in s.handles && s.handles[h].Open?
  }

  // A thread moves only while its handle is open.
  predicate Alive(s: State, t: ThreadId) {
    t in s.threads && IsOpen(s, s.threads[t].handle)
  }

  function PcOf(s: State, t: ThreadId): Pc {
    if t in s.threads then s.threads[t].pc else Idle
  }

  function SelfTag(s: State, t: ThreadId): nat
    requires Alive(s, t)
  {
    s.handles[s.threads[t].handle].tag
  }

  function Goto(s: State, t: ThreadId, pc: Pc): State
    requires t in s.threads
  {
    s.(threads := s.threads[t := s.threads[t].(pc := pc)])
  }

  // The owner's word at the time, judged neither dead: a reader falls back, a writer keeps waiting.
  function GiveUp(call: Call): Pc {
    if call.ReadCall? then FellBack else Trying(call)
  }

  // Publishing a generation spoils the reads that started from that same generation.
  function Spoil(pc: Pc, gen: nat): Pc {
    if pc.Reading? && pc.before == gen then pc.(clean := false) else pc
  }

  function Publish(s: State, t: ThreadId, gen: nat, commits: seq<Commit>): State
    requires t in s.threads
  {
    var threads := map x | x in s.threads :: s.threads[x].(pc := Spoil(s.threads[x].pc, gen));
    s.(word := Gen(gen), owner := None, log := s.log + commits, threads := threads[t := s.threads[t].(pc := Idle)])
  }

  function Apply(s: State, step: Step): State {
    match step
    case LockSlot(h, slot) => ApplyLockSlot(s, h, slot)
    case StoreTag(h, epoch) => ApplyStoreTag(s, h, epoch)
    case OpenUnregistered(h) => if h !in s.handles then s.(handles := s.handles[h := Open(0)]) else s
    case Crash(h) => ApplyCrash(s, h)
    case Spawn(t, h) => if IsOpen(s, h) && t !in s.threads then s.(threads := s.threads[t := Thread(h, Idle)]) else s
    case _ => if Alive(s, step.t) then ApplyThread(s, step) else s
  }

  // register_opener: the slot's kernel lock first, then the tag.
  function ApplyLockSlot(s: State, h: HandleId, slot: nat): State {
    if h !in s.handles && slot < |s.slots| && s.slots[slot].holder.None? then
      s.(handles := s.handles[h := Opening(slot)], slots := s.slots[slot := s.slots[slot].(holder := Some(h))])
    else s
  }

  function ApplyStoreTag(s: State, h: HandleId, epoch: nat): State {
    if h in s.handles && s.handles[h].Opening? && s.handles[h].slot < |s.slots| && 1 <= epoch < 4096 then
      var slot := s.handles[h].slot;
      var tag := TagOf(epoch, slot);
      s.(handles := s.handles[h := Open(tag)], slots := s.slots[slot := s.slots[slot].(tag := tag)])
    else s
  }

  // Close or death of the process: the kernel drops the handle's lock, its threads stop where they are.
  function ApplyCrash(s: State, h: HandleId): State {
    if h in s.handles then
      s.(handles := s.handles[h := Gone],
         slots := seq(|s.slots|, i requires 0 <= i < |s.slots| => if s.slots[i].holder == Some(h)
           then s.slots[i].(holder := None) else s.slots[i]))
    else s
  }

  function ApplyThread(s: State, step: Step): State
    requires !step.LockSlot? && !step.StoreTag? && !step.OpenUnregistered? && !step.Crash? && !step.Spawn?
    requires Alive(s, step.t)
  {
    var t := step.t;
    var pc := s.threads[t].pc;
    match step
    case Start(_, call) =>
      if (pc.Idle? || pc.Returned? || pc.FellBack?) && (call.WriteCall? ==> OpOk(call.op, |s.mem.body|))
        then Goto(s, t, Trying(call)) else s
    case Acquire(_, salt) =>
      if pc.Trying? && pc.call.WriteCall? && s.word.Gen? then
        var op := pc.call.op;
        Goto(s, t, Writing(op, Plan(op, s.mem), false, (s.word.gen + 1) % GENERATIONS))
          .(word := Held(salt, SelfTag(s, t)), owner := Some(t))
      else s
    case Observe(_) =>
      if pc.Trying? && s.word.Held? then Goto(s, t, Watching(pc.call, s.word)) else s
    case LoadTag(_) =>
      if pc.Watching? && pc.seen.Held? then ApplyLoadTag(s, t) else s
    case Probe(_) =>
      if pc.Probing? && pc.seen.Held? then ApplyProbe(s, t) else s
    case TakeOver(_, salt) =>
      if pc.Convicted? then
        if s.word == pc.seen then
          Goto(s, t, Sanitizing(pc.call, SanitizePlan())).(word := Held(salt, SelfTag(s, t)), owner := Some(t))
        else Goto(s, t, Trying(pc.call))
      else s
    case DoStore(_) =>
      if pc.Sanitizing? && pc.todo != [] then
        Goto(s, t, Sanitizing(pc.call, pc.todo[1..])).(mem := StoreOne(s.mem, pc.todo[0]))
      else if pc.Writing? && pc.todo != [] then
        Goto(s, t, Writing(pc.op, pc.todo[1..], pc.tookOver, pc.next)).(mem := StoreOne(s.mem, pc.todo[0]))
      else s
    case Proceed(_, fresher) =>
      if pc.Sanitizing? && pc.todo == [] then
        match pc.call
        case WriteCall(op) => Goto(s, t, Writing(op, Plan(op, s.mem), true, fresher % GENERATIONS))
        case ReadCall => Goto(Publish(s, t, fresher % GENERATIONS, [Sanitized]), t, Trying(ReadCall))
      else s
    case Release(_) =>
      if pc.Writing? && pc.todo == [] then
        Publish(s, t, pc.next, if pc.tookOver then [Sanitized, Committed(pc.op)] else [Committed(pc.op)])
      else s
    case BeginRead(_) =>
      if pc.Trying? && pc.call.ReadCall? && s.word.Gen? then Goto(s, t, Reading(s.word.gen, true, None, [])) else s
    case Copy(_) =>
      if pc.Reading? then
        if pc.flag.None? then Goto(s, t, pc.(flag := Some(s.mem.live)))
        else if pc.flag.value && |pc.got| < |s.mem.body| then Goto(s, t, pc.(got := pc.got + [s.mem.body[|pc.got|]]))
        else s
      else s
    case Check(_) =>
      if pc.Reading? && pc.flag.Some? && (pc.flag.value ==> |pc.got| == |s.mem.body|) then
        if s.word == Gen(pc.before) then Goto(s, t, Returned(if pc.flag.value then Some(pc.got) else None, pc.clean))
        else Goto(s, t, Trying(ReadCall))
      else s
  }

  // tag_is_dead, first half: the tag cell of the owner's slot.
  function ApplyLoadTag(s: State, t: ThreadId): State
    requires Alive(s, t) && s.threads[t].pc.Watching? && s.threads[t].pc.seen.Held?
  {
    var pc := s.threads[t].pc;
    var identity := pc.seen.tag;
    if identity == 0 || identity == SelfTag(s, t) then Goto(s, t, GiveUp(pc.call))
    else
      var slot := identity % REGISTRY_SLOTS;
      if slot >= |s.slots| || s.slots[slot].tag != identity then Goto(s, t, Convicted(pc.call, pc.seen))
      else Goto(s, t, Probing(pc.call, pc.seen))
  }

  // tag_is_dead, second half: the slot's kernel lock, which a handle's own probe would be granted.
  function ApplyProbe(s: State, t: ThreadId): State
    requires Alive(s, t) && s.threads[t].pc.Probing? && s.threads[t].pc.seen.Held?
  {
    var pc := s.threads[t].pc;
    var slot := pc.seen.tag % REGISTRY_SLOTS;
    var granted :=
      slot < |s.slots| && (s.slots[slot].holder.None? || s.slots[slot].holder == Some(s.threads[t].handle));
    Goto(s, t, if granted then Convicted(pc.call, pc.seen) else GiveUp(pc.call))
  }

  function Init(cells: nat): State {
    State(Gen(0), None, Mem(false, seq(cells, _ => 0)), [], seq(REGISTRY_SLOTS, _ => RegSlot(0, None)), map[], map[])
  }

  function Run(s: State, steps: seq<Step>): State
    decreases |steps|
  {
    if steps == [] then s else Run(Apply(s, steps[0]), steps[1..])
  }

  // The steps that take the lock: a first exchange on an unlocked word, or a takeover whose exchange succeeds.
  predicate Locks(s: State, step: Step) {
    match step
    case Acquire(t, _) => Alive(s, t) && PcOf(s, t).Trying? && PcOf(s, t).call.WriteCall? && s.word.Gen?
    case TakeOver(t, _) => Alive(s, t) && PcOf(s, t).Convicted? && s.word == PcOf(s, t).seen
    case _ => false
  }

  // No other live thread is about to exchange the very word that is being stored.
  ghost predicate WordSafe(s: State, step: Step) {
    Locks(s, step) ==>
      forall u: ThreadId :: Alive(s, u) && u != step.t && PcOf(s, u).Convicted? ==>
        PcOf(s, u).seen != Held(step.salt, SelfTag(s, step.t))
  }

  ghost predicate SafeRun(s: State, steps: seq<Step>)
    decreases |steps|
  {
    steps != [] ==> WordSafe(s, steps[0]) && SafeRun(Apply(s, steps[0]), steps[1..])
  }

  // ---- Invariants ----

  ghost predicate HandleOk(s: State, h: HandleId)
    requires h in s.handles && |s.slots| == REGISTRY_SLOTS
  {
    match s.handles[h]
    case Opening(slot) => slot < |s.slots| && s.slots[slot].holder == Some(h)
    case Open(tag) => tag != 0 ==> s.slots[tag % REGISTRY_SLOTS] == RegSlot(tag, Some(h))
    case Gone => true
  }

  predicate Holds(s: State, h: HandleId, slot: nat) {
    h in s.handles &&
    (s.handles[h] == Opening(slot)
      || (s.handles[h].Open? && s.handles[h].tag != 0 && s.handles[h].tag % REGISTRY_SLOTS == slot))
  }

  // Every opener holds its slot's kernel lock, nobody else does, and once open its tag stands there.
  ghost predicate RegistryOk(s: State) {
    && |s.slots| == REGISTRY_SLOTS
    && (forall h :: h in s.handles ==> HandleOk(s, h))
    && (forall i :: 0 <= i < |s.slots| && s.slots[i].holder.Some? ==> Holds(s, s.slots[i].holder.value, i))
  }

  // No open handle carries the tag.
  ghost predicate Departed(s: State, tag: nat) {
    forall h :: IsOpen(s, h) ==> s.handles[h].tag != tag
  }

  predicate ForeignSlot(tag: nat, self: nat) {
    tag != 0 && (self == 0 || tag % REGISTRY_SLOTS != self % REGISTRY_SLOTS)
  }

  predicate InCritical(pc: Pc) {
    pc.Sanitizing? || pc.Writing?
  }

  // No live thread is inside its critical section.
  ghost predicate Quiet(s: State) {
    forall t: ThreadId :: Alive(s, t) ==> !InCritical(PcOf(s, t))
  }

  // What a waiter knows of the owner it watched: once convicted, a word that still stands guards nobody.
  ghost predicate JudgeOk(s: State, t: ThreadId) {
    var pc := PcOf(s, t);
    && (pc.Convicted? && Alive(s, t) ==> pc.seen.Held? && pc.seen.tag != 0 && (s.word == pc.seen ==> Quiet(s)))
    && (pc.Probing? && Alive(s, t) ==> pc.seen.Held? && ForeignSlot(pc.seen.tag, SelfTag(s, t)))
    && (pc.Watching? ==> pc.seen.Held?)
  }

  // A live thread inside its critical section owns the lock word.
  ghost predicate OwnerOk(s: State, t: ThreadId) {
    Alive(s, t) && InCritical(PcOf(s, t)) ==> s.owner == Some(t) && Names(s.word, SelfTag(s, t))
  }

  // What the owner still has to store completes its operation, applied to the object as a whole.
  ghost predicate WriterOk(s: State, t: ThreadId) {
    var pc := PcOf(s, t);
    Alive(s, t) ==>
      && (pc.Trying? || pc.Watching? || pc.Probing? || pc.Convicted? || pc.Sanitizing? ==> CallOk(s, pc.call))
      && (pc.Sanitizing? ==> !StoreAll(s.mem, pc.todo).live)
      && (pc.Writing? ==>
        Decode(StoreAll(s.mem, pc.todo)) == Effect(pc.op, if pc.tookOver then None else Replay(s.log)))
  }

  predicate CallOk(s: State, call: Call) {
    call.WriteCall? ==> OpOk(call.op, |s.mem.body|)
  }

  // While its generation stands, what an undisturbed reader has copied is the payload itself.
  ghost predicate ReaderOk(s: State, t: ThreadId) {
    var pc := PcOf(s, t);
    && (pc.Reading? ==> |pc.got| <= |s.mem.body|)
    && (pc.Reading? && pc.clean && s.word == Gen(pc.before) ==>
          && (pc.flag.Some? ==> pc.flag.value == s.mem.live)
          && pc.got == s.mem.body[..|pc.got|])
  }

  // An unlocked slot holds the object the finished operations leave.
  ghost predicate MemOk(s: State) {
    s.word.Gen? ==> Decode(s.mem) == Replay(s.log)
  }

  // A thread belongs to a handle that has been opened.
  ghost predicate HomeOk(s: State, t: ThreadId) {
    t in s.threads ==> s.threads[t].handle in s.handles && !s.handles[s.threads[t].handle].Opening?
  }

  ghost predicate ThreadOk(s: State, t: ThreadId) {
    HomeOk(s, t) && JudgeOk(s, t) && OwnerOk(s, t) && WriterOk(s, t) && ReaderOk(s, t)
  }

  ghost predicate Inv(s: State) {
    RegistryOk(s) && MemOk(s) && forall t :: t in s.threads ==> ThreadOk(s, t)
  }

  // ---- Each step keeps them ----

  lemma {:induction false} StoreAllConcat(mem: Mem, a: seq<Store>, b: seq<Store>)
    ensures StoreAll(mem, a + b) == StoreAll(StoreAll(mem, a), b)
    decreases |a|
  {
    if a == [] {
      assert a + b == b;
    } else {
      assert (a + b)[1..] == a[1..] + b;
      StoreAllConcat(StoreOne(mem, a[0]), a[1..], b);
    }
  }

  lemma {:induction false} StoreAllSize(mem: Mem, a: seq<Store>)
    ensures |StoreAll(mem, a).body| == |mem.body|
    decreases |a|
  {
    if a != [] {
      StoreAllSize(StoreOne(mem, a[0]), a[1..]);
    }
  }

  // Cell-by-cell stores of a whole body write exactly that body.
  lemma {:induction false} PutsWriteBody(mem: Mem, body: seq<nat>, n: nat)
    requires |body| == |mem.body| && n <= |body|
    ensures StoreAll(mem, Puts(body)[..n]) == mem.(body := body[..n] + mem.body[n..])
  {
    if n == 0 {
      assert body[..0] + mem.body[0..] == mem.body;
    } else {
      PutsWriteBody(mem, body, n - 1);
      var before := Puts(body)[..n - 1];
      assert Puts(body)[..n] == before + [Put(n - 1, body[n - 1])];
      StoreAllConcat(mem, before, [Put(n - 1, body[n - 1])]);
      var mid := StoreAll(mem, before);
      assert StoreAll(mid, [Put(n - 1, body[n - 1])]) == StoreOne(mid, Put(n - 1, body[n - 1]));
      assert (body[..n - 1] + mem.body[n - 1..])[n - 1 := body[n - 1]] == body[..n] + mem.body[n..];
    }
  }

  // An operation's plan, run to its end, has the operation's effect on the object the slot stood for.
  lemma PlanHasEffect(op: Op, mem: Mem)
    requires OpOk(op, |mem.body|)
    ensures Decode(StoreAll(mem, Plan(op, mem))) == Effect(op, Decode(mem))
  {
    match op {
      case Write(body) =>
        StoreAllConcat(mem, Puts(body), [Mark(true)]);
        assert Puts(body)[..|body|] == Puts(body);
        PutsWriteBody(mem, body, |body|);
        var whole := StoreAll(mem, Puts(body));
        assert body[..|body|] + mem.body[|body|..] == body;
        assert StoreAll(whole, [Mark(true)]) == StoreAll(StoreOne(whole, Mark(true)), []);
      case Update(puts) =>
      case Delete =>
        if mem.live {
          assert StoreAll(mem, [Mark(false)]) == StoreAll(StoreOne(mem, Mark(false)), []);
        }
    }
  }

  lemma SanitizePlanClears(mem: Mem)
    ensures !StoreAll(mem, SanitizePlan()).live
  {
    StoreAllConcat(mem, [Put(0, 0), Put(1, 0)], [Mark(false)]);
    var mid := StoreAll(mem, [Put(0, 0), Put(1, 0)]);
    assert StoreAll(mid, [Mark(false)]) == StoreAll(StoreOne(mid, Mark(false)), []);
    assert SanitizePlan() == [Put(0, 0), Put(1, 0)] + [Mark(false)];
  }

  // Threads are untouched when the lock word, the payload and the log are.
  lemma OthersStay(s: State, s': State, t: ThreadId)
    requires ThreadOk(s, t) && t in s.threads && t in s'.threads && s'.threads[t] == s.threads[t]
    requires s'.word == s.word && s'.owner == s.owner && s'.mem == s.mem && s'.log == s.log
    requires HomeOk(s', t)
    requires Alive(s', t) ==> Alive(s, t) && SelfTag(s', t) == SelfTag(s, t)
    requires Quiet(s) ==> Quiet(s')
    ensures ThreadOk(s', t)
  {
    hide Quiet, RegistryOk;
  }

  // Whoever is alive afterwards and inside was so before.
  lemma StaysQuiet(s: State, s': State)
    requires forall t: ThreadId :: Alive(s', t) && InCritical(PcOf(s', t)) ==> Alive(s, t) && InCritical(PcOf(s, t))
    ensures Quiet(s) ==> Quiet(s')
  {
  }

  lemma LockSlotStep(s: State, h: HandleId, slot: nat)
    requires Inv(s)
    ensures Inv(ApplyLockSlot(s, h, slot))
  {
    var s' := ApplyLockSlot(s, h, slot);
    assert RegistryOk(s');
    forall t | t in s'.threads ensures ThreadOk(s', t) {
      assert ThreadOk(s, t);
      hide RegistryOk, MemOk;
      StaysQuiet(s, s');
      OthersStay(s, s', t);
    }
  }

  lemma StoreTagStep(s: State, h: HandleId, epoch: nat)
    requires Inv(s)
    ensures Inv(ApplyStoreTag(s, h, epoch))
  {
    var s' := ApplyStoreTag(s, h, epoch);
    StoreTagRegistry(s, h, epoch);
    forall t: ThreadId | Alive(s', t) ensures Alive(s, t) {
      assert ThreadOk(s, t);
    }
    StaysQuiet(s, s');
    hide RegistryOk, MemOk;
    forall t | t in s'.threads ensures ThreadOk(s', t) {
      assert ThreadOk(s, t);
      OthersStay(s, s', t);
    }
  }

  lemma StoreTagRegistry(s: State, h: HandleId, epoch: nat)
    requires RegistryOk(s)
    ensures RegistryOk(ApplyStoreTag(s, h, epoch))
  {
    var s' := ApplyStoreTag(s, h, epoch);
    if s' != s {
      var slot := s.handles[h].slot;
      assert HandleOk(s, h);
      assert TagOf(epoch, slot) % REGISTRY_SLOTS == slot;
      forall x | x in s'.handles ensures HandleOk(s', x) {
        assert HandleOk(s, x);
      }
    }
  }

  lemma CrashStep(s: State, h: HandleId)
    requires Inv(s)
    ensures Inv(ApplyCrash(s, h))
  {
    var s' := ApplyCrash(s, h);
    CrashRegistry(s, h);
    forall t: ThreadId | Alive(s', t) ensures Alive(s, t) {
      assert ThreadOk(s, t);
    }
    StaysQuiet(s, s');
    hide RegistryOk, MemOk;
    forall t | t in s'.threads ensures ThreadOk(s', t) {
      assert ThreadOk(s, t);
      OthersStay(s, s', t);
    }
  }

  lemma CrashRegistry(s: State, h: HandleId)
    requires RegistryOk(s)
    ensures RegistryOk(ApplyCrash(s, h))
  {
    var s' := ApplyCrash(s, h);
    if h in s.handles {
      assert HandleOk(s, h);
      forall x | x in s'.handles ensures HandleOk(s', x) {
        assert HandleOk(s, x);
      }
    }
  }

  lemma OpenStep(s: State, step: Step)
    requires Inv(s) && (step.OpenUnregistered? || step.Spawn?)
    ensures Inv(Apply(s, step))
  {
    var s' := Apply(s, step);
    assert RegistryOk(s') by {
      forall x | x in s'.handles ensures HandleOk(s', x) {
        assert x in s.handles ==> HandleOk(s, x);
      }
    }
    forall t: ThreadId | t in s.threads && Alive(s', t) ensures Alive(s, t) {
      assert ThreadOk(s, t);
    }
    StaysQuiet(s, s');
    hide RegistryOk, MemOk;
    forall t | t in s'.threads ensures ThreadOk(s', t) {
      if t in s.threads {
        assert ThreadOk(s, t);
        OthersStay(s, s', t);
      }
    }
  }

  // A move of one thread that touches nothing shared.
  lemma LocalMove(s: State, t: ThreadId, pc: Pc)
    requires Inv(s) && Alive(s, t) && ThreadOk(Goto(s, t, pc), t) && (InCritical(pc) ==> InCritical(PcOf(s, t)))
    ensures Inv(Goto(s, t, pc))
  {
    var s' := Goto(s, t, pc);
    assert RegistryOk(s') by {
      forall x | x in s'.handles ensures HandleOk(s', x) {
        assert HandleOk(s, x);
      }
    }
    StaysQuiet(s, s');
    hide RegistryOk;
    forall x | x in s'.threads ensures ThreadOk(s', x) {
      if x != t {
        assert ThreadOk(s, x);
        OthersStay(s, s', x);
      }
    }
  }

  // A tag that does not stand in its slot, or whose slot nobody holds, belongs to no open handle.
  lemma DeadMeansDeparted(s: State, tag: nat)
    requires RegistryOk(s) && tag != 0
    requires s.slots[tag % REGISTRY_SLOTS].tag != tag || s.slots[tag % REGISTRY_SLOTS].holder.None?
    ensures Departed(s, tag)
  {
    forall h | IsOpen(s, h) ensures s.handles[h].tag != tag {
      assert HandleOk(s, h);
    }
  }

  // A handle's own slot is never the one it probes.
  lemma OwnSlot(s: State, t: ThreadId)
    requires RegistryOk(s) && Alive(s, t)
    ensures SelfTag(s, t) != 0 ==>
              s.slots[SelfTag(s, t) % REGISTRY_SLOTS] == RegSlot(SelfTag(s, t), Some(s.threads[t].handle))
    ensures forall i :: 0 <= i < REGISTRY_SLOTS && s.slots[i].holder == Some(s.threads[t].handle) ==>
              SelfTag(s, t) != 0 && i == SelfTag(s, t) % REGISTRY_SLOTS
  {
    assert HandleOk(s, s.threads[t].handle);
  }

  // A word that names a tag judged dead guards nobody.
  lemma VerdictHolds(s: State, tag: nat)
    requires Inv(s) && tag != 0
    requires s.slots[tag % REGISTRY_SLOTS].tag != tag || s.slots[tag % REGISTRY_SLOTS].holder.None?
    ensures Names(s.word, tag) ==> Quiet(s)
  {
    DeadMeansDeparted(s, tag);
    if Names(s.word, tag) {
      NobodyInside(s);
    }
  }

  // A verdict, once reached, holds of the state it leaves.
  lemma Convict(s: State, t: ThreadId)
    requires Inv(s) && Alive(s, t) && (PcOf(s, t).Watching? || PcOf(s, t).Probing?) && PcOf(s, t).seen.Held?
    requires var tag := PcOf(s, t).seen.tag;
             && tag != 0 && |s.slots| == REGISTRY_SLOTS
             && (s.slots[tag % REGISTRY_SLOTS].tag != tag || s.slots[tag % REGISTRY_SLOTS].holder.None?)
    ensures Inv(Goto(s, t, Convicted(PcOf(s, t).call, PcOf(s, t).seen)))
  {
    var pc := PcOf(s, t);
    var next := Convicted(pc.call, pc.seen);
    VerdictHolds(s, pc.seen.tag);
    StaysQuiet(s, Goto(s, t, next));
    assert ThreadOk(s, t);
    hide Quiet, MemOk, RegistryOk;
    LocalMove(s, t, next);
  }

  lemma LoadTagStep(s: State, step: Step)
    requires Inv(s) && step.LoadTag? && Alive(s, step.t)
    ensures Inv(ApplyThread(s, step))
  {
    var t := step.t;
    var pc := s.threads[t].pc;
    assert ThreadOk(s, t);
    OwnSlot(s, t);
    hide Quiet, MemOk;
    if pc.Watching? && pc.seen.Held? {
      var next := PcOf(ApplyThread(s, step), t);
      if next.Convicted? {
        Convict(s, t);
      } else {
        LocalMove(s, t, next);
      }
    }
  }

  lemma ProbeStep(s: State, step: Step)
    requires Inv(s) && step.Probe? && Alive(s, step.t)
    ensures Inv(ApplyThread(s, step))
  {
    var t := step.t;
    var pc := s.threads[t].pc;
    assert ThreadOk(s, t);
    OwnSlot(s, t);
    hide Quiet, MemOk;
    if pc.Probing? && pc.seen.Held? {
      if PcOf(ApplyThread(s, step), t).Convicted? {
        Convict(s, t);
      } else {
        LocalMove(s, t, GiveUp(pc.call));
      }
    }
  }

  lemma StartStep(s: State, step: Step)
    requires Inv(s) && (step.Start? || step.Observe?) && Alive(s, step.t)
    ensures Inv(ApplyThread(s, step))
  {
    var t := step.t;
    assert ThreadOk(s, t);
    hide Quiet, MemOk, RegistryOk;
    var s' := ApplyThread(s, step);
    if s' != s {
      assert s' == Goto(s, t, s'.threads[t].pc);
      LocalMove(s, t, s'.threads[t].pc);
    }
  }

  // Only one live thread is inside its critical section, and then the word is locked.
  lemma SoleOwner(s: State, t: ThreadId)
    requires Inv(s)
    ensures Alive(s, t) && InCritical(PcOf(s, t)) ==> s.word.Held? && s.owner == Some(t)
    ensures forall x :: Alive(s, x) && InCritical(PcOf(s, x)) && Alive(s, t) && InCritical(PcOf(s, t)) ==> x == t
  {
    forall x: ThreadId | Alive(s, x) && InCritical(PcOf(s, x)) ensures s.owner == Some(x) && s.word.Held? {
      assert ThreadOk(s, x);
    }
  }

  // Nobody is inside when the word is unlocked, nor when it names a departed tag.
  lemma NobodyInside(s: State)
    requires Inv(s)
    requires s.word.Gen? || Departed(s, s.word.tag)
    ensures Quiet(s)
  {
    forall t: ThreadId | Alive(s, t) ensures !InCritical(PcOf(s, t)) {
      assert ThreadOk(s, t);
    }
  }

  // Taking the lock, from unlocked or from an owner that is gone.
  lemma LockMove(s: State, t: ThreadId, salt: nat, pc: Pc)
    requires Inv(s) && Alive(s, t) && Quiet(s) && InCritical(pc)
    requires forall u: ThreadId ::
             Alive(s, u) && u != t && PcOf(s, u).Convicted? ==> PcOf(s, u).seen != Held(salt, SelfTag(s, t))
    requires var s' := Goto(s, t, pc).(word := Held(salt, SelfTag(s, t)), owner := Some(t)); WriterOk(s', t)
    ensures Inv(Goto(s, t, pc).(word := Held(salt, SelfTag(s, t)), owner := Some(t)))
  {
    var s' := Goto(s, t, pc).(word := Held(salt, SelfTag(s, t)), owner := Some(t));
    assert RegistryOk(s') by {
      forall x | x in s'.handles ensures HandleOk(s', x) {
        assert HandleOk(s, x);
      }
    }
    hide RegistryOk;
    assert ThreadOk(s, t);
    forall x | x in s'.threads ensures ThreadOk(s', x) {
      if x != t {
        assert ThreadOk(s, x);
        assert s'.threads[x] == s.threads[x];
      }
    }
  }

  lemma AcquireStep(s: State, step: Step)
    requires Inv(s) && step.Acquire? && Alive(s, step.t) && WordSafe(s, step)
    ensures Inv(ApplyThread(s, step))
  {
    var t := step.t;
    var pc := s.threads[t].pc;
    assert ThreadOk(s, t);
    if pc.Trying? && pc.call.WriteCall? && s.word.Gen? {
      PlanHasEffect(pc.call.op, s.mem);
      assert MemOk(s);
      NobodyInside(s);
      hide Plan, Effect, Replay, RegistryOk, StoreAll;
      LockMove(s, t, step.salt, Writing(pc.call.op, Plan(pc.call.op, s.mem), false, (s.word.gen + 1) % GENERATIONS));
    }
  }

  lemma TakeOverStep(s: State, step: Step)
    requires Inv(s) && step.TakeOver? && Alive(s, step.t) && WordSafe(s, step)
    ensures Inv(ApplyThread(s, step))
  {
    var t := step.t;
    var pc := s.threads[t].pc;
    assert ThreadOk(s, t);
    if pc.Convicted? {
      if s.word == pc.seen {
        SanitizePlanClears(s.mem);
        LockMove(s, t, step.salt, Sanitizing(pc.call, SanitizePlan()));
      } else {
        LocalMove(s, t, Trying(pc.call));
      }
    }
  }

  // One store under the lock.
  lemma StoreMove(s: State, t: ThreadId, pc: Pc, mem: Mem)
    requires Inv(s) && Alive(s, t) && InCritical(PcOf(s, t)) && InCritical(pc) && |mem.body| == |s.mem.body|
    requires WriterOk(Goto(s, t, pc).(mem := mem), t)
    ensures Inv(Goto(s, t, pc).(mem := mem))
  {
    var s' := Goto(s, t, pc).(mem := mem);
    SoleOwner(s, t);
    assert RegistryOk(s') by {
      forall x | x in s'.handles ensures HandleOk(s', x) {
        assert HandleOk(s, x);
      }
    }
    hide RegistryOk;
    assert ThreadOk(s, t);
    forall x | x in s'.threads ensures ThreadOk(s', x) {
      if x != t {
        assert ThreadOk(s, x);
        assert s'.threads[x] == s.threads[x];
      }
    }
  }

  lemma DoStoreStep(s: State, step: Step)
    requires Inv(s) && step.DoStore? && Alive(s, step.t)
    ensures Inv(ApplyThread(s, step))
  {
    var t := step.t;
    var pc := s.threads[t].pc;
    assert ThreadOk(s, t);
    if pc.Sanitizing? && pc.todo != [] {
      StoreMove(s, t, Sanitizing(pc.call, pc.todo[1..]), StoreOne(s.mem, pc.todo[0]));
    } else if pc.Writing? && pc.todo != [] {
      StoreMove(s, t, Writing(pc.op, pc.todo[1..], pc.tookOver, pc.next), StoreOne(s.mem, pc.todo[0]));
    }
  }

  // A release: the log grows by what the owner did, and the slot holds what the log then says.
  lemma PublishMove(s: State, t: ThreadId, gen: nat, commits: seq<Commit>)
    requires Inv(s) && Alive(s, t) && InCritical(PcOf(s, t))
    requires Decode(s.mem) == Replay(s.log + commits)
    ensures Inv(Publish(s, t, gen, commits))
  {
    var s' := Publish(s, t, gen, commits);
    SoleOwner(s, t);
    assert RegistryOk(s') by {
      forall x | x in s'.handles ensures HandleOk(s', x) {
        assert HandleOk(s, x);
      }
    }
    hide RegistryOk;
    forall x | x in s'.threads ensures ThreadOk(s', x) {
      assert ThreadOk(s, x);
      SoleOwner(s, x);
      assert x != t ==> s'.threads[x] == s.threads[x].(pc := Spoil(s.threads[x].pc, gen));
    }
  }

  lemma ReplayCommitted(log: seq<Commit>, op: Op, tookOver: bool)
    ensures Replay(log + (if tookOver then [Sanitized, Committed(op)] else [Committed(op)])) ==
            Effect(op, if tookOver then None else Replay(log))
    ensures Replay(log + [Sanitized]) == None
  {
    var mid := log + [Sanitized];
    assert mid[..|log|] == log;
    var after := (if tookOver then mid else log) + [Committed(op)];
    assert after[..|after| - 1] == if tookOver then mid else log;
    assert after == log + (if tookOver then [Sanitized, Committed(op)] else [Committed(op)]);
  }

  lemma ReleaseStep(s: State, step: Step)
    requires Inv(s) && step.Release? && Alive(s, step.t)
    ensures Inv(ApplyThread(s, step))
  {
    var t := step.t;
    var pc := s.threads[t].pc;
    assert ThreadOk(s, t);
    hide RegistryOk, Replay, Plan;
    if pc.Writing? && pc.todo == [] {
      ReplayCommitted(s.log, pc.op, pc.tookOver);
      PublishMove(s, t, pc.next, if pc.tookOver then [Sanitized, Committed(pc.op)] else [Committed(pc.op)]);
    }
  }

  // After sanitizing, a taker goes on to its own write, or a reading taker releases.
  lemma ProceedWriter(s: State, t: ThreadId, op: Op, gen: nat)
    requires Inv(s) && Alive(s, t) && PcOf(s, t) == Sanitizing(WriteCall(op), [])
    ensures Inv(Goto(s, t, Writing(op, Plan(op, s.mem), true, gen)))
  {
    assert ThreadOk(s, t);
    PlanHasEffect(op, s.mem);
    hide Plan, Effect, RegistryOk, Replay;
    LocalMove(s, t, Writing(op, Plan(op, s.mem), true, gen));
  }

  lemma ProceedReader(s: State, t: ThreadId, gen: nat)
    requires Inv(s) && Alive(s, t) && PcOf(s, t) == Sanitizing(ReadCall, [])
    ensures Inv(Goto(Publish(s, t, gen, [Sanitized]), t, Trying(ReadCall)))
  {
    assert ThreadOk(s, t);
    ReplayCommitted(s.log, Delete, false);
    hide RegistryOk, Replay;
    PublishMove(s, t, gen, [Sanitized]);
    LocalMove(Publish(s, t, gen, [Sanitized]), t, Trying(ReadCall));
  }

  lemma ProceedStep(s: State, step: Step)
    requires Inv(s) && step.Proceed? && Alive(s, step.t)
    ensures Inv(ApplyThread(s, step))
  {
    var t := step.t;
    var pc := s.threads[t].pc;
    hide Inv;
    if pc.Sanitizing? && pc.todo == [] {
      match pc.call {
        case WriteCall(op) => ProceedWriter(s, t, op, step.fresher % GENERATIONS);
        case ReadCall => ProceedReader(s, t, step.fresher % GENERATIONS);
      }
    }
  }

  lemma ReadStep(s: State, step: Step)
    requires Inv(s) && (step.BeginRead? || step.Copy? || step.Check?) && Alive(s, step.t)
    ensures Inv(ApplyThread(s, step))
  {
    var t := step.t;
    assert ThreadOk(s, t);
    var s' := ApplyThread(s, step);
    if s' != s {
      assert s' == Goto(s, t, s'.threads[t].pc);
      LocalMove(s, t, s'.threads[t].pc);
    }
  }

  lemma ThreadStep(s: State, step: Step)
    requires Inv(s) && WordSafe(s, step)
    requires !step.LockSlot? && !step.StoreTag? && !step.OpenUnregistered? && !step.Crash? && !step.Spawn?
    requires Alive(s, step.t)
    ensures Inv(ApplyThread(s, step))
  {
    hide *;
    match step {
      case Acquire(_, _) => AcquireStep(s, step);
      case TakeOver(_, _) => TakeOverStep(s, step);
      case DoStore(_) => DoStoreStep(s, step);
      case Release(_) => ReleaseStep(s, step);
      case Proceed(_, _) => ProceedStep(s, step);
      case BeginRead(_) => ReadStep(s, step);
      case Copy(_) => ReadStep(s, step);
      case Check(_) => ReadStep(s, step);
      case Start(_, _) => StartStep(s, step);
      case Observe(_) => StartStep(s, step);
      case LoadTag(_) => LoadTagStep(s, step);
      case Probe(_) => ProbeStep(s, step);
    }
  }

  lemma InvStep(s: State, step: Step)
    requires Inv(s) && WordSafe(s, step)
    ensures Inv(Apply(s, step))
  {
    hide Inv, ApplyThread, ApplyLockSlot, ApplyStoreTag, ApplyCrash, Alive, IsOpen;
    if step.LockSlot? {
      LockSlotStep(s, step.h, step.slot);
    } else if step.StoreTag? {
      StoreTagStep(s, step.h, step.epoch);
    } else if step.Crash? {
      CrashStep(s, step.h);
    } else if step.OpenUnregistered? || step.Spawn? {
      OpenStep(s, step);
    } else if Alive(s, step.t) {
      ThreadStep(s, step);
    }
  }

  lemma {:induction false} InvRun(s: State, steps: seq<Step>)
    requires Inv(s) && SafeRun(s, steps)
    ensures Inv(Run(s, steps))
    decreases |steps|
  {
    if steps != [] {
      InvStep(s, steps[0]);
      InvRun(Apply(s, steps[0]), steps[1..]);
    }
  }

  lemma InvInit(cells: nat)
    ensures Inv(Init(cells))
  {
  }

  // The states a slot and its openers can be in.
  ghost predicate Reachable(cells: nat, s: State) {
    exists steps :: SafeRun(Init(cells), steps) && Run(Init(cells), steps) == s
  }

  lemma ReachableInv(cells: nat, s: State)
    requires Reachable(cells, s)
    ensures Inv(s)
  {
    var steps :| SafeRun(Init(cells), steps) && Run(Init(cells), steps) == s;
    InvInit(cells);
    InvRun(Init(cells), steps);
  }

  // ---- What runs promise ----

  // At most one live thread ever is inside its critical section.
  lemma MutualExclusion(cells: nat, s: State, t: ThreadId, u: ThreadId)
    requires Reachable(cells, s)
    requires Alive(s, t) && InCritical(PcOf(s, t)) && Alive(s, u) && InCritical(PcOf(s, u))
    ensures t == u
  {
    ReachableInv(cells, s);
    SoleOwner(s, t);
  }

  // A takeover that succeeds robs nobody: no live thread was inside.
  lemma NoLiveOwnerRobbed(cells: nat, s: State, t: ThreadId, salt: nat)
    requires Reachable(cells, s)
    requires Alive(s, t) && PcOf(s, t).Convicted? && PcOf(Apply(s, TakeOver(t, salt)), t).Sanitizing?
    ensures forall u :: Alive(s, u) ==> !InCritical(PcOf(s, u))
  {
    ReachableInv(cells, s);
    assert ThreadOk(s, t);
  }

  // A read that returns, undisturbed by a publication of the generation it started from, returns the
  // object that the finished operations and sanitizations so far amount to: one completed write's payload or none.
  lemma ReadsAreAtomic(cells: nat, s: State, t: ThreadId)
    requires Reachable(cells, s)
    requires Alive(s, t) && PcOf(s, t).Reading? && PcOf(s, t).clean
    ensures var pc := PcOf(Apply(s, Check(t)), t);
            pc.Returned? ==> pc.value == Replay(s.log)
  {
    ReachableInv(cells, s);
    assert ThreadOk(s, t);
    assert MemOk(s);
    assert s.mem.body[..|s.mem.body|] == s.mem.body;
    hide Inv, RegistryOk, OwnerOk, WriterOk, JudgeOk, Reachable;
  }

  // A departed owner is convicted whenever it is judged, unless a new handle is just moving into its slot:
  // the tag then still stands, and the slot's kernel lock is taken.
  lemma DepartedOwnerConvicted(cells: nat, s: State, t: ThreadId)
    requires Reachable(cells, s)
    requires Alive(s, t) && PcOf(s, t).Watching? && PcOf(s, t).seen.Held?
    requires var tag := PcOf(s, t).seen.tag;
             && tag != 0 && Departed(s, tag)
             && |s.slots| == REGISTRY_SLOTS
               && (s.slots[tag % REGISTRY_SLOTS].tag == tag ==> s.slots[tag % REGISTRY_SLOTS].holder.None?)
    ensures var s' := Apply(s, LoadTag(t));
            PcOf(s', t).Convicted? || (PcOf(s', t).Probing? && PcOf(Apply(s', Probe(t)), t).Convicted?)
  {
    hide Reachable;
    assert SelfTag(s, t) != PcOf(s, t).seen.tag;
  }

  // The proviso is exact: a step that takes the lock is word-safe just when no convicted waiter's exchange would
  // then get it in beside the new owner.
  lemma WordSafeIsExact(cells: nat, s: State, step: Step)
    requires Reachable(cells, s) && Locks(s, step)
    ensures var s' := Apply(s, step);
            && Alive(s', step.t) && InCritical(PcOf(s', step.t))
            && (WordSafe(s, step) <==>
                  forall u: ThreadId, salt: nat :: u != step.t && Alive(s', u) && PcOf(s', u).Convicted? ==>
                    !InCritical(PcOf(Apply(s', TakeOver(u, salt)), u)))
  {
    var s' := Apply(s, step);
    forall u: ThreadId, salt: nat | u != step.t && Alive(s', u) && PcOf(s', u).Convicted?
      ensures InCritical(PcOf(Apply(s', TakeOver(u, salt)), u)) <==>
                PcOf(s, u).seen == Held(step.salt, SelfTag(s, step.t))
    {
    }
    if !WordSafe(s, step) {
      var u: ThreadId :| Alive(s, u) && u != step.t && PcOf(s, u).Convicted?
        && PcOf(s, u).seen == Held(step.salt, SelfTag(s, step.t));
      assert InCritical(PcOf(Apply(s', TakeOver(u, 0)), u));
    }
  }

  // The generation a step publishes.
  function Publishes(s: State, step: Step): Option<nat> {
    if step.Release? && Alive(s, step.t) && PcOf(s, step.t).Writing? && PcOf(s, step.t).todo == []
      then Some(PcOf(s, step.t).next)
    else if step.Proceed? && Alive(s, step.t) && PcOf(s, step.t) == Sanitizing(ReadCall, []) then
      Some(step.fresher % GENERATIONS)
    else None
  }

  // No read under way started from the generation that is published.
  ghost predicate GenFresh(s: State, step: Step) {
    Publishes(s, step).Some? ==> forall u: ThreadId ::
      Alive(s, u) && u != step.t && PcOf(s, u).Reading? ==> PcOf(s, u).before != Publishes(s, step).value
  }

  function Copies(s: State, u: ThreadId, n: nat): State
    decreases n
  {
    if n == 0 then s else Copies(Apply(s, Copy(u)), u, n - 1)
  }

  // A read goes on to its end with nothing in between.
  function ReadsOn(s: State, u: ThreadId): State {
    Apply(Copies(s, u, |s.mem.body| + 1), Check(u))
  }

  function Left(s: State, pc: Pc): nat
    requires pc.Reading? && |pc.got| <= |s.mem.body|
  {
    |s.mem.body| - |pc.got| + if pc.flag.None? then 1 else 0
  }

  lemma {:induction false} CopiesEnd(s: State, u: ThreadId, n: nat)
    requires Alive(s, u) && PcOf(s, u).Reading? && |PcOf(s, u).got| <= |s.mem.body| && n >= Left(s, PcOf(s, u))
    ensures var (s', pc) := (Copies(s, u, n), PcOf(Copies(s, u, n), u));
            && s'.word == s.word && s'.mem == s.mem && Alive(s', u) && pc.Reading? && pc.before == PcOf(s, u).before
            && pc.flag.Some? && (pc.flag.value ==> |pc.got| == |s.mem.body|)
    decreases n
  {
    if n > 0 {
      var mid := Apply(s, Copy(u));
      assert Alive(mid, u) && PcOf(mid, u).Reading? && mid.mem == s.mem && mid.word == s.word;
      assert |PcOf(mid, u).got| <= |mid.mem.body|;
      if n - 1 >= Left(mid, PcOf(mid, u)) {
        CopiesEnd(mid, u, n - 1);
      } else {
        // nothing was left to copy, or the flag said the slot is dead
        assert mid == s;
        CopiesStay(s, u, n);
      }
    }
  }

  lemma {:induction false} CopiesStay(s: State, u: ThreadId, n: nat)
    requires Apply(s, Copy(u)) == s
    ensures Copies(s, u, n) == s
    decreases n
  {
    if n > 0 {
      CopiesStay(s, u, n - 1);
    }
  }

  // A read that reaches its end returns just when the word is the generation it started from.
  lemma ReadEnds(s: State, u: ThreadId)
    requires Alive(s, u) && PcOf(s, u).Reading? && |PcOf(s, u).got| <= |s.mem.body|
    ensures PcOf(ReadsOn(s, u), u).Returned? <==> s.word == Gen(PcOf(s, u).before)
  {
    CopiesEnd(s, u, |s.mem.body| + 1);
  }

  // The condition on generations is exact for the step that publishes: it is fresh just when no read that was under way
  // returns afterwards.
  lemma GenFreshIsExact(cells: nat, s: State, step: Step)
    requires Reachable(cells, s) && Publishes(s, step).Some?
    ensures GenFresh(s, step) <==> forall u: ThreadId ::
              Alive(s, u) && u != step.t && PcOf(s, u).Reading? ==> !PcOf(ReadsOn(Apply(s, step), u), u).Returned?
  {
    ReachableInv(cells, s);
    var s' := Apply(s, step);
    forall u: ThreadId | Alive(s, u) && u != step.t && PcOf(s, u).Reading?
      ensures PcOf(ReadsOn(s', u), u).Returned? <==> PcOf(s, u).before == Publishes(s, step).value {
      assert ThreadOk(s, u);
      PublishedTo(s, step, u);
      ReadEnds(s', u);
    }
  }

  lemma PublishedTo(s: State, step: Step, u: ThreadId)
    requires Publishes(s, step).Some? && Alive(s, u) && u != step.t && PcOf(s, u).Reading?
    ensures var s' := Apply(s, step);
            && s'.word == Gen(Publishes(s, step).value) && s'.mem == s.mem && Alive(s', u)
            && PcOf(s', u).Reading? && PcOf(s', u).before == PcOf(s, u).before && PcOf(s', u).got == PcOf(s, u).got
  {
  }

  // ---- The packing of an acquisition ----

  const LOCKED: bv32 := 0x8000_0000
  const GEN_MASK: bv32 := 0x7FFF_FFFF
  const TAG_MASK: bv32 := 0x7_FFFF

  // acquisition_value
  function AcquisitionValue(salt: bv32, tag: bv32): bv32 {
    LOCKED | (((salt << 19) | (tag & TAG_MASK)) & GEN_MASK)
  }

  // The word reads as locked and names the tag in full.
  lemma AcquisitionNamesOwner(salt: bv32, tag: bv32)
    requires tag & TAG_MASK == tag
    ensures AcquisitionValue(salt, tag) & LOCKED != 0
    ensures (AcquisitionValue(salt, tag) & GEN_MASK) & TAG_MASK == tag
  {
    hide AcquisitionValue;
    LockedBit(salt, tag);
    UnpackTag(salt, tag);
    MaskTwice(AcquisitionValue(salt, tag));
  }

  // It keeps exactly the low twelve bits of the salt: two acquisitions look alike just when their tags
  // agree and their salts do modulo 4096.
  lemma AcquisitionsLookAlike(salt: bv32, tag: bv32, salt': bv32, tag': bv32)
    requires tag & TAG_MASK == tag && tag' & TAG_MASK == tag'
    ensures AcquisitionValue(salt, tag) == AcquisitionValue(salt', tag') <==>
              tag == tag' && salt & 0xFFF == salt' & 0xFFF
  {
    hide AcquisitionValue;
    if AcquisitionValue(salt, tag) == AcquisitionValue(salt', tag') {
      UnpackTag(salt, tag);
      UnpackTag(salt', tag');
      UnpackSalt(salt, tag);
      UnpackSalt(salt', tag');
    } else if tag == tag' && salt & 0xFFF == salt' & 0xFFF {
      SaltCut(salt, salt', tag);
    }
  }

  lemma UnpackTag(salt: bv32, tag: bv32)
    requires tag & TAG_MASK == tag
    ensures AcquisitionValue(salt, tag) & TAG_MASK == tag
  {
  }

  lemma MaskTwice(word: bv32)
    ensures (word & GEN_MASK) & TAG_MASK == word & TAG_MASK
  {
  }

  lemma LockedBit(salt: bv32, tag: bv32)
    ensures AcquisitionValue(salt, tag) & LOCKED != 0
  {
    var low := ((salt << 19) | (tag & TAG_MASK)) & GEN_MASK;
    assert (0x8000_0000 | low) & 0x8000_0000 == 0x8000_0000;
  }

  lemma UnpackSalt(salt: bv32, tag: bv32)
    requires tag & TAG_MASK == tag
    ensures (AcquisitionValue(salt, tag) >> 19) & 0xFFF == salt & 0xFFF
  {
  }

  lemma SaltCut(salt: bv32, salt': bv32, tag: bv32)
    requires salt & 0xFFF == salt' & 0xFFF
    ensures AcquisitionValue(salt, tag) == AcquisitionValue(salt', tag)
  {
  }
}
