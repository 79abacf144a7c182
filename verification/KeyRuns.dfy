/** A range settled off a record in the middle of a write may run into another node's: a run in which it does, and that
    node's key is lost. */
module KeyRuns {
  import opened Core
  import opened LittleEndian
  import opened KeyStore

  const CONFIG: Config := Config(8, 256)

  ghost predicate Reachable(s: State) {
    exists steps :: WholeRun(Init(CONFIG, 2), steps) && Run(Init(CONFIG, 2), steps) == s
  }

  lemma ReachableInv(s: State)
    requires Reachable(s)
    ensures Inv(s) && s.cfg == CONFIG && |s.slots| == 2
  {
    var steps :| WholeRun(Init(CONFIG, 2), steps) && Run(Init(CONFIG, 2), steps) == s;
    InvInit(CONFIG, 2);
    InvRun(Init(CONFIG, 2), steps);
  }

  lemma {:induction false} RunOn(s: State, steps: seq<Step>, step: Step)
    requires WholeRun(s, steps) && SettlesWhole(Run(s, steps), step)
    ensures WholeRun(s, steps + [step]) && Run(s, steps + [step]) == Apply(Run(s, steps), step)
    decreases |steps|
  {
    if steps == [] {
      assert [step][1..] == [];
    } else {
      RunOn(Apply(s, steps[0]), steps[1..], step);
      assert (steps + [step])[1..] == steps[1..] + [step];
    }
  }

  lemma Next(s: State, step: Step)
    requires Reachable(s) && SettlesWhole(s, step)
    ensures Reachable(Apply(s, step))
  {
    var steps :| WholeRun(Init(CONFIG, 2), steps) && Run(Init(CONFIG, 2), steps) == s;
    RunOn(Init(CONFIG, 2), steps, step);
  }

  // The slot's record, of an overflow key.
  predicate Names(s: State, id: nat, flag: Flag, len: nat, at: nat) {
    && id < |s.slots| && !IsTorn(s, id) && s.slots[id].flag == flag && s.slots[id].len == len
    && OffsetOf(s.slots[id]) == at
  }

  // A write, whole.
  function Written(s: State, t: ThreadId, id: nat, key: seq<Byte>): State
    requires id < |s.slots|
  {
    Apply(Apply(s, Enter(t, s.slots[id], key)), Leave(t))
  }

  // What a write leaves: the record names the range, which holds the key, and nothing else has changed.
  ghost predicate Wrote(s: State, s': State, t: ThreadId, id: nat, key: seq<Byte>, range: nat) {
    && Names(s', id, Valid, |key|, range) && s'.cfg == s.cfg && s'.hw == s.hw && SizesOk(s')
    && |s.last| == |s.slots| == |s'.slots| && id < |s.last| && s'.last == s.last[id := key]
    && s'.threads == s.threads[t := Ready(id, key, Some(range), false)] && s'.arena == Overwrite(s.arena, range, key)
    && (forall x :: 0 <= x < |s.slots| && x != id ==> s'.slots[x] == s.slots[x])
  }

  lemma Leaves(s: State, t: ThreadId, id: nat, key: seq<Byte>, range: nat, isNew: bool)
    requires SizesOk(s) && KeyOk(s.cfg, key) && id < |s.slots| && s.slots[id].writer == Some(t)
    requires PcOf(s, t) == Inside(id, key, Some(range), isNew) && s.cfg.keyCap < |key| && range + |key| <= |s.arena|
    ensures Wrote(s, Apply(s, Leave(t)), t, id, key, range)
  {
    StoredReads(s.cfg, s.slots[id], s.arena, key, range);
  }

  lemma WritesRecord(s: State, t: ThreadId, id: nat, key: seq<Byte>, range: nat, isNew: bool)
    requires SizesOk(s) && KeyOk(s.cfg, key) && id < |s.slots| && !IsTorn(s, id)
    requires PcOf(s, t) == Ready(id, key, Some(range), isNew) && s.cfg.keyCap < |key| && range + |key| <= |s.arena|
    ensures Wrote(s, Written(s, t, id, key), t, id, key, range)
  {
    var s1 := Apply(s, Enter(t, s.slots[id], key));
    assert s1 == Goto(Tear(s, id, key, range, s.slots[id], key, t), t, Inside(id, key, Some(range), isNew));
    hide Apply;
    Leaves(s1, t, id, key, range, isNew);
    assert Overwrite(Overwrite(s.arena, range, key), range, key) == Overwrite(s.arena, range, key);
  }

  // An insert settles new space.
  lemma SettlesNew(s: State, t: ThreadId, id: nat, key: seq<Byte>)
    requires PcOf(s, t).Idle? && id < |s.slots| && !IsTorn(s, id) && KeyOk(s.cfg, key) && |key| > s.cfg.keyCap
    requires Reusable(s.cfg, s.slots[id], |key|).None? && s.hw + KeyClass(|key|) <= s.cfg.arenaLen
    ensures var s1 := Apply(s, Begin(t, id, key));
            && SettlesWhole(s, Begin(t, id, key)) && SettlesWhole(s1, Settle(t))
            && Apply(s1, Settle(t)) ==
               Goto(s, t, Ready(id, key, Some(s.hw), true)).(hw := s.hw + KeyClass(|key|))
  {
    var s1 := Apply(s, Begin(t, id, key));
    assert Goto(s1, t, Ready(id, key, Some(s.hw), true)) == Goto(s, t, Ready(id, key, Some(s.hw), true));
  }

  // An insert that settles new space and writes its record once.
  lemma Inserts(s: State, t: ThreadId, id: nat, key: seq<Byte>) returns (s': State)
    requires Reachable(s) && |s.slots| == |s.last| == 2
    requires PcOf(s, t).Idle? && id < 2 && !IsTorn(s, id) && 8 < |key| <= 65
    requires Reusable(s.cfg, s.slots[id], |key|).None? && s.hw + KeyClass(|key|) <= 256
    ensures Reachable(s') && |s'.slots| == |s'.last| == 2 && Names(s', id, Valid, |key|, s.hw)
    ensures s'.last == s.last[id := key] && s'.hw == s.hw + KeyClass(|key|) && s'.slots[1 - id] == s.slots[1 - id]
    ensures s'.threads == s.threads[t := Ready(id, key, Some(s.hw), false)]
  {
    ReachableInv(s);
    SettlesNew(s, t, id, key);
    Next(s, Begin(t, id, key));
    var s1 := Apply(s, Begin(t, id, key));
    Next(s1, Settle(t));
    var s2 := Apply(s1, Settle(t));
    ReachableInv(s2);
    hide Apply;
    assert PcOf(s2, t) == Ready(id, key, Some(s.hw), true) && s2.slots == s.slots;
    hide Reachable;
    WritesRecord(s2, t, id, key, s.hw, true);
    Next(s2, Enter(t, s2.slots[id], key));
    Next(Apply(s2, Enter(t, s2.slots[id], key)), Leave(t));
    s' := Written(s2, t, id, key);
  }

  lemma Deletes(s: State, id: nat) returns (s': State)
    requires Reachable(s) && id < |s.slots| && !IsTorn(s, id) && s.slots[id].flag.Valid?
    ensures Reachable(s') && s' == s.(slots := s.slots[id := s.slots[id].(flag := Deleted)])
  {
    Next(s, Delete(id));
    s' := Apply(s, Delete(id));
  }

  lemma Starts() returns (s: State)
    ensures Reachable(s) && |s.slots| == |s.last| == 2 && s.hw == 0 && s.threads == map[]
    ensures forall id :: 0 <= id < 2 ==> !IsTorn(s, id) && s.slots[id].len == 0
  {
    s := Init(CONFIG, 2);
    assert Run(s, []) == s && WholeRun(s, []);
  }

  // Thread 1 has published node 0 and not returned; node 1 has the range behind.
  lemma TwoNodes(a: seq<Byte>, x: seq<Byte>) returns (s: State)
    requires |a| == |x| == 9
    ensures Reachable(s) && |s.slots| == |s.last| == 2 && s.hw == 128 && s.last[1] == x
    ensures Names(s, 0, Valid, 9, 0) && Names(s, 1, Valid, 9, 64)
    ensures PcOf(s, 1) == Ready(0, a, Some(0), false) && PcOf(s, 2) == PcOf(s, 3) == Idle
  {
    hide Reachable;
    var s0 := Starts();
    ReachableInv(s0);
    var s1 := Inserts(s0, 1, 0, a);
    ReachableInv(s1);
    s := Inserts(s1, 4, 1, x);
  }

  // Node 0 was then deleted, inserted with a longer key by thread 2, deleted again, and its id given to thread 3.
  lemma ThreeOnOneId(a: seq<Byte>, x: seq<Byte>, b: seq<Byte>) returns (s: State)
    requires |a| == |x| == 9 && |b| == 65
    ensures Reachable(s) && |s.slots| == |s.last| == 2 && s.last[1] == x
    ensures Names(s, 0, Deleted, 65, 128) && Names(s, 1, Valid, 9, 64)
    ensures PcOf(s, 1) == Ready(0, a, Some(0), false) && PcOf(s, 3) == Owning(0, b)
  {
    hide Reachable, Apply;
    var s2 := TwoNodes(a, x);
    ReachableInv(s2);
    var s3 := Deletes(s2, 0);
    ReachableInv(s3);
    var s4 := Inserts(s3, 2, 0, b);
    var s5 := Deletes(s4, 0);
    ReachableInv(s5);
    s := Begins(s5, 3, 0, b);
  }

  lemma Begins(s: State, t: ThreadId, id: nat, key: seq<Byte>) returns (s': State)
    requires Reachable(s) && PcOf(s, t).Idle? && id < |s.slots| && KeyOk(s.cfg, key)
    ensures Reachable(s') && s' == Goto(s, t, Owning(id, key))
  {
    Next(s, Begin(t, id, key));
    s' := Apply(s, Begin(t, id, key));
  }

  // The offset is stored, the length and the flag are not yet.
  function HalfWritten(slot: Slot, at: nat): Slot
    requires at < 0x1_0000_0000_0000_0000
  {
    slot.(payload := Overwrite(slot.payload, 0, Le8(at)))
  }

  lemma HalfNames(slot: Slot, at: nat)
    requires at < 0x1_0000_0000_0000_0000 && |slot.payload| == 8
    ensures OffsetOf(HalfWritten(slot, at)) == at && |HalfWritten(slot, at).payload| == 8
  {
    Le8RoundTrip(at);
    OverwriteHolds(slot.payload, 0, Le8(at));
  }

  // Thread 1 in the middle of its last write, thread 3 settles thread 1's range for a key that is longer than it.
  lemma SettlesShort(s: State, a: seq<Byte>, b: seq<Byte>) returns (s': State)
    requires SizesOk(s) && s.cfg == CONFIG && |s.slots| == 2 && Names(s, 0, Deleted, 65, 128)
    requires PcOf(s, 1) == Ready(0, a, Some(0), false) && PcOf(s, 3) == Owning(0, b) && |a| == 9 && |b| == 65
    ensures var s1 := Apply(s, Enter(1, HalfWritten(s.slots[0], 0), a));
            !SettlesWhole(s1, Settle(3)) && s' == Apply(s1, Settle(3))
    ensures s' == Goto(Goto(Tear(s, 0, a, 0, HalfWritten(s.slots[0], 0), a, 1), 1, Inside(0, a, Some(0), false)), 3,
                       Ready(0, b, Some(0), false))
  {
    var junk := HalfWritten(s.slots[0], 0);
    HalfNames(s.slots[0], 0);
    var s1 := Apply(s, Enter(1, junk, a));
    assert s1 == Goto(Tear(s, 0, a, 0, junk, a, 1), 1, Inside(0, a, Some(0), false));
    hide HalfWritten;
    assert Settled(s1, s1.slots[0], 65) == Some((0, false));
    s' := Apply(s1, Settle(3));
  }

  lemma BothWrite(s: State, s1: State, a: seq<Byte>, b: seq<Byte>)
    requires SizesOk(s) && s.cfg == CONFIG && |s.slots| == 2 && Names(s, 1, Valid, 9, 64) && |a| == 9 && |b| == 65
    requires |HalfWritten(s.slots[0], 0).payload| == 8
    requires s1 == Goto(Goto(Tear(s, 0, a, 0, HalfWritten(s.slots[0], 0), a, 1), 1, Inside(0, a, Some(0), false)), 3,
                        Ready(0, b, Some(0), false))
    requires s.slots[0].len == 65
    ensures var s2 := Apply(s1, Leave(1));
            && |s2.slots| == 2
            && var s3 := Written(s2, 3, 0, b);
            s3.last == s.last[0 := b] && |s3.arena| == 256 && Names(s3, 1, Valid, 9, 64) && s3.cfg == CONFIG
            && s3.arena[64] == b[64]
  {
    assert SizesOk(s1) && PcOf(s1, 1) == Inside(0, a, Some(0), false) && s1.slots[1] == s.slots[1] && s1.last == s.last;
    hide Tear, Apply, HalfWritten, Written;
    Leaves(s1, 1, 0, a, 0, false);
    var s2 := Apply(s1, Leave(1));
    assert PcOf(s2, 3) == Ready(0, b, Some(0), false);
    WritesRecord(s2, 3, 0, b, 0, false);
    assert Overwrite(s2.arena, 0, b)[64] == b[64];
  }

  // It happens: thread 1's last write has stored its own offset over the longer key's when thread 3 looks for a range
  // to reuse. Once both have written, node 1's lookup no longer returns its key.
  lemma KeyOverrun(a: seq<Byte>, x: seq<Byte>, b: seq<Byte>) returns (s: State)
    requires |a| == |x| == 9 && |b| == 65 && b[64] != x[0]
    ensures Reachable(s) && |s.slots| == 2 && |s.last| == 2
    ensures var s1 := Apply(s, Enter(1, HalfWritten(s.slots[0], 0), a));
            && !SettlesWhole(s1, Settle(3))
            && var s2 := Apply(Apply(s1, Settle(3)), Leave(1));
            && |s2.slots| == 2
            && var s3 := Written(s2, 3, 0, b);
            s3.last == s.last[0 := b] && KeyInto(s3, 1).Some? && KeyInto(s3, 1).value != s.last[1]
  {
    s := ThreeOnOneId(a, x, b);
    ReachableInv(s);
    hide Reachable, Apply, HalfWritten, Written;
    var s1 := SettlesShort(s, a, b);
    HalfNames(s.slots[0], 0);
    BothWrite(s, s1, a, b);
  }
}
