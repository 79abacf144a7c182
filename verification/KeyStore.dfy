/** Host keys (graph.rs, format.rs): inline bytes or a range of a bump arena, recycled with the slot, released when
    nothing came after, and torn by writers that die under the slot lock. An insert writes its record once or more, and
    any number of inserts may be at work on one id: a delete can land on an insert still under way. */
module KeyStore {
  import opened Core
  import opened LittleEndian

  type ThreadId = nat

  datatype Flag = Untouched | Valid | Deleted

  // A slot's key record: the flag, the u16 length, and the inline payload whose first eight bytes hold an overflow
  // key's arena offset. `writer` is inside the slot's lock, or died there.
  datatype Slot = Slot(flag: Flag, len: nat, payload: seq<Byte>, writer: Option<ThreadId>)

  // An insert: the id and key it works on, and the arena range settled before the graph is touched, new until a record
  // has named it.
  datatype Pc =
    | Idle
    | Owning(id: nat, key: seq<Byte>)
    | Ready(id: nat, key: seq<Byte>, range: Option<nat>, isNew: bool)
    | Inside(id: nat, key: seq<Byte>, range: Option<nat>, isNew: bool)
    | Dead

  datatype Config = Config(keyCap: nat, arenaLen: nat)

  // `last` records, beside the real state, the last key stored for each slot; a sanitized slot's is empty.
  datatype State = State(
    cfg: Config, slots: seq<Slot>, arena: seq<Byte>, hw: nat, threads: map<ThreadId, Pc>, last: seq<seq<Byte>>)

  datatype Step =
    | Begin(t: ThreadId, id: nat, key: seq<Byte>)
    | Settle(t: ThreadId)
    | Enter(t: ThreadId, junk: Slot, bytes: seq<Byte>)
    | Leave(t: ThreadId)
    | End(t: ThreadId)
    | StoreRaw(id: nat, given: Option<seq<Byte>>)
    | StoreRawTorn(t: ThreadId, id: nat, key: seq<Byte>, junk: Slot, bytes: seq<Byte>)
    | Delete(id: nat)
    | Sanitize(id: nat)

  function KeyClass(len: nat): nat {
    (len + 63) / 64 * 64
  }

  function OffsetOf(slot: Slot): nat {
    if |slot.payload| >= 8 then FromLe8(slot.payload[..8]) else 0
  }

  // ---- Operations ----

  // reusable_key_range
  function Reusable(cfg: Config, slot: Slot, keyLen: nat): Option<nat> {
    if slot.len <= cfg.keyCap || slot.flag.Untouched? || KeyClass(slot.len) < keyLen then None
    else if OffsetOf(slot) + KeyClass(slot.len) <= cfg.arenaLen then Some(OffsetOf(slot))
    else None
  }

  // allocate_key_bytes of a class, which is already 4-aligned.
  function Allocate(s: State, len: nat): Option<nat> {
    if s.hw + KeyClass(len) <= s.cfg.arenaLen then Some(s.hw) else None
  }

  // The slot's own range, else a new one at the mark.
  function Settled(s: State, slot: Slot, keyLen: nat): Option<(nat, bool)> {
    match Reusable(s.cfg, slot, keyLen)
    case Some(offset) => Some((offset, false))
    case None =>
      match Allocate(s, keyLen)
      case Some(offset) => Some((offset, true))
      case None => None
  }

  // store_key_locked once its range is known, in a slot left valid.
  function Stored(cfg: Config, slot: Slot, key: seq<Byte>, offset: nat): Slot {
    if cfg.keyCap == 0 then slot.(flag := Valid)
    else if |key| <= cfg.keyCap then slot.(flag := Valid, len := |key|, payload := Overwrite(slot.payload, 0, key))
    else slot.(flag := Valid, len := |key|, payload := Overwrite(slot.payload, 0, Le8(offset)))
  }

  function StoredArena(cfg: Config, arena: seq<Byte>, key: seq<Byte>, offset: nat): seq<Byte> {
    if |key| <= cfg.keyCap then arena else Overwrite(arena, offset, key)
  }

  // The record is being written, or was when its writer died.
  predicate IsTorn(s: State, id: nat) {
    id < |s.slots| && s.slots[id].writer.Some?
  }

  // key_into
  function KeyInto(s: State, id: nat): Option<seq<Byte>> {
    if id >= |s.slots| || IsTorn(s, id) || !s.slots[id].flag.Valid? then None
    else Some(ReadKey(s.cfg, s.slots[id], s.arena))
  }

  function ReadKey(cfg: Config, slot: Slot, arena: seq<Byte>): seq<Byte> {
    if cfg.keyCap == 0 then []
    else if slot.len <= cfg.keyCap then (if slot.len <= |slot.payload| then slot.payload[..slot.len] else [])
    else if OffsetOf(slot) + slot.len <= |arena| then arena[OffsetOf(slot)..OffsetOf(slot) + slot.len]
    else []
  }

  predicate KeyOk(cfg: Config, key: seq<Byte>) {
    |key| <= MAX_KEY_LEN && (cfg.keyCap == 0 ==> key == [])
  }

  function PcOf(s: State, t: ThreadId): Pc {
    if t in s.threads then s.threads[t] else Idle
  }

  function Goto(s: State, t: ThreadId, pc: Pc): State {
    s.(threads := s.threads[t := pc])
  }

  function SetSlot(s: State, id: nat, slot: Slot): State {
    if id < |s.slots| then s.(slots := s.slots[id := slot]) else s
  }

  function Remember(s: State, id: nat, key: seq<Byte>): State {
    if id < |s.last| then s.(last := s.last[id := key]) else s
  }

  // A write that completes under the lock; `offset` matters only to an overflow key.
  function Complete(s: State, id: nat, key: seq<Byte>, offset: nat): State {
    if id < |s.slots| then
      Remember(SetSlot(s, id, Stored(s.cfg, s.slots[id], key, offset).(writer := None)), id, key)
        .(arena := StoredArena(s.cfg, s.arena, key, offset))
    else s
  }

  // In the middle of a write: whatever the record then says, and whatever part of the range has been filled.
  function Tear(s: State, id: nat, key: seq<Byte>, offset: nat, junk: Slot, bytes: seq<Byte>, t: ThreadId): State {
    if id < |s.slots| then
      SetSlot(s, id, junk.(writer := Some(t))).(arena := StoredArena(s.cfg, s.arena, bytes, offset))
    else s
  }

  // A slot without room for keys has no record to spoil.
  predicate JunkOk(s: State, key: seq<Byte>, junk: Slot, bytes: seq<Byte>) {
    |bytes| == |key| && |junk.payload| == s.cfg.keyCap && (s.cfg.keyCap == 0 ==> junk.len == 0)
  }

  // Overflow keys settle a range; keys that fit inline need none.
  function RangeOf(pc: Pc): nat {
    if (pc.Ready? || pc.Inside?) && pc.range.Some? then pc.range.value else 0
  }

  function ApplySettle(s: State, t: ThreadId): State {
    var pc := PcOf(s, t);
    if !pc.Owning? || pc.id >= |s.slots| then s
    else if |pc.key| <= s.cfg.keyCap then Goto(s, t, Ready(pc.id, pc.key, None, false))
    else
      var settled := Settled(s, s.slots[pc.id], |pc.key|);
      if settled.None? then Goto(s, t, Idle)
      else Goto(s, t,
        Ready(pc.id, pc.key, Some(settled.value.0), settled.value.1)).(hw := Mark(s, settled.value.1, |pc.key|))
  }

  // The mark after a settlement.
  function Mark(s: State, isNew: bool, keyLen: nat): nat {
    if isNew then s.hw + KeyClass(keyLen) else s.hw
  }

  // An insert ends: if it has published nothing, it gives its range back, if that was new and nothing came after it.
  function ApplyEnd(s: State, t: ThreadId): State {
    var pc := PcOf(s, t);
    if pc.Ready? then
      Goto(s, t, Idle).(hw := if pc.isNew && s.hw == RangeOf(pc) + KeyClass(|pc.key|) then RangeOf(pc) else s.hw)
    else s
  }

  // A write begins, under the slot's lock.
  function ApplyEnter(s: State, t: ThreadId, junk: Slot, bytes: seq<Byte>): State {
    var pc := PcOf(s, t);
    if pc.Ready? && !IsTorn(s, pc.id) && JunkOk(s, pc.key, junk, bytes) then
      Goto(Tear(s, pc.id, pc.key, RangeOf(pc), junk, bytes, t), t, Inside(pc.id, pc.key, pc.range, pc.isNew))
    else s
  }

  // It is completed, and from then on the record may name the range.
  function ApplyLeave(s: State, t: ThreadId): State {
    var pc := PcOf(s, t);
    if pc.Inside? && pc.id < |s.slots| && s.slots[pc.id].writer == Some(t) then
      Goto(Complete(s, pc.id, pc.key, RangeOf(pc)), t, Ready(pc.id, pc.key, pc.range, false))
    else s
  }

  function ApplyStoreRaw(s: State, id: nat, key: Option<seq<Byte>>): State {
    if id >= |s.slots| || IsTorn(s, id) then s
    else if key.None? then SetSlot(s, id, s.slots[id].(flag := Valid))
    else if !KeyOk(s.cfg, key.value) then s
    else if |key.value| <= s.cfg.keyCap then Complete(s, id, key.value, 0)
    else
      var settled := Settled(s, s.slots[id], |key.value|);
      if settled.None? then s
      else Complete(s, id, key.value, settled.value.0).(hw := Mark(s, settled.value.1, |key.value|))
  }

  function ApplyStoreRawTorn(s: State, t: ThreadId, id: nat, key: seq<Byte>, junk: Slot, bytes: seq<Byte>): State {
    if !PcOf(s, t).Idle? || id >= |s.slots| || IsTorn(s, id) || !KeyOk(s.cfg, key) || !JunkOk(s, key, junk, bytes)
      then s
    else if |key| <= s.cfg.keyCap then Goto(Tear(s, id, key, 0, junk, bytes, t), t, Dead)
    else
      var settled := Settled(s, s.slots[id], |key|);
      if settled.None? then s
      else
        Goto(Tear(s, id, key, settled.value.0, junk, bytes, t), t, Dead).(hw := Mark(s, settled.value.1, |key|))
  }

  function Apply(s: State, step: Step): State {
    match step
    case Begin(t, id, key) =>
      if PcOf(s, t).Idle? && id < |s.slots| && KeyOk(s.cfg, key) then Goto(s, t, Owning(id, key)) else s
    case Settle(t) => ApplySettle(s, t)
    case Enter(t, junk, bytes) => ApplyEnter(s, t, junk, bytes)
    case Leave(t) => ApplyLeave(s, t)
    case End(t) => ApplyEnd(s, t)
    case StoreRaw(id, given) => ApplyStoreRaw(s, id, given)
    case StoreRawTorn(t, id, key, junk, bytes) => ApplyStoreRawTorn(s, t, id, key, junk, bytes)
    case Delete(id) =>
      if id < |s.slots| && s.slots[id].flag.Valid? && !IsTorn(s, id)
        then SetSlot(s, id, s.slots[id].(flag := Deleted)) else s
    case Sanitize(id) =>
      if IsTorn(s, id) then
        Remember(SetSlot(s, id, s.slots[id].(flag := Deleted, len := 0, writer := None)), id, [])
      else s
  }

  // A range to reuse is read, with no lock held, off a record that nobody is in the middle of writing.
  predicate SettlesWhole(s: State, step: Step) {
    step.Settle? && PcOf(s, step.t).Owning? && |PcOf(s, step.t).key| > s.cfg.keyCap ==> !IsTorn(s, PcOf(s, step.t).id)
  }

  function Init(cfg: Config, n: nat): State {
    State(cfg, seq(n, _ => Slot(Untouched, 0, seq(cfg.keyCap, _ => 0), None)), seq(cfg.arenaLen, _ => 0), 0,
      map[], seq(n, _ => []))
  }

  // ---- Invariant ----

  predicate ConfigOk(cfg: Config) {
    cfg.arenaLen < 0x1_0000_0000_0000_0000 && (cfg.keyCap == 0 || KEY_CAP_MIN <= cfg.keyCap <= MAX_KEY_LEN)
  }

  datatype Claimant = OfSlot(id: nat) | OfThread(t: ThreadId)
  datatype Range = Range(at: nat, size: nat)

  // The arena range a slot's record, or an insert that has settled one, is entitled to.
  function Claim(s: State, c: Claimant): Option<Range> {
    match c
    case OfSlot(id) =>
      if id < |s.slots| && !IsTorn(s, id) && s.slots[id].len > s.cfg.keyCap && !s.slots[id].flag.Untouched? then
        Some(Range(OffsetOf(s.slots[id]), KeyClass(s.slots[id].len)))
      else None
    case OfThread(t) =>
      if Writes(PcOf(s, t)) && PcOf(s, t).range.Some? then Some(Range(RangeOf(PcOf(s, t)), KeyClass(|PcOf(s, t).key|)))
      else None
  }

  predicate Writes(pc: Pc) {
    pc.Ready? || pc.Inside?
  }

  predicate Works(pc: Pc) {
    pc.Owning? || Writes(pc)
  }

  function IdOf(pc: Pc): nat {
    if Works(pc) then pc.id else 0
  }

  function IdFor(s: State, c: Claimant): nat {
    match c
    case OfSlot(id) => id
    case OfThread(t) => IdOf(PcOf(s, t))
  }

  // A new range that no record has named yet.
  predicate Sole(s: State, c: Claimant) {
    c.OfThread? && Writes(PcOf(s, c.t)) && PcOf(s, c.t).isNew
  }

  // Whoever works on one id may share its range, once a record has named it; nobody else does.
  predicate Strangers(s: State, c: Claimant, d: Claimant) {
    c != d && (IdFor(s, c) != IdFor(s, d) || Sole(s, c) || Sole(s, d))
  }

  predicate Apart(a: Range, b: Range) {
    a.at + a.size <= b.at || b.at + b.size <= a.at
  }

  predicate Within(inner: Range, outer: Range) {
    outer.at <= inner.at && inner.at + inner.size <= outer.at + outer.size
  }

  // Live ranges stay below the mark, and those of strangers disjoint.
  ghost predicate ClaimsOk(s: State) {
    && (forall c :: Claim(s, c).Some? ==> Claim(s, c).value.at + Claim(s, c).value.size <= s.hw)
    && (forall c, d ::
      Strangers(s, c, d) && Claim(s, c).Some? && Claim(s, d).Some? ==> Apart(Claim(s, c).value, Claim(s, d).value))
  }

  ghost predicate SizesOk(s: State) {
    && ConfigOk(s.cfg) && |s.last| == |s.slots| && |s.arena| == s.cfg.arenaLen && s.hw <= s.cfg.arenaLen
    && (forall id :: 0 <= id < |s.slots| ==>
      |s.slots[id].payload| == s.cfg.keyCap && (s.cfg.keyCap == 0 ==> s.slots[id].len == 0))
  }

  ghost predicate WorkOk(s: State, t: ThreadId) {
    var pc := PcOf(s, t);
    && (Works(pc) ==> pc.id < |s.slots| && KeyOk(s.cfg, pc.key))
    && (Writes(pc) ==> (pc.range.Some? <==> |pc.key| > s.cfg.keyCap) && (pc.isNew ==> pc.range.Some?))
  }

  // What a slot not torn holds is the last key stored for it.
  ghost predicate ContentOk(s: State, id: nat)
    requires id < |s.slots| && |s.last| == |s.slots|
  {
    !IsTorn(s, id) ==>
      ReadKey(s.cfg, s.slots[id], s.arena) == s.last[id] && (s.slots[id].flag.Untouched? ==> s.slots[id].len == 0)
  }

  ghost predicate Inv(s: State) {
    && SizesOk(s) && ClaimsOk(s)
    && (forall t: ThreadId :: WorkOk(s, t))
    && (forall id :: 0 <= id < |s.slots| ==> ContentOk(s, id))
  }

  // ---- Records and ranges ----

  lemma ClassFits(len: nat)
    ensures len <= KeyClass(len) && KeyClass(KeyClass(len)) == KeyClass(len)
  {
  }

  lemma ClassMonotone(a: nat, b: nat)
    requires a <= KeyClass(b)
    ensures KeyClass(a) <= KeyClass(b)
  {
  }

  // A completed overflow record names its range and reads back as the key.
  lemma StoredReads(cfg: Config, slot: Slot, arena: seq<Byte>, key: seq<Byte>, offset: nat)
    requires ConfigOk(cfg) && KeyOk(cfg, key) && |slot.payload| == cfg.keyCap && |arena| == cfg.arenaLen
    requires |key| > cfg.keyCap ==> offset + |key| <= cfg.arenaLen
    requires cfg.keyCap == 0 ==> slot.len == 0
    ensures var after := Stored(cfg, slot, key, offset);
            && |after.payload| == cfg.keyCap && after.flag.Valid? && after.writer == slot.writer
            && ReadKey(cfg, after, StoredArena(cfg, arena, key, offset)) == key
            && after.len == |key|
            && (|key| > cfg.keyCap ==> OffsetOf(after) == offset)
  {
    if |key| > cfg.keyCap {
      Le8RoundTrip(offset);
      OverwriteHolds(slot.payload, 0, Le8(offset));
      OverwriteHolds(arena, offset, key);
    } else if cfg.keyCap > 0 {
      OverwriteHolds(slot.payload, 0, key);
    }
  }

  // A record's claim is read off the record.
  lemma SlotClaim(s: State, id: nat)
    requires id < |s.slots|
    ensures Claim(s, OfSlot(id)).Some? ==>
              s.slots[id].len > s.cfg.keyCap
              && Claim(s, OfSlot(id)).value == Range(OffsetOf(s.slots[id]), KeyClass(s.slots[id].len))
  {
  }

  // What a settlement yields, off a record that is whole: a part of the slot's own range, or new space at the mark.
  lemma SettledRange(s: State, id: nat, len: nat)
    requires Inv(s) && id < |s.slots| && !IsTorn(s, id) && len > s.cfg.keyCap
    ensures var r := Settled(s, s.slots[id], len);
            r.Some? ==>
              var range := Range(r.value.0, KeyClass(len));
              && range.at + range.size <= s.cfg.arenaLen
              && (r.value.1 ==> range.at == s.hw)
              && (!r.value.1 ==> Claim(s, OfSlot(id)).Some? && Within(range, Claim(s, OfSlot(id)).value)
                                 && range.at + range.size <= s.hw)
  {
    var slot := s.slots[id];
    ClassFits(slot.len);
    ClassFits(len);
    if Reusable(s.cfg, slot, len).Some? {
      ClassMonotone(len, slot.len);
      assert Claim(s, OfSlot(id)).Some?;
    }
  }

  // No other slot's record reaches into the range.
  ghost predicate RangeClear(s: State, id: nat, range: Range) {
    && range.at + range.size <= s.cfg.arenaLen
    && forall x: nat :: x != id && Claim(s, OfSlot(x)).Some? ==> Apart(Claim(s, OfSlot(x)).value, range)
  }

  lemma SettledClear(s: State, id: nat, len: nat)
    requires Inv(s) && id < |s.slots| && !IsTorn(s, id) && len > s.cfg.keyCap && Settled(s, s.slots[id], len).Some?
    ensures RangeClear(s, id, Range(Settled(s, s.slots[id], len).value.0, KeyClass(len)))
  {
    SettledRange(s, id, len);
    hide Settled, Claim, KeyClass, WorkOk, ContentOk;
    assert forall x: nat :: x != id ==> Strangers(s, OfSlot(x), OfSlot(id));
  }

  lemma WriterClear(s: State, t: ThreadId)
    requires Inv(s) && Writes(PcOf(s, t)) && PcOf(s, t).range.Some?
    ensures RangeClear(s, PcOf(s, t).id, Range(RangeOf(PcOf(s, t)), KeyClass(|PcOf(s, t).key|)))
  {
    assert Claim(s, OfThread(t)).Some?;
    forall x: nat | x != PcOf(s, t).id && Claim(s, OfSlot(x)).Some?
      ensures Apart(Claim(s, OfSlot(x)).value, Claim(s, OfThread(t)).value) {
      assert Strangers(s, OfSlot(x), OfThread(t));
    }
  }

  // A slot's key survives writes to parts of the arena its record has no claim on.
  lemma KeyStays(s: State, s': State, id: nat, at: nat, bytes: seq<Byte>)
    requires SizesOk(s) && id < |s.slots| && ContentOk(s, id) && ClaimsOk(s)
    requires s'.cfg == s.cfg && |s'.slots| == |s.slots| && |s'.last| == |s.last|
    requires s'.slots[id] == s.slots[id] && s'.last[id] == s.last[id]
    requires s'.arena == s.arena || s'.arena == Overwrite(s.arena, at, bytes)
    requires s'.arena == s.arena
             || (Claim(s, OfSlot(id)).Some? ==> Apart(Claim(s, OfSlot(id)).value, Range(at, |bytes|)))
    ensures ContentOk(s', id)
  {
    var slot := s.slots[id];
    if !IsTorn(s, id) && slot.len > s.cfg.keyCap && !slot.flag.Untouched? && s'.arena != s.arena {
      ClassFits(slot.len);
      assert Claim(s, OfSlot(id)).Some?;
      OverwriteKeeps(s.arena, at, bytes, OffsetOf(slot), slot.len);
    }
  }

  // A write over a clear range leaves every other slot's key alone.
  lemma OthersStay(s: State, s': State, id: nat, key: seq<Byte>, offset: nat, bytes: seq<Byte>)
    requires Inv(s) && id < |s.slots| && |bytes| == |key| && Elsewhere(s, s', id)
    requires |key| > s.cfg.keyCap ==> RangeClear(s, id, Range(offset, KeyClass(|key|)))
    requires s'.arena == StoredArena(s.cfg, s.arena, bytes, offset)
    ensures forall x :: 0 <= x < |s'.slots| && x != id ==> ContentOk(s', x)
  {
    ClassFits(|key|);
    forall x | 0 <= x < |s'.slots| && x != id ensures ContentOk(s', x) {
      assert ContentOk(s, x);
      KeyStays(s, s', x, offset, bytes);
    }
  }

  // Writing a whole record over a clear range: the heart of Leave and StoreRaw.
  lemma CompleteContent(s: State, s': State, id: nat, key: seq<Byte>, offset: nat)
    requires Inv(s) && id < |s.slots| && KeyOk(s.cfg, key)
    requires |key| > s.cfg.keyCap ==> RangeClear(s, id, Range(offset, KeyClass(|key|)))
    requires s'.slots == Complete(s, id, key, offset).slots && s'.last == Complete(s, id, key, offset).last
    requires s'.arena == Complete(s, id, key, offset).arena && s'.cfg == s.cfg && s'.hw <= s.cfg.arenaLen
    ensures Elsewhere(s, s', id) && SizesOk(s')
    ensures forall x :: 0 <= x < |s'.slots| ==> ContentOk(s', x)
    ensures s'.slots[id].len == |key| && (|key| > s.cfg.keyCap ==> OffsetOf(s'.slots[id]) == offset)
  {
    ClassFits(|key|);
    StoredReads(s.cfg, s.slots[id], s.arena, key, offset);
    assert Elsewhere(s, s', id);
    OthersStay(s, s', id, key, offset, key);
    OverwriteSize(s, key, offset);
    assert ContentOk(s', id);
    hide ContentOk, Stored, StoredArena, ReadKey, OffsetOf;
  }

  lemma OverwriteSize(s: State, bytes: seq<Byte>, offset: nat)
    ensures |StoredArena(s.cfg, s.arena, bytes, offset)| == |s.arena|
  {
  }

  // ---- Claims from step to step ----

  // Slots other than one are as before.
  ghost predicate Elsewhere(s: State, s': State, id: nat) {
    && s'.cfg == s.cfg && |s'.slots| == |s.slots| && |s'.last| == |s.last|
    && (forall x ::
      0 <= x < |s.slots| && x != id ==> s'.slots[x] == s.slots[x] && (x < |s.last| ==> s'.last[x] == s.last[x]))
  }

  // Inserts other than one are as before.
  ghost predicate OthersWait(s: State, s': State, t: ThreadId) {
    forall u: ThreadId :: u != t ==> PcOf(s', u) == PcOf(s, u)
  }

  predicate Involved(c: Claimant, id: nat, t: ThreadId) {
    c == OfSlot(id) || c == OfThread(t)
  }

  lemma ClaimsElsewhere(s: State, s': State, id: nat, t: ThreadId)
    requires Elsewhere(s, s', id) && OthersWait(s, s', t)
    ensures forall c :: !Involved(c, id, t) ==>
                          Claim(s', c) == Claim(s, c) && IdFor(s', c) == IdFor(s, c) && Sole(s', c) == Sole(s, c)
  {
    forall c | !Involved(c, id, t)
      ensures Claim(s', c) == Claim(s, c) && IdFor(s', c) == IdFor(s, c) && Sole(s', c) == Sole(s, c) {
      if c.OfSlot? && c.id < |s.slots| {
        assert s'.slots[c.id] == s.slots[c.id];
      }
    }
  }

  // The claim of `c` is now part of what was the claim of `b`, and `c` has no strangers that `b` had not.
  ghost predicate Follows(s: State, s': State, id: nat, t: ThreadId, c: Claimant, b: Claimant) {
    Claim(s', c).Some? ==>
      && Claim(s, b).Some? && Within(Claim(s', c).value, Claim(s, b).value) && Involved(b, id, t)
      && IdFor(s', c) == IdFor(s, b) && (Sole(s', c) ==> Sole(s, b))
  }

  function FromOf(c: Claimant, id: nat, t: ThreadId, slotFrom: Claimant, threadFrom: Claimant): Claimant {
    if c == OfSlot(id) then slotFrom else if c == OfThread(t) then threadFrom else c
  }

  lemma OneFollows(
    s: State, s': State, id: nat, t: ThreadId, slotFrom: Claimant, threadFrom: Claimant, c: Claimant)
    requires Elsewhere(s, s', id) && OthersWait(s, s', t) && Claim(s', c).Some?
    requires Follows(s, s', id, t, OfSlot(id), slotFrom) && Follows(s, s', id, t, OfThread(t), threadFrom)
    ensures var b := FromOf(c, id, t, slotFrom, threadFrom);
            && Claim(s, b).Some? && Within(Claim(s', c).value, Claim(s, b).value) && IdFor(s', c) == IdFor(s, b)
            && (Sole(s', c) ==> Sole(s, b)) && (Involved(c, id, t) <==> Involved(b, id, t))
  {
    ClaimsElsewhere(s, s', id, t);
    hide Claim, IdFor, Sole, Elsewhere, OthersWait;
  }

  // One slot and one insert move on with claims they had.
  lemma ClaimsFollow(s: State, s': State, id: nat, t: ThreadId, slotFrom: Claimant, threadFrom: Claimant)
    requires ClaimsOk(s) && Elsewhere(s, s', id) && OthersWait(s, s', t) && s.hw <= s'.hw
    requires Follows(s, s', id, t, OfSlot(id), slotFrom) && Follows(s, s', id, t, OfThread(t), threadFrom)
    requires Claim(s', OfSlot(id)).Some? && Claim(s', OfThread(t)).Some? && Strangers(s', OfSlot(id), OfThread(t)) ==>
               Strangers(s, slotFrom, threadFrom)
    ensures ClaimsOk(s')
  {
    hide Claim, IdFor, Sole, Elsewhere, OthersWait, Follows;
    forall c | Claim(s', c).Some? ensures Claim(s', c).value.at + Claim(s', c).value.size <= s'.hw {
      OneFollows(s, s', id, t, slotFrom, threadFrom, c);
    }
    forall c, d | Strangers(s', c, d) && Claim(s', c).Some? && Claim(s', d).Some?
      ensures Apart(Claim(s', c).value, Claim(s', d).value) {
      OneFollows(s, s', id, t, slotFrom, threadFrom, c);
      OneFollows(s, s', id, t, slotFrom, threadFrom, d);
      assert Strangers(s, FromOf(c, id, t, slotFrom, threadFrom), FromOf(d, id, t, slotFrom, threadFrom));
    }
  }

  // One new claim, at the old mark; the claims that remain have no new strangers.
  lemma ClaimsGrow(s: State, s': State, newer: Claimant)
    requires ClaimsOk(s) && s'.hw >= s.hw
    requires forall c :: c != newer && Claim(s', c).Some? ==>
                           Claim(s', c) == Claim(s, c) && IdFor(s', c) == IdFor(s, c) && Sole(s', c) == Sole(s, c)
    requires Claim(s', newer).Some? ==>
               Claim(s', newer).value.at == s.hw && s.hw + Claim(s', newer).value.size <= s'.hw
    ensures ClaimsOk(s')
  {
    hide Claim, IdFor, Sole;
    forall c, d | Strangers(s', c, d) && Claim(s', c).Some? && Claim(s', d).Some?
      ensures Apart(Claim(s', c).value, Claim(s', d).value) {
      if c != newer && d != newer {
        assert Strangers(s, c, d);
      }
    }
  }

  // ---- Each step keeps it ----

  lemma WorkStays(s: State, s': State, t: ThreadId)
    requires (forall u: ThreadId :: WorkOk(s, u)) && OthersWait(s, s', t) && WorkOk(s', t)
    requires s'.cfg == s.cfg && |s'.slots| == |s.slots|
    ensures forall u: ThreadId :: WorkOk(s', u)
  {
    forall u: ThreadId ensures WorkOk(s', u) {
      assert WorkOk(s, u);
    }
  }

  // A step that writes no key.
  lemma QuietStep(s: State, s': State, id: nat, t: ThreadId)
    requires Inv(s) && Elsewhere(s, s', id) && OthersWait(s, s', t) && s'.arena == s.arena && SizesOk(s')
    requires ClaimsOk(s') && WorkOk(s', t)
    requires id < |s.slots| ==> ContentOk(s', id)
    ensures Inv(s')
  {
    WorkStays(s, s', t);
    forall x | 0 <= x < |s'.slots| ensures ContentOk(s', x) {
      if x != id {
        assert ContentOk(s, x);
        KeyStays(s, s', x, 0, []);
      }
    }
  }

  lemma BeginStep(s: State, t: ThreadId, id: nat, key: seq<Byte>)
    requires Inv(s)
    ensures Inv(Apply(s, Begin(t, id, key)))
  {
    var s' := Apply(s, Begin(t, id, key));
    if s' != s {
      assert ContentOk(s, id) && WorkOk(s', t);
      ClaimsFollow(s, s', id, t, OfSlot(id), OfThread(t));
      QuietStep(s, s', id, t);
    }
  }

  // A change of a record's flag.
  lemma FlagStep(s: State, id: nat, slot: Slot)
    requires Inv(s) && id < |s.slots| && !IsTorn(s, id) && slot == s.slots[id].(flag := slot.flag)
    requires slot.flag.Untouched? ==> s.slots[id].flag.Untouched?
    ensures Inv(SetSlot(s, id, slot))
  {
    var s' := SetSlot(s, id, slot);
    assert ContentOk(s, id) && WorkOk(s, 0);
    ClaimsFollow(s, s', id, 0, OfSlot(id), OfThread(0));
    QuietStep(s, s', id, 0);
  }

  lemma SanitizeStep(s: State, id: nat)
    requires Inv(s)
    ensures Inv(Apply(s, Sanitize(id)))
  {
    var s' := Apply(s, Sanitize(id));
    if s' != s {
      assert WorkOk(s, 0);
      ClaimsFollow(s, s', id, 0, OfSlot(id), OfThread(0));
      QuietStep(s, s', id, 0);
    }
  }

  lemma SettleStep(s: State, t: ThreadId)
    requires Inv(s) && SettlesWhole(s, Settle(t))
    ensures Inv(Apply(s, Settle(t)))
  {
    var pc := PcOf(s, t);
    var s' := ApplySettle(s, t);
    if pc.Owning? {
      assert WorkOk(s, t) && ContentOk(s, pc.id);
      if |pc.key| > s.cfg.keyCap {
        SettledRange(s, pc.id, |pc.key|);
      }
      SettleClaims(s, t);
      assert Elsewhere(s, s', pc.id) && OthersWait(s, s', t) && WorkOk(s', t) && SizesOk(s') && ContentOk(s', pc.id);
      hide ClaimsOk, Claim, Settled, Reusable, Elsewhere, OthersWait, WorkOk, SizesOk, ContentOk;
      QuietStep(s, s', pc.id, t);
    }
  }

  lemma SettleClaims(s: State, t: ThreadId)
    requires Inv(s) && SettlesWhole(s, Settle(t)) && PcOf(s, t).Owning?
    ensures ClaimsOk(ApplySettle(s, t))
  {
    var pc := PcOf(s, t);
    var s' := ApplySettle(s, t);
    assert WorkOk(s, t);
    assert Elsewhere(s, s', pc.id) && OthersWait(s, s', t);
    ClaimsElsewhere(s, s', pc.id, t);
    assert Claim(s', OfSlot(pc.id)) == Claim(s, OfSlot(pc.id));
    if |pc.key| > s.cfg.keyCap {
      SettledRange(s, pc.id, |pc.key|);
    }
    assert Claim(s', OfThread(t)).Some? ==>
             Claim(s', OfThread(t)).value == Range(RangeOf(PcOf(s', t)), KeyClass(|pc.key|));
    hide Claim, Settled, Reusable, OffsetOf, KeyClass, ContentOk, SizesOk, WorkOk, ClaimsOk, Elsewhere, OthersWait;
    if Writes(PcOf(s', t)) && PcOf(s', t).isNew {
      ClaimsGrow(s, s', OfThread(t));
    } else {
      ClaimsFollow(s, s', pc.id, t, OfSlot(pc.id), OfSlot(pc.id));
    }
  }

  lemma EnterStep(s: State, t: ThreadId, junk: Slot, bytes: seq<Byte>)
    requires Inv(s)
    ensures Inv(Apply(s, Enter(t, junk, bytes)))
  {
    var pc := PcOf(s, t);
    var s' := ApplyEnter(s, t, junk, bytes);
    if s' != s {
      assert WorkOk(s, t) && WorkOk(s', t);
      if |pc.key| > s.cfg.keyCap {
        WriterClear(s, t);
      }
      OverwriteSize(s, bytes, RangeOf(pc));
      assert Elsewhere(s, s', pc.id) && OthersWait(s, s', t);
      ClaimsFollow(s, s', pc.id, t, OfSlot(pc.id), OfThread(t));
      OthersStay(s, s', pc.id, pc.key, RangeOf(pc), bytes);
      WorkStays(s, s', t);
      assert ContentOk(s', pc.id);
    }
  }

  lemma LeaveStep(s: State, t: ThreadId)
    requires Inv(s)
    ensures Inv(Apply(s, Leave(t)))
  {
    var pc := PcOf(s, t);
    var s' := ApplyLeave(s, t);
    if pc.Inside? && pc.id < |s.slots| && s.slots[pc.id].writer == Some(t) {
      assert WorkOk(s, t) && WorkOk(s', t);
      if |pc.key| > s.cfg.keyCap {
        WriterClear(s, t);
      }
      CompleteContent(s, s', pc.id, pc.key, RangeOf(pc));
      assert OthersWait(s, s', t);
      LeaveClaims(s, t);
      hide ClaimsOk, ContentOk, SizesOk, Elsewhere;
      WorkStays(s, s', t);
    }
  }

  lemma LeaveClaims(s: State, t: ThreadId)
    requires Inv(s) && PcOf(s, t).Inside? && PcOf(s, t).id < |s.slots| && s.slots[PcOf(s, t).id].writer == Some(t)
    requires var (s', pc) := (ApplyLeave(s, t), PcOf(s, t));
             && Elsewhere(s, s', pc.id) && s'.slots[pc.id].len == |pc.key|
             && (|pc.key| > s.cfg.keyCap ==> OffsetOf(s'.slots[pc.id]) == RangeOf(pc))
    ensures ClaimsOk(ApplyLeave(s, t))
  {
    var pc := PcOf(s, t);
    var s' := ApplyLeave(s, t);
    assert WorkOk(s, t);
    SlotClaim(s', pc.id);
    assert OthersWait(s, s', t);
    ClaimsFollow(s, s', pc.id, t, OfThread(t), OfThread(t));
  }

  lemma EndStep(s: State, t: ThreadId)
    requires Inv(s)
    ensures Inv(Apply(s, End(t)))
  {
    var pc := PcOf(s, t);
    var s' := Apply(s, End(t));
    if pc.Ready? {
      assert WorkOk(s, t) && ContentOk(s, pc.id);
      if s'.hw < s.hw {
        ReleaseClaims(s, s', t);
      } else {
        ClaimsFollow(s, s', pc.id, t, OfSlot(pc.id), OfThread(t));
      }
      QuietStep(s, s', pc.id, t);
    }
  }

  // Giving back the topmost range leaves every other claim below the lowered mark.
  lemma ReleaseClaims(s: State, s': State, t: ThreadId)
    requires Inv(s) && PcOf(s, t).Ready? && PcOf(s, t).isNew && s' == Apply(s, End(t))
    ensures ClaimsOk(s')
  {
    assert WorkOk(s, t) && Claim(s, OfThread(t)).Some? && Sole(s, OfThread(t));
    var mine := Claim(s, OfThread(t)).value;
    forall c | Claim(s', c).Some?
      ensures Claim(s', c) == Claim(s, c) && c != OfThread(t) && IdFor(s', c) == IdFor(s, c)
              && Sole(s', c) == Sole(s, c)
              && Claim(s', c).value.at + Claim(s', c).value.size <= s'.hw {
      assert Strangers(s, c, OfThread(t));
      assert Apart(Claim(s, c).value, mine);
      ClaimNotEmpty(s, c);
    }
    hide Claim, IdFor, Sole, Apart;
    forall c, d | Strangers(s', c, d) && Claim(s', c).Some? && Claim(s', d).Some?
      ensures Apart(Claim(s', c).value, Claim(s', d).value) {
      assert Strangers(s, c, d);
    }
  }

  lemma ClaimNotEmpty(s: State, c: Claimant)
    requires Inv(s) && Claim(s, c).Some?
    ensures Claim(s, c).value.size > 0
  {
    if c.OfSlot? {
      ClassFits(s.slots[c.id].len);
    } else {
      assert WorkOk(s, c.t);
      ClassFits(|PcOf(s, c.t).key|);
    }
  }

  lemma StoreRawStep(s: State, id: nat, given: Option<seq<Byte>>)
    requires Inv(s)
    ensures Inv(ApplyStoreRaw(s, id, given))
  {
    if id < |s.slots| && !IsTorn(s, id) {
      if given.None? {
        FlagStep(s, id, s.slots[id].(flag := Valid));
      } else if KeyOk(s.cfg, given.value) {
        StoreRawKey(s, id, given.value);
      }
    }
  }

  lemma StoreRawKey(s: State, id: nat, key: seq<Byte>)
    requires Inv(s) && id < |s.slots| && !IsTorn(s, id) && KeyOk(s.cfg, key)
    ensures Inv(ApplyStoreRaw(s, id, Some(key)))
    ensures |key| <= s.cfg.keyCap || Settled(s, s.slots[id], |key|).Some? ==>
              KeyInto(ApplyStoreRaw(s, id, Some(key)), id) == Some(key)
  {
    var s' := ApplyStoreRaw(s, id, Some(key));
    if |key| <= s.cfg.keyCap || Settled(s, s.slots[id], |key|).Some? {
      var offset := if |key| <= s.cfg.keyCap then 0 else Settled(s, s.slots[id], |key|).value.0;
      if |key| > s.cfg.keyCap {
        SettledClear(s, id, |key|);
        SettledRange(s, id, |key|);
      }
      CompleteContent(s, s', id, key, offset);
      assert OthersWait(s, s', 0) && WorkOk(s, 0) && WorkOk(s', 0);
      StoreRawClaims(s, s', id, key, offset);
      assert ContentOk(s', id) && s'.last[id] == key && !IsTorn(s', id) && s'.slots[id].flag.Valid?;
      hide ClaimsOk, SizesOk, Elsewhere, OthersWait, Settled, Stored;
      WorkStays(s, s', 0);
    }
  }

  lemma StoreRawClaims(s: State, s': State, id: nat, key: seq<Byte>, offset: nat)
    requires Inv(s) && id < |s.slots| && !IsTorn(s, id) && KeyOk(s.cfg, key)
    requires s' == ApplyStoreRaw(s, id, Some(key)) && Elsewhere(s, s', id) && OthersWait(s, s', 0)
    requires |key| > s.cfg.keyCap ==>
               Settled(s, s.slots[id], |key|).Some? && offset == Settled(s, s.slots[id], |key|).value.0
    requires s'.slots[id].len == |key| && (|key| > s.cfg.keyCap ==> OffsetOf(s'.slots[id]) == offset)
    ensures ClaimsOk(s')
  {
    if |key| > s.cfg.keyCap {
      SettledRange(s, id, |key|);
    }
    ClaimsElsewhere(s, s', id, 0);
    SlotClaim(s', id);
    assert PcOf(s', 0) == PcOf(s, 0) && Claim(s', OfThread(0)) == Claim(s, OfThread(0));
    hide Claim, Reusable, KeyClass, ContentOk, WorkOk, Stored, Settled, OffsetOf, ReadKey, Elsewhere, OthersWait,
      ClaimsOk;
    if |key| > s.cfg.keyCap && Settled(s, s.slots[id], |key|).value.1 {
      ClaimsGrow(s, s', OfSlot(id));
    } else {
      ClaimsFollow(s, s', id, 0, OfSlot(id), OfThread(0));
    }
  }

  lemma StoreRawTornStep(s: State, t: ThreadId, id: nat, key: seq<Byte>, junk: Slot, bytes: seq<Byte>)
    requires Inv(s)
    ensures Inv(ApplyStoreRawTorn(s, t, id, key, junk, bytes))
  {
    var s' := ApplyStoreRawTorn(s, t, id, key, junk, bytes);
    if s' != s {
      var offset := if |key| <= s.cfg.keyCap then 0 else Settled(s, s.slots[id], |key|).value.0;
      if |key| > s.cfg.keyCap {
        SettledClear(s, id, |key|);
        SettledRange(s, id, |key|);
      }
      OverwriteSize(s, bytes, offset);
      assert Elsewhere(s, s', id) && OthersWait(s, s', t) && WorkOk(s', t);
      ClaimsFollow(s, s', id, t, OfSlot(id), OfThread(t));
      OthersStay(s, s', id, key, offset, bytes);
      assert ContentOk(s', id);
      WorkStays(s, s', t);
    }
  }

  lemma InvStep(s: State, step: Step)
    requires Inv(s) && SettlesWhole(s, step)
    ensures Inv(Apply(s, step))
  {
    hide Inv;
    match step {
      case Begin(t, id, key) => BeginStep(s, t, id, key);
      case Settle(t) => SettleStep(s, t);
      case Enter(t, junk, bytes) => EnterStep(s, t, junk, bytes);
      case Leave(t) => LeaveStep(s, t);
      case End(t) => EndStep(s, t);
      case StoreRaw(id, given) => StoreRawStep(s, id, given);
      case StoreRawTorn(t, id, key, junk, bytes) => StoreRawTornStep(s, t, id, key, junk, bytes);
      case Delete(id) => DeleteStep(s, id);
      case Sanitize(id) => SanitizeStep(s, id);
    }
  }

  lemma DeleteStep(s: State, id: nat)
    requires Inv(s)
    ensures Inv(Apply(s, Delete(id)))
  {
    if Apply(s, Delete(id)) != s {
      FlagStep(s, id, s.slots[id].(flag := Deleted));
    }
  }

  // ---- Runs ----

  function Run(s: State, steps: seq<Step>): State
    decreases |steps|
  {
    if steps == [] then s else Run(Apply(s, steps[0]), steps[1..])
  }

  ghost predicate WholeRun(s: State, steps: seq<Step>)
    decreases |steps|
  {
    steps != [] ==> SettlesWhole(s, steps[0]) && WholeRun(Apply(s, steps[0]), steps[1..])
  }

  lemma {:induction false} InvRun(s: State, steps: seq<Step>)
    requires Inv(s) && WholeRun(s, steps)
    ensures var s' := Run(s, steps); Inv(s') && |s'.slots| == |s.slots| && s'.cfg == s.cfg
    decreases |steps|
  {
    if steps != [] {
      SizesStep(s, steps[0]);
      InvStep(s, steps[0]);
      InvRun(Apply(s, steps[0]), steps[1..]);
    }
  }

  lemma SizesStep(s: State, step: Step)
    ensures |Apply(s, step).slots| == |s.slots| && Apply(s, step).cfg == s.cfg
  {
  }

  lemma InvInit(cfg: Config, n: nat)
    requires ConfigOk(cfg)
    ensures Inv(Init(cfg, n))
  {
    var s := Init(cfg, n);
    forall id | 0 <= id < |s.slots| ensures ContentOk(s, id) {
      assert s.slots[id] == Slot(Untouched, 0, seq(cfg.keyCap, _ => 0), None);
    }
  }

  // In every run in which ranges are settled off whole records, whatever inserts share an id and whoever dies writing:
  // a lookup returns the last key stored for a live node and nothing for any other, and the ranges of different nodes'
  // overflow keys, and ranges reserved for keys not yet stored, stay disjoint and below the mark.
  lemma LookupIsLastStored(cfg: Config, n: nat, steps: seq<Step>, id: nat)
    requires ConfigOk(cfg) && id < n && WholeRun(Init(cfg, n), steps)
    ensures var s := Run(Init(cfg, n), steps);
            && |s.slots| == |s.last| == n
            && (KeyInto(s, id).Some? <==> s.slots[id].flag.Valid? && !IsTorn(s, id))
            && (KeyInto(s, id).Some? ==> KeyInto(s, id).value == s.last[id])
            && ClaimsOk(s) && s.hw <= cfg.arenaLen
  {
    InvInit(cfg, n);
    InvRun(Init(cfg, n), steps);
    var s := Run(Init(cfg, n), steps);
    assert ContentOk(s, id);
  }

  // The slot a step is about.
  function Target(s: State, step: Step): nat {
    match step
    case Begin(_, id, _) => id
    case Settle(t) => IdOf(PcOf(s, t))
    case Enter(t, _, _) => IdOf(PcOf(s, t))
    case Leave(t) => IdOf(PcOf(s, t))
    case End(t) => IdOf(PcOf(s, t))
    case StoreRaw(id, _) => id
    case StoreRawTorn(_, id, _, _, _) => id
    case Delete(id) => id
    case Sanitize(id) => id
  }

  lemma OnlyTargetMoves(s: State, step: Step, other: nat)
    requires other < |s.slots| && |s.last| == |s.slots|
    requires other != Target(s, step)
    ensures |Apply(s, step).last| == |s.last| && Apply(s, step).last[other] == s.last[other]
    ensures Apply(s, step).slots[other] == s.slots[other]
  {
  }

  // No store, reuse, recycle, refusal, takeover or death of a writer changes another node's key.
  lemma OtherKeysUntouched(cfg: Config, n: nat, steps: seq<Step>, step: Step, other: nat)
    requires ConfigOk(cfg) && other < n && WholeRun(Init(cfg, n), steps)
    requires other != Target(Run(Init(cfg, n), steps), step) && SettlesWhole(Run(Init(cfg, n), steps), step)
    ensures var s := Run(Init(cfg, n), steps); KeyInto(Apply(s, step), other) == KeyInto(s, other)
  {
    InvInit(cfg, n);
    InvRun(Init(cfg, n), steps);
    var s := Run(Init(cfg, n), steps);
    hide Run;
    InvStep(s, step);
    SizesStep(s, step);
    OnlyTargetMoves(s, step, other);
    hide Apply;
    assert ContentOk(s, other) && ContentOk(Apply(s, step), other);
  }

  // A store that is not refused makes the lookup return the key at once.
  lemma StoreThenLookup(s: State, id: nat, key: seq<Byte>)
    requires Inv(s) && id < |s.slots| && !IsTorn(s, id) && KeyOk(s.cfg, key)
    ensures var s' := Apply(s, StoreRaw(id, Some(key)));
            if |key| > s.cfg.keyCap && Settled(s, s.slots[id], |key|).None? then s' == s
            else KeyInto(s', id) == Some(key)
  {
    StoreRawKey(s, id, key);
  }

  // ---- The condition on settlements ----

  // Nobody else is at work on the id a step sets out on.
  ghost predicate Alone(s: State, step: Step) {
    match step
    case Begin(_, id, _) => !IsTorn(s, id) && Unworked(s, id)
    case StoreRawTorn(_, id, _, _, _) => Unworked(s, id)
    case _ => true
  }

  ghost predicate Unworked(s: State, id: nat) {
    forall u: ThreadId :: !(Works(PcOf(s, u)) && PcOf(s, u).id == id)
  }

  ghost predicate AloneRun(s: State, steps: seq<Step>)
    decreases |steps|
  {
    steps != [] ==> Alone(s, steps[0]) && AloneRun(Apply(s, steps[0]), steps[1..])
  }

  ghost predicate AloneOk(s: State) {
    && (forall t: ThreadId, u: ThreadId ::
      t != u && Works(PcOf(s, t)) && Works(PcOf(s, u)) ==> PcOf(s, t).id != PcOf(s, u).id)
    && (forall t: ThreadId :: Works(PcOf(s, t)) && !PcOf(s, t).Inside? ==> !IsTorn(s, PcOf(s, t).id))
  }

  // An insert's own step leaves other inserts, and their records, alone.
  lemma AloneMoves(s: State, s': State, t: ThreadId, id: nat)
    requires AloneOk(s) && OthersWait(s, s', t) && Elsewhere(s, s', id)
    requires Works(PcOf(s', t)) ==> PcOf(s', t).id == id && (PcOf(s', t).Inside? || !IsTorn(s', id))
    requires Works(PcOf(s', t)) || (IsTorn(s', id) && !IsTorn(s, id)) ==>
               forall u: ThreadId :: u != t ==> !(Works(PcOf(s, u)) && PcOf(s, u).id == id)
    ensures AloneOk(s')
  {
    forall u: ThreadId | Works(PcOf(s', u)) && !PcOf(s', u).Inside? ensures !IsTorn(s', PcOf(s', u).id) {
      assert u != t ==> PcOf(s', u) == PcOf(s, u);
      if u != t && PcOf(s, u).id != id {
        assert IsTorn(s', PcOf(s, u).id) <==> IsTorn(s, PcOf(s, u).id);
      }
    }
  }

  lemma AloneStays(s: State, s': State)
    requires AloneOk(s) && s'.threads == s.threads && forall id: nat :: IsTorn(s', id) ==> IsTorn(s, id)
    ensures AloneOk(s')
  {
    assert forall u: ThreadId :: PcOf(s', u) == PcOf(s, u);
  }

  lemma OwnMove(s: State, step: Step)
    requires AloneOk(s) && (step.Settle? || step.Enter? || step.Leave? || step.End?) && Works(PcOf(s, step.t))
    ensures AloneOk(Apply(s, step))
  {
    var s' := Apply(s, step);
    var id := PcOf(s, step.t).id;
    assert OthersWait(s, s', step.t) && Elsewhere(s, s', id);
    assert step.Leave? && s' != s ==> !IsTorn(s', id);
    hide Elsewhere, OthersWait;
    AloneMoves(s, s', step.t, id);
  }

  lemma AloneStep(s: State, step: Step)
    requires AloneOk(s) && Alone(s, step)
    ensures AloneOk(Apply(s, step))
  {
    var s' := Apply(s, step);
    if step.StoreRaw? || step.Delete? || step.Sanitize? {
      assert s'.threads == s.threads && forall id: nat :: IsTorn(s', id) ==> IsTorn(s, id);
      hide AloneOk, Apply;
      AloneStays(s, s');
    } else if s' != s {
      if step.Begin? || step.StoreRawTorn? {
        assert OthersWait(s, s', step.t) && Elsewhere(s, s', step.id);
        assert Works(PcOf(s', step.t)) ==> PcOf(s', step.t).id == step.id && step.Begin?;
        assert IsTorn(s', step.id) ==> IsTorn(s, step.id) || step.StoreRawTorn?;
        hide AloneOk, Apply, Elsewhere, OthersWait;
        AloneMoves(s, s', step.t, step.id);
      } else {
        assert Works(PcOf(s, step.t));
        hide AloneOk, Apply;
        OwnMove(s, step);
      }
    }
  }

  lemma {:induction false} AloneIsWhole(s: State, steps: seq<Step>)
    requires AloneOk(s) && AloneRun(s, steps)
    ensures WholeRun(s, steps)
    decreases |steps|
  {
    if steps != [] {
      AloneStep(s, steps[0]);
      AloneIsWhole(Apply(s, steps[0]), steps[1..]);
    }
  }

  // While inserts share no id, which is so while no delete lands on an insert under way, and no raw writer dies on a
  // slot that an insert is working on, every settlement reads a whole record.
  lemma AloneSettlesWhole(cfg: Config, n: nat, steps: seq<Step>)
    requires AloneRun(Init(cfg, n), steps)
    ensures WholeRun(Init(cfg, n), steps)
  {
    assert AloneOk(Init(cfg, n));
    AloneIsWhole(Init(cfg, n), steps);
  }

  // The record as its writer may have it in the middle of a write; nobody else changes it.
  function Midway(s: State, id: nat, junk: Slot): State {
    if IsTorn(s, id) then SetSlot(s, id, junk.(writer := s.slots[id].writer)) else s
  }

  // What the thread has settled keeps clear of the slot's record.
  predicate ClearOf(s: State, t: ThreadId, x: nat) {
    Claim(s, OfThread(t)).Some? && Claim(s, OfSlot(x)).Some? ==>
      Apart(Claim(s, OfThread(t)).value, Claim(s, OfSlot(x)).value)
  }

  // Beside a record with a range big enough: a settlement reads a whole record just when, whatever a writer in the
  // middle of its record has stored so far, what it yields keeps clear of that range.
  lemma SettlesWholeIsExact(s: State, t: ThreadId, x: nat)
    requires Inv(s) && PcOf(s, t).Owning? && |PcOf(s, t).key| > s.cfg.keyCap > 0
    requires x != PcOf(s, t).id && Claim(s, OfSlot(x)).Some? && |PcOf(s, t).key| <= Claim(s, OfSlot(x)).value.size
    ensures SettlesWhole(s, Settle(t)) <==> forall junk: Slot | |junk.payload| == s.cfg.keyCap ::
              ClearOf(Apply(Midway(s, PcOf(s, t).id, junk), Settle(t)), t, x)
  {
    var id := PcOf(s, t).id;
    assert WorkOk(s, t);
    if IsTorn(s, id) {
      var junk := s.slots[x];
      var s' := Apply(Midway(s, id, junk), Settle(t));
      ClassFits(junk.len);
      ClassFits(|PcOf(s, t).key|);
      assert Reusable(s.cfg, junk, |PcOf(s, t).key|) == Some(OffsetOf(junk));
      assert Claim(s', OfThread(t)) == Some(Range(OffsetOf(junk), KeyClass(|PcOf(s, t).key|)));
      assert Claim(s', OfSlot(x)) == Claim(s, OfSlot(x));
      assert !ClearOf(s', t, x);
    } else {
      SettleStep(s, t);
      var s' := Apply(s, Settle(t));
      assert Claim(s', OfThread(t)).Some? ==> Strangers(s', OfThread(t), OfSlot(x));
    }
  }

  // ---- Where an overflow key goes ----

  // A key is stored in its slot's own range when that is big enough, in new space at the mark when that is left, and is
  // refused only when neither is so.
  lemma SettledExactly(s: State, id: nat, len: nat)
    requires Inv(s) && id < |s.slots| && !IsTorn(s, id) && len > s.cfg.keyCap
    ensures var (own, r) := (Claim(s, OfSlot(id)), Settled(s, s.slots[id], len));
            if own.Some? && len <= own.value.size then r == Some((own.value.at, false))
            else if s.hw + KeyClass(len) <= s.cfg.arenaLen then r == Some((s.hw, true))
            else r == None
  {
    assert ContentOk(s, id);
    ClassFits(s.slots[id].len);
  }

  // Space is reserved in the least whole number of 64-byte units.
  lemma ClassIsLeast(len: nat, size: nat)
    ensures KeyClass(len) % 64 == 0 && len <= KeyClass(len)
    ensures size % 64 == 0 && len <= size ==> KeyClass(len) <= size
  {
    var units := KeyClass(len) / 64;
    assert KeyClass(len) == 64 * units && 64 * units < len + 64;
    if size % 64 == 0 && len <= size {
      var others := size / 64;
      assert 64 * units < 64 * (others + 1);
    }
  }

  // A delete leaves nothing to look up, and keeps the range for the next key of that id, which goes there if it fits.
  lemma DeleteKeepsRange(s: State, id: nat, len: nat)
    requires Inv(s) && KeyInto(s, id).Some?
    ensures var s' := Apply(s, Delete(id));
            && KeyInto(s', id) == None && Claim(s', OfSlot(id)) == Claim(s, OfSlot(id)) && s'.hw == s.hw
            && (len > s.cfg.keyCap && Claim(s, OfSlot(id)).Some? && len <= Claim(s, OfSlot(id)).value.size ==>
                  Settled(s', s'.slots[id], len) == Some((Claim(s, OfSlot(id)).value.at, false)))
  {
    assert ContentOk(s, id);
    ClassFits(s.slots[id].len);
    hide ReadKey, ContentOk;
  }

  // An insert that settles a range and ends without having written leaves the mark as it found it.
  lemma SettleThenEnd(s: State, t: ThreadId)
    requires Inv(s) && PcOf(s, t).Owning? && SettlesWhole(s, Settle(t))
    ensures var s' := Apply(Apply(s, Settle(t)), End(t)); s'.hw == s.hw && s'.slots == s.slots && s'.arena == s.arena
    ensures PcOf(Apply(Apply(s, Settle(t)), End(t)), t).Idle?
  {
    assert WorkOk(s, t);
    if |PcOf(s, t).key| > s.cfg.keyCap {
      SettledExactly(s, PcOf(s, t).id, |PcOf(s, t).key|);
    }
    hide Claim, Settled, ClaimsOk, SizesOk, ContentOk;
  }
}
