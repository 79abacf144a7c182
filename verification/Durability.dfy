/** What reaches the disk (format.rs, invalidate.rs): flushes that stamp a completion mark after the data, the one-way
    invalidation latch, the stale sidecar, and a crash at any point. The kernel may write any page back at any time. */
module Durability {

  type ThreadId = nat

  // The completion mark. `floor` records beside the stored number how much of each page its flush began with.
  datatype Mark = Mark(txn: nat, floor: seq<nat>)

  datatype Header = Header(mark: Mark, clean: bool, latch: bool)

  // The mapping or the disk: the header fields, and per page how many writes it holds. Page 0 carries the header.
  datatype Image = Image(header: Header, data: seq<nat>)

  datatype Pc =
    | Idle
    | Flushing(txn: MaybeTxn, floor: seq<nat>, synced: set<nat>)
    | Stamping(txn: MaybeTxn, floor: seq<nat>)
    | Cleaning
    | Heading
    | Flushed
    | Latching
    | Zeroing
    | SyncingLatch
    | Marking(inBand: bool)
    | SyncingSidecar(inBand: bool)
    | Invalidated(inBand: bool, sidecar: bool)

  datatype MaybeTxn = NoTxn | Txn(txn: nat)

  // `promised` records that some invalidation has returned success.
  datatype State = State(
    mem: Image, disk: Image, sidecar: bool, sidecarDurable: bool, threads: map<ThreadId, Pc>, promised: bool)

  datatype Step =
    | Apply(page: nat)
    | WriteBack(page: nat)
    | BeginFlush(t: ThreadId, txn: MaybeTxn)
    | SyncPage(t: ThreadId, page: nat)
    | EndSync(t: ThreadId)
    | Stamp(t: ThreadId)
    | SetClean(t: ThreadId)
    | SyncHeader(t: ThreadId)
    | FlushFails(t: ThreadId)
    | BeginInvalidate(t: ThreadId, isOpen: bool)
    | SetLatch(t: ThreadId)
    | ZeroMark(t: ThreadId)
    | SyncLatch(t: ThreadId, ok: bool)
    | WriteSidecar(t: ThreadId, ok: bool)
    | SyncSidecar(t: ThreadId, ok: bool)
    | PersistSidecar
    | Crash

  function PcOf(s: State, t: ThreadId): Pc {
    if t in s.threads then s.threads[t] else Idle
  }

  function Goto(s: State, t: ThreadId, pc: Pc): State {
    s.(threads := s.threads[t := pc])
  }

  // One page goes to disk as it stands; the header page takes the header fields with it.
  function Written(s: State, page: nat): State {
    if page < |s.mem.data| && |s.disk.data| == |s.mem.data| then
      var disk := s.disk.(data := s.disk.data[page := s.mem.data[page]]);
      s.(disk := if page == 0 then disk.(header := s.mem.header) else disk)
    else s
  }

  // The number a handle reads: 0 once the latch is set.
  function Watermark(image: Image): nat {
    if image.header.latch then 0 else image.header.mark.txn
  }

  // open's refusals on what a fresh process finds.
  predicate Refused(s: State) {
    s.sidecar || s.mem.header.latch
  }

  function Next(s: State, step: Step): State {
    match step
    case Apply(page) => if page < |s.mem.data| then s.(mem := s.mem.(data := s.mem.data[page := s.mem.data[page] + 1]))
      else s
    case WriteBack(page) => Written(s, page)
    case BeginFlush(t, txn) => if PcOf(s, t).Idle? || PcOf(s, t).Flushed? then Goto(s, t, Flushing(txn, s.mem.data, {}))
      else s
    case SyncPage(t, page) =>
      var pc := PcOf(s, t);
      if pc.Flushing? && page < |s.mem.data|
        then Goto(Written(s, page), t, Flushing(pc.txn, pc.floor, pc.synced + {page})) else s
    case EndSync(t) =>
      var pc := PcOf(s, t);
      if pc.Flushing? && forall p ::
        0 <= p < |s.mem.data| ==> p in pc.synced then Goto(s, t, Stamping(pc.txn, pc.floor)) else s
    case Stamp(t) =>
      var pc := PcOf(s, t);
      if !pc.Stamping? then s
      else if pc.txn.NoTxn? then Goto(s, t, Cleaning)
      else Goto(s, t, Cleaning).(mem := s.mem.(header := s.mem.header.(mark := Mark(pc.txn.txn, pc.floor))))
    case SetClean(t) =>
      if PcOf(s, t).Cleaning? then Goto(s, t, Heading).(mem := s.mem.(header := s.mem.header.(clean := true))) else s
    case SyncHeader(t) => if PcOf(s, t).Heading? then Goto(Written(s, 0), t, Flushed) else s
    case FlushFails(t) =>
      var pc := PcOf(s, t);
      if pc.Flushing? || pc.Heading? then Goto(s, t, Idle) else s
    case BeginInvalidate(t, isOpen) =>
      if PcOf(s, t).Idle? || PcOf(s, t).Flushed? then Goto(s, t, if isOpen then Latching else Marking(false)) else s
    case SetLatch(t) =>
      if PcOf(s, t).Latching? then Goto(s, t, Zeroing).(mem := s.mem.(header := s.mem.header.(latch := true))) else s
    case ZeroMark(t) =>
      if PcOf(s, t).Zeroing? then
        Goto(s, t, SyncingLatch).(mem := s.mem.(header := s.mem.header.(mark := Mark(0, seq(|s.mem.data|, _ => 0)))))
      else s
    case SyncLatch(t, ok) =>
      if PcOf(s, t).SyncingLatch? then Goto(if ok then Written(s, 0) else s, t, Marking(ok)) else s
    case WriteSidecar(t, ok) =>
      var pc := PcOf(s, t);
      if !pc.Marking? then s
      else if ok then Goto(s, t, SyncingSidecar(pc.inBand)).(sidecar := true)
      else Finished(s, t, pc.inBand, false)
    case SyncSidecar(t, ok) =>
      var pc := PcOf(s, t);
      if !pc.SyncingSidecar? then s
      else if ok then Finished(s.(sidecarDurable := true), t, pc.inBand, true)
      else Finished(s, t, pc.inBand, false)
    case PersistSidecar => s.(sidecarDurable := s.sidecarDurable || s.sidecar)
    case Crash => s.(mem := s.disk, sidecar := s.sidecarDurable, threads := map[])
  }

  // An invalidation reports failure only when neither marker became durable.
  function Finished(s: State, t: ThreadId, inBand: bool, sidecar: bool): State {
    Goto(s, t, Invalidated(inBand, sidecar)).(promised := s.promised || inBand || sidecar)
  }

  function Init(pages: nat): State {
    var zeros := seq(pages, _ => 0);
    var image := Image(Header(Mark(0, zeros), false, false), zeros);
    State(image, image, false, false, map[], false)
  }

  function Run(s: State, steps: seq<Step>): State
    decreases |steps|
  {
    if steps == [] then s else Run(Next(s, steps[0]), steps[1..])
  }

  // ---- Invariant ----

  predicate Covered(floor: seq<nat>, data: seq<nat>) {
    |floor| == |data| && forall p :: 0 <= p < |data| ==> floor[p] <= data[p]
  }

  ghost predicate ThreadOk(s: State, t: ThreadId) {
    var pc := PcOf(s, t);
    && (pc.Flushing? ==> Covered(pc.floor, s.mem.data) && forall p ::
      p in pc.synced && p < |s.disk.data| && p < |pc.floor| ==> pc.floor[p] <= s.disk.data[p])
    && (pc.Stamping? ==> Covered(pc.floor, s.disk.data))
    && (pc.Zeroing? || pc.SyncingLatch? ==> s.mem.header.latch)
    && (pc.Marking? && pc.inBand ==> s.disk.header.latch)
    && (pc.Invalidated? && (pc.inBand || pc.sidecar) ==> s.promised)
    && (pc.SyncingSidecar? ==> s.sidecar && (pc.inBand ==> s.disk.header.latch))
  }

  ghost predicate Inv(s: State) {
    && |s.mem.data| == |s.disk.data| > 0 && Covered(s.disk.data, s.mem.data)
    && Covered(s.mem.header.mark.floor, s.disk.data) && Covered(s.disk.header.mark.floor, s.disk.data)
    && (s.disk.header.latch ==> s.mem.header.latch)
    && (s.sidecarDurable ==> s.sidecar)
    && (s.promised ==> s.disk.header.latch || s.sidecarDurable)
    && forall t: ThreadId :: ThreadOk(s, t)
  }

  lemma InitInv(pages: nat)
    requires pages > 0
    ensures Inv(Init(pages))
  {
  }

  lemma WrittenKeeps(s: State, page: nat)
    requires Inv(s) && page < |s.mem.data|
    ensures Inv(Written(s, page))
    ensures Written(s, page).disk.data[page] == s.mem.data[page] && Written(s, page).threads == s.threads
            && Written(s, page).mem == s.mem
    ensures page == 0 ==> Written(s, page).disk.header == s.mem.header
  {
    var s' := Written(s, page);
    assert forall p :: 0 <= p < |s.disk.data| ==> s.disk.data[p] <= s'.disk.data[p];
    forall t: ThreadId ensures ThreadOk(s', t) {
      assert ThreadOk(s, t);
    }
  }

  // A move of one thread with nothing else.
  lemma LocalMove(s: State, t: ThreadId, pc: Pc)
    requires Inv(s) && ThreadOk(Goto(s, t, pc), t)
    ensures Inv(Goto(s, t, pc))
  {
    var s' := Goto(s, t, pc);
    forall u: ThreadId ensures ThreadOk(s', u) {
      assert ThreadOk(s, u);
    }
  }

  // A change of header fields in memory that keeps the latch and stamps only what is covered.
  lemma HeaderMove(s: State, header: Header)
    requires Inv(s) && Covered(header.mark.floor, s.disk.data) && (s.mem.header.latch ==> header.latch)
    ensures Inv(s.(mem := s.mem.(header := header)))
  {
    var s' := s.(mem := s.mem.(header := header));
    forall u: ThreadId ensures ThreadOk(s', u) {
      assert ThreadOk(s, u);
    }
  }

  lemma FlushStep(s: State, step: Step)
    requires Inv(s)
    requires step.BeginFlush? || step.EndSync? || step.SetClean? || step.SyncHeader? || step.FlushFails?
    ensures Inv(Next(s, step))
  {
    var t := step.t;
    var pc := PcOf(s, t);
    assert ThreadOk(s, t);
    if step.SyncHeader? && pc.Heading? {
      WrittenKeeps(s, 0);
      LocalMove(Written(s, 0), t, Flushed);
    } else if step.SetClean? && pc.Cleaning? {
      HeaderMove(s, s.mem.header.(clean := true));
      LocalMove(s.(mem := s.mem.(header := s.mem.header.(clean := true))), t, Heading);
    } else if Next(s, step) != s {
      LocalMove(s, t, PcOf(Next(s, step), t));
    }
  }

  lemma SyncStep(s: State, t: ThreadId, page: nat)
    requires Inv(s)
    ensures Inv(Next(s, SyncPage(t, page)))
  {
    var pc := PcOf(s, t);
    assert ThreadOk(s, t);
    if pc.Flushing? && page < |s.mem.data| {
      WrittenKeeps(s, page);
      assert ThreadOk(Written(s, page), t);
      LocalMove(Written(s, page), t, Flushing(pc.txn, pc.floor, pc.synced + {page}));
    }
  }

  lemma StampStep(s: State, t: ThreadId)
    requires Inv(s)
    ensures Inv(Next(s, Stamp(t)))
  {
    var pc := PcOf(s, t);
    assert ThreadOk(s, t);
    if pc.Stamping? {
      if pc.txn.NoTxn? {
        LocalMove(s, t, Cleaning);
      } else {
        HeaderMove(s, s.mem.header.(mark := Mark(pc.txn.txn, pc.floor)));
        LocalMove(s.(mem := s.mem.(header := s.mem.header.(mark := Mark(pc.txn.txn, pc.floor)))), t, Cleaning);
      }
    }
  }

  lemma ApplyStep(s: State, page: nat)
    requires Inv(s)
    ensures Inv(Next(s, Apply(page)))
  {
    var s' := Next(s, Apply(page));
    forall u: ThreadId ensures ThreadOk(s', u) {
      assert ThreadOk(s, u);
    }
  }

  // Markers only ever get added.
  lemma MarkerMove(s: State, sidecar: bool, durable: bool, promised: bool)
    requires Inv(s) && (s.sidecar ==> sidecar) && (s.sidecarDurable ==> durable) && (durable ==> sidecar)
             && (s.promised ==> promised)
    requires promised ==> s.disk.header.latch || durable
    ensures Inv(s.(sidecar := sidecar, sidecarDurable := durable, promised := promised))
  {
    var s' := s.(sidecar := sidecar, sidecarDurable := durable, promised := promised);
    forall u: ThreadId ensures ThreadOk(s', u) {
      assert ThreadOk(s, u);
    }
  }

  lemma InvalidateStep(s: State, step: Step)
    requires Inv(s) && (step.BeginInvalidate? || step.SetLatch? || step.ZeroMark? || step.SyncLatch?)
    ensures Inv(Next(s, step))
  {
    var t := step.t;
    var pc := PcOf(s, t);
    assert ThreadOk(s, t);
    if step.SetLatch? && pc.Latching? {
      HeaderMove(s, s.mem.header.(latch := true));
      LocalMove(s.(mem := s.mem.(header := s.mem.header.(latch := true))), t, Zeroing);
    } else if step.ZeroMark? && pc.Zeroing? {
      var header := s.mem.header.(mark := Mark(0, seq(|s.mem.data|, _ => 0)));
      HeaderMove(s, header);
      LocalMove(s.(mem := s.mem.(header := header)), t, SyncingLatch);
    } else if step.SyncLatch? && pc.SyncingLatch? && step.ok {
      WrittenKeeps(s, 0);
      LocalMove(Written(s, 0), t, Marking(true));
    } else if Next(s, step) != s {
      LocalMove(s, t, PcOf(Next(s, step), t));
    }
  }

  lemma SidecarStep(s: State, step: Step)
    requires Inv(s) && (step.WriteSidecar? || step.SyncSidecar?)
    ensures Inv(Next(s, step))
  {
    var t := step.t;
    var pc := PcOf(s, t);
    assert ThreadOk(s, t);
    if step.WriteSidecar? && pc.Marking? {
      if step.ok {
        MarkerMove(s, true, s.sidecarDurable, s.promised);
        LocalMove(s.(sidecar := true), t, SyncingSidecar(pc.inBand));
      } else {
        MarkerMove(s, s.sidecar, s.sidecarDurable, s.promised || pc.inBand);
        LocalMove(s.(promised := s.promised || pc.inBand), t, Invalidated(pc.inBand, false));
      }
    } else if step.SyncSidecar? && pc.SyncingSidecar? {
      var durable := s.sidecarDurable || step.ok;
      MarkerMove(s, s.sidecar, durable, s.promised || pc.inBand || step.ok);
      LocalMove(s.(sidecarDurable := durable, promised := s.promised || pc.inBand || step.ok), t,
        Invalidated(pc.inBand, step.ok));
    }
  }

  lemma InvStep(s: State, step: Step)
    requires Inv(s)
    ensures Inv(Next(s, step))
  {
    match step {
      case Apply(page) => ApplyStep(s, page);
      case WriteBack(page) =>
        if page < |s.mem.data| {
          WrittenKeeps(s, page);
        }
      case Stamp(t) => StampStep(s, t);
      case BeginFlush(_, _) => FlushStep(s, step);
      case SyncPage(t, page) => SyncStep(s, t, page);
      case EndSync(_) => FlushStep(s, step);
      case SetClean(_) => FlushStep(s, step);
      case SyncHeader(_) => FlushStep(s, step);
      case FlushFails(_) => FlushStep(s, step);
      case BeginInvalidate(_, _) => InvalidateStep(s, step);
      case SetLatch(_) => InvalidateStep(s, step);
      case ZeroMark(_) => InvalidateStep(s, step);
      case SyncLatch(_, _) => InvalidateStep(s, step);
      case WriteSidecar(_, _) => SidecarStep(s, step);
      case SyncSidecar(_, _) => SidecarStep(s, step);
      case PersistSidecar => MarkerMove(s, s.sidecar, s.sidecarDurable || s.sidecar, s.promised);
      case Crash =>
        assert forall u: ThreadId :: ThreadOk(Next(s, Crash), u);
    }
  }

  lemma {:induction false} InvRun(s: State, steps: seq<Step>)
    requires Inv(s)
    ensures Inv(Run(s, steps))
    decreases |steps|
  {
    if steps != [] {
      InvStep(s, steps[0]);
      InvRun(Next(s, steps[0]), steps[1..]);
    }
  }

  // ---- What runs promise ----

  // Whatever the kernel wrote back, whoever flushed at once and wherever it crashed: the mark found on disk never
  // claims more than the data found there, page by page, that is everything applied before its flush began.
  lemma DurableMarkIsCovered(pages: nat, steps: seq<Step>)
    requires pages > 0
    ensures var s := Run(Init(pages), steps);
            Covered(s.disk.header.mark.floor, s.disk.data) && Covered(s.mem.header.mark.floor, s.disk.data)
  {
    InitInv(pages);
    InvRun(Init(pages), steps);
  }

  // Where a flush that began over `floor` stands.
  ghost predicate FlushOf(s: State, t: ThreadId, floor: seq<nat>) {
    var pc := PcOf(s, t);
    && (pc.Flushing? || pc.Stamping? ==> pc.floor == floor)
    && (Stamped(pc) ==> Covered(floor, s.disk.data))
  }

  lemma FlushGoesOn(s: State, t: ThreadId, floor: seq<nat>, step: Step)
    requires Inv(s) && FlushOf(s, t, floor) && !step.Crash?
             && !((step.BeginFlush? || step.BeginInvalidate?) && step.t == t)
    ensures FlushOf(Next(s, step), t, floor)
  {
    var data, data' := s.disk.data, Next(s, step).disk.data;
    assert ThreadOk(s, t);
    DiskGrows(s, step);
    SyncingGoesOn(s, t, step);
    StampingGoesOn(s, t, step);
    StampedGoesOn(s, t, step);
    hide Inv, Covered, Next;
    if PcOf(s, t).Stamping? {
      CoveredTransitive(floor, data, data');
    }
    if Covered(floor, data) {
      CoveredTransitive(floor, data, data');
    }
  }

  // The phases of one flush follow each other.
  lemma SyncingGoesOn(s: State, t: ThreadId, step: Step)
    requires !step.Crash? && !((step.BeginFlush? || step.BeginInvalidate?) && step.t == t)
    ensures PcOf(Next(s, step), t).Flushing? ==>
              PcOf(s, t).Flushing? && PcOf(Next(s, step), t).floor == PcOf(s, t).floor
  {
    hide Written;
    forall page: nat ensures Written(s, page).threads == s.threads {
      WrittenThreads(s, page);
    }
  }

  lemma StampingGoesOn(s: State, t: ThreadId, step: Step)
    requires !step.Crash? && !((step.BeginFlush? || step.BeginInvalidate?) && step.t == t)
    ensures PcOf(Next(s, step), t).Stamping? ==>
              (PcOf(s, t).Flushing? || PcOf(s, t).Stamping?) && PcOf(Next(s, step), t).floor == PcOf(s, t).floor
  {
    hide Written;
    forall page: nat ensures Written(s, page).threads == s.threads {
      WrittenThreads(s, page);
    }
  }

  lemma StampedGoesOn(s: State, t: ThreadId, step: Step)
    requires !step.Crash? && !((step.BeginFlush? || step.BeginInvalidate?) && step.t == t)
    ensures Stamped(PcOf(Next(s, step), t)) ==> PcOf(s, t).Stamping? || Stamped(PcOf(s, t))
  {
    hide Written;
    forall page: nat ensures Written(s, page).threads == s.threads {
      WrittenThreads(s, page);
    }
  }

  predicate Stamped(pc: Pc) {
    pc.Cleaning? || pc.Heading? || pc.Flushed?
  }

  lemma WrittenThreads(s: State, page: nat)
    ensures Written(s, page).threads == s.threads
  {
  }

  lemma DiskGrows(s: State, step: Step)
    requires Inv(s) && !step.Crash?
    ensures Covered(s.disk.data, Next(s, step).disk.data)
  {
    hide ThreadOk;
  }

  lemma CoveredTransitive(a: seq<nat>, b: seq<nat>, c: seq<nat>)
    requires Covered(a, b) && Covered(b, c)
    ensures Covered(a, c)
  {
  }

  lemma {:induction false} FlushRuns(s: State, t: ThreadId, floor: seq<nat>, steps: seq<Step>)
    requires Inv(s) && FlushOf(s, t, floor)
    requires forall i ::
             0 <= i < |steps| ==>
             !steps[i].Crash? && !((steps[i].BeginFlush? || steps[i].BeginInvalidate?) && steps[i].t == t)
    ensures FlushOf(Run(s, steps), t, floor)
    decreases |steps|
  {
    if steps != [] {
      FlushGoesOn(s, t, floor, steps[0]);
      InvStep(s, steps[0]);
      hide Inv, FlushOf;
      FlushRuns(Next(s, steps[0]), t, floor, steps[1..]);
    }
  }

  // A flush that has got as far as its stamp made durable every write applied before it began.
  lemma FlushMakesDurable(pages: nat, before: seq<Step>, t: ThreadId, txn: MaybeTxn, steps: seq<Step>)
    requires pages > 0 && (PcOf(Run(Init(pages), before), t).Idle? || PcOf(Run(Init(pages), before), t).Flushed?)
    requires forall i ::
             0 <= i < |steps| ==>
             !steps[i].Crash? && !((steps[i].BeginFlush? || steps[i].BeginInvalidate?) && steps[i].t == t)
    ensures var s := Run(Init(pages), before);
            var s' := Run(Next(s, BeginFlush(t, txn)), steps);
            Stamped(PcOf(s', t)) ==> Covered(s.mem.data, s'.disk.data)
  {
    InitInv(pages);
    InvRun(Init(pages), before);
    var s := Run(Init(pages), before);
    hide Run;
    InvStep(s, BeginFlush(t, txn));
    assert FlushOf(Next(s, BeginFlush(t, txn)), t, s.mem.data);
    hide Inv, Next, Covered;
    FlushRuns(Next(s, BeginFlush(t, txn)), t, s.mem.data, steps);
  }

  // Once set, the latch stays set until a crash, and every handle reads 0, whatever a racing flush stamps.
  lemma {:induction false} LatchSticks(s: State, steps: seq<Step>)
    requires s.mem.header.latch && forall i :: 0 <= i < |steps| ==> !steps[i].Crash?
    ensures Run(s, steps).mem.header.latch && Watermark(Run(s, steps).mem) == 0
    decreases |steps|
  {
    if steps != [] {
      assert Next(s, steps[0]).mem.header.latch;
      LatchSticks(Next(s, steps[0]), steps[1..]);
    }
  }

  lemma {:induction false} PromiseSticks(s: State, steps: seq<Step>)
    requires s.promised
    ensures Run(s, steps).promised
    decreases |steps|
  {
    if steps != [] {
      PromiseSticks(Next(s, steps[0]), steps[1..]);
    }
  }

  lemma RunSplits(s: State, a: seq<Step>, b: seq<Step>)
    ensures Run(s, a + b) == Run(Run(s, a), b)
    decreases |a|
  {
    if a == [] {
      assert a + b == b;
    } else {
      assert (a + b)[1..] == a[1..] + b;
      RunSplits(Next(s, a[0]), a[1..], b);
    }
  }

  // After an invalidation has returned success, every later open is refused: at once, and on every crash image.
  lemma InvalidationIsFinal(pages: nat, before: seq<Step>, t: ThreadId, later: seq<Step>)
    requires pages > 0
    requires var pc := PcOf(Run(Init(pages), before), t); pc.Invalidated? && (pc.inBand || pc.sidecar)
    ensures var s := Run(Init(pages), before + later);
            Refused(s) && Refused(Next(s, Crash))
  {
    InitInv(pages);
    InvRun(Init(pages), before);
    var mid := Run(Init(pages), before);
    assert ThreadOk(mid, t);
    hide ThreadOk, Covered;
    RunSplits(Init(pages), before, later);
    InvRun(mid, later);
    PromiseSticks(mid, later);
  }

  // The in-band mark comes first: a sidecar that this call put on disk was preceded by a durable latch, or by a
  // latch that could not be set.
  lemma SidecarComesSecond(pages: nat, steps: seq<Step>, t: ThreadId)
    requires pages > 0 && PcOf(Run(Init(pages), steps), t).SyncingSidecar? && PcOf(Run(Init(pages), steps), t).inBand
    ensures Run(Init(pages), steps).disk.header.latch
  {
    InitInv(pages);
    InvRun(Init(pages), steps);
    assert ThreadOk(Run(Init(pages), steps), t);
  }
}
