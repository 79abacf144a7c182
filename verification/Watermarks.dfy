/** The number a host finds in the completion mark: which flush it was given to, and what it vouches for. */
module Watermarks {
  import opened Durability

  // Some flush of the run was given `txn`, and began over exactly `floor`.
  ghost predicate Began(pages: nat, steps: seq<Step>, txn: nat, floor: seq<nat>) {
    exists i, t: ThreadId ::
      0 <= i < |steps| && steps[i] == BeginFlush(t, Txn(txn)) && Run(Init(pages), steps[..i]).mem.data == floor
  }

  ghost predicate MarkBegan(pages: nat, steps: seq<Step>, mark: Mark) {
    mark.txn == 0 || Began(pages, steps, mark.txn, mark.floor)
  }

  // Every mark there is, and every mark a flush is on its way to make, goes back to the start of a flush.
  ghost predicate Traced(pages: nat, steps: seq<Step>, s: State) {
    && MarkBegan(pages, steps, s.mem.header.mark) && MarkBegan(pages, steps, s.disk.header.mark)
    && forall t: ThreadId :: FlushBegan(pages, steps, PcOf(s, t))
  }

  ghost predicate FlushBegan(pages: nat, steps: seq<Step>, pc: Pc) {
    (pc.Flushing? || pc.Stamping?) && pc.txn.Txn? ==> Began(pages, steps, pc.txn.txn, pc.floor)
  }

  lemma BeganLater(pages: nat, steps: seq<Step>, step: Step)
    ensures forall txn: nat, floor :: Began(pages, steps, txn, floor) ==> Began(pages, steps + [step], txn, floor)
  {
    var more := steps + [step];
    forall txn: nat, floor | Began(pages, steps, txn, floor) ensures Began(pages, more, txn, floor) {
      var i, t: ThreadId :|
        0 <= i < |steps| && steps[i] == BeginFlush(t, Txn(txn)) && Run(Init(pages), steps[..i]).mem.data == floor;
      assert more[..i] == steps[..i] && more[i] == steps[i];
    }
  }

  // What a flush notes down as it begins.
  lemma BeginsHere(pages: nat, steps: seq<Step>, t: ThreadId, txn: nat)
    ensures Began(pages, steps + [BeginFlush(t, Txn(txn))], txn, Run(Init(pages), steps).mem.data)
  {
    var more := steps + [BeginFlush(t, Txn(txn))];
    assert more[..|steps|] == steps && more[|steps|] == BeginFlush(t, Txn(txn));
  }

  // Where the mark in memory can come from.
  lemma MarkMoves(s: State, step: Step)
    ensures var (was, mark) := (s.mem.header.mark, Next(s, step).mem.header.mark);
            || mark == was || mark.txn == 0
            || (step.Crash? && mark == s.disk.header.mark)
            || (step.Stamp? && PcOf(s, step.t).Stamping? && PcOf(s, step.t).txn == Txn(mark.txn)
                && mark.floor == PcOf(s, step.t).floor)
  {
    hide Written;
    WrittenOnlyDisk(s);
  }

  lemma WrittenOnlyDisk(s: State)
    ensures forall page: nat :: Written(s, page).mem == s.mem && Written(s, page).threads == s.threads
  {
  }

  // The header on disk is what it was, or what it is in memory.
  lemma DiskMoves(s: State, step: Step)
    ensures Next(s, step).disk.header == s.disk.header || Next(s, step).disk.header == s.mem.header
  {
  }

  // A flush under way keeps what it was given and began over.
  lemma FlushMoves(s: State, step: Step, t: ThreadId)
    ensures var (was, pc) := (PcOf(s, t), PcOf(Next(s, step), t));
            pc.Flushing? || pc.Stamping? ==>
              || ((was.Flushing? || was.Stamping?) && was.txn == pc.txn && was.floor == pc.floor)
              || (step == BeginFlush(t, pc.txn) && pc.floor == s.mem.data)
  {
    hide Written;
    WrittenOnlyDisk(s);
  }

  lemma TracedStep(pages: nat, steps: seq<Step>, step: Step)
    requires Traced(pages, steps, Run(Init(pages), steps))
    ensures Traced(pages, steps + [step], Next(Run(Init(pages), steps), step))
  {
    var s := Run(Init(pages), steps);
    var s' := Next(s, step);
    var more := steps + [step];
    BeganLater(pages, steps, step);
    MarkMoves(s, step);
    DiskMoves(s, step);
    assert step.Stamp? ==> FlushBegan(pages, steps, PcOf(s, step.t));
    hide Next, Run, Began;
    forall t: ThreadId ensures FlushBegan(pages, more, PcOf(s', t)) {
      FlushMoves(s, step, t);
      assert FlushBegan(pages, steps, PcOf(s, t));
      var pc := PcOf(s', t);
      if (pc.Flushing? || pc.Stamping?) && pc.txn.Txn? && step == BeginFlush(t, pc.txn) {
        BeginsHere(pages, steps, t, pc.txn.txn);
      }
    }
  }

  lemma {:induction false} TracedRun(pages: nat, steps: seq<Step>)
    ensures Traced(pages, steps, Run(Init(pages), steps))
    decreases |steps|
  {
    if steps != [] {
      var (front, last) := (steps[..|steps| - 1], steps[|steps| - 1]);
      assert steps == front + [last];
      TracedRun(pages, front);
      RunSplits(Init(pages), front, [last]);
      assert Run(Run(Init(pages), front), [last]) == Next(Run(Init(pages), front), last) by {
        RunOne(Run(Init(pages), front), last);
      }
      TracedStep(pages, front, last);
    }
  }

  lemma RunOne(s: State, step: Step)
    ensures Run(s, [step]) == Next(s, step)
  {
    assert [step][1..] == [];
    assert Run(Next(s, step), []) == Next(s, step);
  }

  // In every run: a number other than 0 that a host finds on disk was given to some flush of that run, and everything
  // that had been applied when that flush began is on disk with it, page by page.
  lemma WatermarkVouches(pages: nat, steps: seq<Step>) returns (i: nat, t: ThreadId)
    requires pages > 0 && Watermark(Run(Init(pages), steps).disk) != 0
    ensures i < |steps| && steps[i] == BeginFlush(t, Txn(Watermark(Run(Init(pages), steps).disk)))
    ensures Covered(Run(Init(pages), steps[..i]).mem.data, Run(Init(pages), steps).disk.data)
  {
    TracedRun(pages, steps);
    DurableMarkIsCovered(pages, steps);
    var s := Run(Init(pages), steps);
    hide Run;
    i, t :| 0 <= i < |steps| && steps[i] == BeginFlush(t, Txn(s.disk.header.mark.txn))
            && Run(Init(pages), steps[..i]).mem.data == s.disk.header.mark.floor;
  }

  // ---- What a flush that is done has left ----

  // Once the flush of `t` has made its stamp, nobody else makes one and no invalidation zeroes it; and `t` starts
  // nothing else.
  ghost predicate LeavesMark(s: State, t: ThreadId, steps: seq<Step>)
    decreases |steps|
  {
    steps != [] ==>
      && !steps[0].Crash? && !((steps[0].BeginFlush? || steps[0].BeginInvalidate?) && steps[0].t == t)
      && (Stamped(PcOf(s, t)) ==> !(steps[0].Stamp? && PcOf(s, steps[0].t).Stamping?) && !steps[0].ZeroMark?)
      && LeavesMark(Next(s, steps[0]), t, steps[1..])
  }

  ghost predicate MarkOf(s: State, t: ThreadId, txn: nat) {
    var pc := PcOf(s, t);
    && (pc.Flushing? || pc.Stamping? ==> pc.txn == Txn(txn))
    && (Stamped(pc) ==> s.mem.header.mark.txn == txn)
    && (pc.Heading? ==> s.mem.header.clean)
    && (pc.Flushed? ==> s.disk.header.mark.txn == txn && s.disk.header.clean && s.mem.header.clean)
  }

  lemma MarkGoesOn(s: State, t: ThreadId, txn: nat, step: Step)
    requires MarkOf(s, t, txn) && |s.mem.data| == |s.disk.data| > 0
    requires !step.Crash? && !((step.BeginFlush? || step.BeginInvalidate?) && step.t == t)
    requires Stamped(PcOf(s, t)) ==> !(step.Stamp? && PcOf(s, step.t).Stamping?) && !step.ZeroMark?
    ensures MarkOf(Next(s, step), t, txn)
  {
    HeaderMoves(s, step);
    DiskMoves(s, step);
    if step.Stamp? || step.SetClean? || step.SyncHeader? {
      StageMoves(s, step);
    } else {
      OtherMoves(s, step, t);
    }
    hide Next;
  }

  // The header in memory from step to step.
  lemma HeaderMoves(s: State, step: Step)
    requires !step.Crash?
    ensures var (h, h') := (s.mem.header, Next(s, step).mem.header);
            && (h.clean ==> h'.clean)
            && ((step.Stamp? && PcOf(s, step.t).Stamping?) || step.ZeroMark? || h'.mark == h.mark)
  {
    hide Written;
    WrittenOnlyDisk(s);
  }

  // The last stages of a flush.
  lemma StageMoves(s: State, step: Step)
    requires step.Stamp? || step.SetClean? || step.SyncHeader?
    ensures forall u: ThreadId :: u != step.t ==> PcOf(Next(s, step), u) == PcOf(s, u)
    ensures var (was, pc, s') := (PcOf(s, step.t), PcOf(Next(s, step), step.t), Next(s, step));
            if step.Stamp? && was.Stamping? then
              pc.Cleaning? && (was.txn.Txn? ==> s'.mem.header.mark.txn == was.txn.txn)
            else if step.SetClean? && was.Cleaning? then pc.Heading? && s'.mem.header.clean
            else if step.SyncHeader? && was.Heading? then
              pc.Flushed? && (|s.mem.data| == |s.disk.data| > 0 ==> s'.disk.header == s.mem.header)
            else pc == was
  {
  }

  // Other steps take no flush further than to where its stamp is due.
  lemma OtherMoves(s: State, step: Step, t: ThreadId)
    requires !step.Stamp? && !step.SetClean? && !step.SyncHeader? && !step.Crash?
    requires !((step.BeginFlush? || step.BeginInvalidate?) && step.t == t)
    ensures var (was, pc) := (PcOf(s, t), PcOf(Next(s, step), t));
            && (Stamped(pc) ==> pc == was)
            && (pc.Flushing? || pc.Stamping? ==> (was.Flushing? || was.Stamping?) && pc.txn == was.txn)
  {
    hide Written;
    WrittenOnlyDisk(s);
  }

  lemma {:induction false} MarkRuns(s: State, t: ThreadId, txn: nat, steps: seq<Step>)
    requires Inv(s) && MarkOf(s, t, txn) && LeavesMark(s, t, steps)
    ensures MarkOf(Run(s, steps), t, txn)
    decreases |steps|
  {
    if steps != [] {
      MarkGoesOn(s, t, txn, steps[0]);
      InvStep(s, steps[0]);
      hide Inv, MarkOf;
      MarkRuns(Next(s, steps[0]), t, txn, steps[1..]);
    }
  }

  // A flush that was given a number and has returned, with no other stamp and no invalidation after its own: that
  // number is on disk, and what a host reads there, or 0 under the latch; and the shutdown is marked clean.
  lemma FlushLeavesItsNumber(pages: nat, before: seq<Step>, t: ThreadId, txn: nat, steps: seq<Step>)
    requires pages > 0 && (PcOf(Run(Init(pages), before), t).Idle? || PcOf(Run(Init(pages), before), t).Flushed?)
    requires LeavesMark(Next(Run(Init(pages), before), BeginFlush(t, Txn(txn))), t, steps)
    ensures var s := Run(Next(Run(Init(pages), before), BeginFlush(t, Txn(txn))), steps);
            PcOf(s, t).Flushed? ==>
              Watermark(s.disk) == (if s.disk.header.latch then 0 else txn) && s.disk.header.clean
  {
    InitInv(pages);
    InvRun(Init(pages), before);
    var s := Run(Init(pages), before);
    hide Run;
    InvStep(s, BeginFlush(t, Txn(txn)));
    MarkRuns(Next(s, BeginFlush(t, Txn(txn))), t, txn, steps);
  }

  // A flush that was given none leaves the mark to the others: it moves only by a stamp, an invalidation or a crash.
  lemma OnlyStampsMove(s: State, step: Step)
    requires Next(s, step).mem.header.mark != s.mem.header.mark
    ensures step.ZeroMark? || step.Crash? || (step.Stamp? && PcOf(s, step.t).Stamping? && PcOf(s, step.t).txn.Txn?)
  {
  }
}
