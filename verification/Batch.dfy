/** A batch insert (insert_batch): workers pull records from a shared counter; a record's own fault skips it, a
    fault of the plane stops the batch. */
module Batch {
  import opened Core

  type WorkerId = nat

  datatype InsertError = Full | Wedged | KeyArenaFull | KeyUnstorable | DimensionMismatch | NotFinite

  predicate IsRecordFault(e: InsertError) {
    !(e.Full? || e.Wedged?)
  }

  const NO_FAULT: nat := 0

  function ToCode(e: InsertError): nat {
    match e
    case Full => 1
    case Wedged => 2
    case KeyArenaFull => 3
    case KeyUnstorable => 4
    case DimensionMismatch => 5
    case NotFinite => 6
  }

  function FromCode(code: nat): InsertError {
    match code
    case 1 => Full
    case 2 => Wedged
    case 3 => KeyArenaFull
    case 4 => KeyUnstorable
    case 5 => DimensionMismatch
    case _ => NotFinite
  }

  lemma CodeRoundTrip(e: InsertError)
    ensures FromCode(ToCode(e)) == e && ToCode(e) != NO_FAULT
  {
  }

  // What a record's insert came to.
  datatype Landing = Landed(id: Id) | Faulted(error: InsertError)

  datatype Pc = Looking | Claiming | Running(i: nat) | Failing(i: nat) | Done

  // `claims` and `landings` record, beside the shared cells, how often each record was run and what came of it.
  datatype State = State(
    count: nat, next: nat, failed: Option<nat>, ids: seq<Option<Id>>, faults: seq<nat>, workers: map<WorkerId, Pc>,
    claims: seq<nat>, landings: seq<Option<Landing>>)

  datatype Step =
    | Spawn(w: WorkerId)
    | Look(w: WorkerId)
    | Claim(w: WorkerId)
    | Finish(w: WorkerId, landing: Landing)
    | Fail(w: WorkerId)

  function PcOf(s: State, w: WorkerId): Pc {
    if w in s.workers then s.workers[w] else Done
  }

  function Goto(s: State, w: WorkerId, pc: Pc): State {
    s.(workers := s.workers[w := pc])
  }

  function Put<T>(cells: seq<T>, at: nat, value: T): seq<T> {
    if at < |cells| then cells[at := value] else cells
  }

  // Store what an insert came to, before anything else is looked at.
  function Land(s: State, w: WorkerId, i: nat, landing: Landing): State {
    var s1 := s.(landings := Put(s.landings, i, Some(landing)));
    match landing
    case Landed(id) => Goto(s1, w, Looking).(ids := Put(s.ids, i, Some(id)))
    case Faulted(error) =>
      Goto(s1, w, if IsRecordFault(error) then Looking else Failing(i)).(faults := Put(s.faults, i, ToCode(error)))
  }

  function Apply(s: State, step: Step): State {
    var w := step.w;
    var pc := PcOf(s, w);
    match step
    case Spawn(_) => if w !in s.workers then Goto(s, w, Looking) else s
    case Look(_) => if pc.Looking? then Goto(s, w, if s.failed.None? then Claiming else Done) else s
    case Claim(_) =>
      if !pc.Claiming? then s
      else if s.next >= s.count then Goto(s, w, Done).(next := s.next + 1)
      else Goto(s, w, Running(s.next)).(next := s.next + 1,
        claims := Put(s.claims, s.next, if s.next < |s.claims| then s.claims[s.next] + 1 else 0))
    case Finish(_, landing) => if pc.Running? then Land(s, w, pc.i, landing) else s
    case Fail(_) =>
      if pc.Failing? then
        Goto(s, w, Done).(failed := if s.failed.None? || pc.i < s.failed.value then Some(pc.i) else s.failed)
      else s
  }

  // The calling thread is worker 0; other workers are spawned, or refused and never seen.
  function Init(count: nat): State {
    State(count, 0, None, seq(count, _ => None), seq(count, _ => NO_FAULT), map[0 := Looking],
          seq(count, _ => 0), seq(count, _ => None))
  }

  function Run(s: State, steps: seq<Step>): State
    decreases |steps|
  {
    if steps == [] then s else Run(Apply(s, steps[0]), steps[1..])
  }

  // ---- The report ----

  // The rejected records from `from` on, ascending.
  function Rejected(faults: seq<nat>, from: nat): seq<(nat, InsertError)>
    requires from <= |faults|
    decreases |faults| - from
  {
    if from == |faults| then []
    else if faults[from] != NO_FAULT && IsRecordFault(FromCode(faults[from])) then
      [(from, FromCode(faults[from]))] + Rejected(faults, from + 1)
    else Rejected(faults, from + 1)
  }

  datatype Report =
    | Ok(ids: seq<Option<Id>>, rejected: seq<(nat, InsertError)>)
    | Err(index: nat, error: InsertError, ids: seq<Option<Id>>, rejected: seq<(nat, InsertError)>)

  function ReportOf(s: State): Report {
    var rejected := Rejected(s.faults, 0);
    match s.failed
    case None => Ok(s.ids, rejected)
    case Some(index) => Err(index, FromCode(if index < |s.faults| then s.faults[index] else NO_FAULT), s.ids, rejected)
  }

  // ---- Invariant ----

  ghost predicate RecordOk(s: State, i: nat)
    requires i < s.count && |s.ids| == |s.faults| == |s.claims| == |s.landings| == s.count
  {
    && s.claims[i] == (if i < s.next then 1 else 0)
    && (s.landings[i].Some? ==> i < s.next)
    && (forall id: Id :: s.ids[i] == Some(id) <==> s.landings[i] == Some(Landed(id)))
    && s.faults[i] ==
      (if s.landings[i].Some? && s.landings[i].value.Faulted? then ToCode(s.landings[i].value.error) else NO_FAULT)
    && (s.landings[i].None? && i < s.next ==> exists w :: w in s.workers && s.workers[w] == Running(i))
    && (IsPlaneFault(s.landings[i]) ==> (s.failed.Some? && s.failed.value <= i) || exists w ::
      w in s.workers && s.workers[w] == Failing(i))
  }

  predicate IsPlaneFault(landing: Option<Landing>) {
    landing.Some? && landing.value.Faulted? && !IsRecordFault(landing.value.error)
  }

  ghost predicate WorkerOk(s: State, w: WorkerId)
    requires w in s.workers && |s.landings| == s.count
  {
    match s.workers[w]
    case Running(i) => i < s.count && i < s.next && s.landings[i].None? && forall u ::
      u in s.workers && u != w ==> s.workers[u] != Running(i)
    case Failing(i) => i < s.count && IsPlaneFault(s.landings[i])
    case Done => s.failed.Some? || s.next >= s.count
    case _ => true
  }

  ghost predicate Inv(s: State) {
    && |s.ids| == |s.faults| == |s.claims| == |s.landings| == s.count && 0 in s.workers
    && (s.failed.Some? ==> s.failed.value < s.count && IsPlaneFault(s.landings[s.failed.value]))
    && (forall i :: 0 <= i < s.count ==> RecordOk(s, i))
    && (forall w :: w in s.workers ==> WorkerOk(s, w))
  }

  lemma InitInv(count: nat)
    ensures Inv(Init(count))
  {
  }

  // A worker that runs or has failed on a record goes on doing so while another moves.
  lemma RecordKept(s: State, s': State, w: WorkerId, i: nat)
    requires Inv(s) && i < s.count && s'.count == s.count
             && |s'.ids| == |s'.faults| == |s'.claims| == |s'.landings| == s.count
    requires s'.ids[i] == s.ids[i] && s'.faults[i] == s.faults[i] && s'.landings[i] == s.landings[i]
             && s'.claims[i] == s.claims[i]
    requires s.next <= s'.next && (i < s'.next ==> i < s.next)
    requires forall u :: u in s.workers && u != w ==> u in s'.workers && s'.workers[u] == s.workers[u]
    requires PcOf(s, w) != Running(i)
    requires PcOf(s, w) == Failing(i) ==> s'.failed.Some? && s'.failed.value <= i
    requires s.failed.Some? ==> s'.failed.Some? && s'.failed.value <= s.failed.value
    ensures RecordOk(s', i)
  {
    assert RecordOk(s, i);
    if s.landings[i].None? && i < s.next {
      var u :| u in s.workers && s.workers[u] == Running(i);
      assert s'.workers[u] == Running(i);
    }
    if IsPlaneFault(s.landings[i]) && !(s.failed.Some? && s.failed.value <= i) {
      var u :| u in s.workers && s.workers[u] == Failing(i);
      assert u != w ==> s'.workers[u] == Failing(i);
    }
  }

  lemma WorkerKept(s: State, s': State, w: WorkerId, u: WorkerId)
    requires Inv(s) && u in s.workers && u != w && s'.count == s.count && |s'.landings| == s.count
    requires u in s'.workers && s'.workers[u] == s.workers[u]
    requires forall x :: x in s'.workers && x != w ==> x in s.workers && s'.workers[x] == s.workers[x]
    requires forall i :: 0 <= i < s.count && PcOf(s, w) != Running(i) ==> s'.landings[i] == s.landings[i]
    requires forall i :: 0 <= i < s.next && w in s'.workers && s'.workers[w] == Running(i) ==> PcOf(s, w) == Running(i)
    requires s.next <= s'.next && (s.failed.Some? ==> s'.failed.Some?)
    ensures WorkerOk(s', u)
  {
    assert WorkerOk(s, u);
    if w in s.workers {
      assert WorkerOk(s, w);
    }
    hide RecordOk;
  }

  lemma InvMoved(s: State, s': State, w: WorkerId)
    requires Inv(s) && s'.count == s.count && |s'.ids| == |s'.faults| == |s'.claims| == |s'.landings| == s.count
    requires s'.workers.Keys == s.workers.Keys + {w}
    requires forall u :: u in s.workers && u != w ==> s'.workers[u] == s.workers[u]
    requires s.next <= s'.next && (s.failed.Some? ==> s'.failed.Some? && s'.failed.value <= s.failed.value)
    requires forall i :: 0 <= i < s.count && PcOf(s, w) != Running(i) ==> s'.landings[i] == s.landings[i]
    requires forall i :: 0 <= i < s.next && s'.workers[w] == Running(i) ==> PcOf(s, w) == Running(i)
    requires s'.failed.Some? ==> s'.failed.value < s.count && IsPlaneFault(s'.landings[s'.failed.value])
    requires forall i :: 0 <= i < s.count ==> RecordOk(s', i)
    requires WorkerOk(s', w)
    ensures Inv(s')
  {
    forall u | u in s'.workers ensures WorkerOk(s', u) {
      if u != w {
        WorkerKept(s, s', w, u);
      }
    }
  }

  lemma QuietStep(s: State, step: Step)
    requires Inv(s) && (step.Spawn? || step.Look? || step.Fail?)
    ensures Inv(Apply(s, step))
  {
    var s' := Apply(s, step);
    var w := step.w;
    if s' != s {
      assert step.Spawn? || WorkerOk(s, w);
      forall i | 0 <= i < s.count ensures RecordOk(s', i) {
        RecordKept(s, s', w, i);
      }
      hide RecordOk;
      InvMoved(s, s', w);
    }
  }

  lemma ClaimStep(s: State, w: WorkerId)
    requires Inv(s)
    ensures Inv(Apply(s, Claim(w)))
  {
    var s' := Apply(s, Claim(w));
    if s' != s {
      forall i | 0 <= i < s.count ensures RecordOk(s', i) {
        if i != s.next {
          RecordKept(s, s', w, i);
        } else {
          assert RecordOk(s, i);
          assert s'.workers[w] == Running(i);
        }
      }
      if s.next < s.count {
        assert RecordOk(s, s.next);
      }
      forall u | u in s.workers ensures s.workers[u] != Running(s.next) {
        assert WorkerOk(s, u);
      }
      hide RecordOk;
      InvMoved(s, s', w);
    }
  }

  lemma FinishStep(s: State, w: WorkerId, landing: Landing)
    requires Inv(s)
    ensures Inv(Apply(s, Finish(w, landing)))
  {
    var s' := Apply(s, Finish(w, landing));
    var pc := PcOf(s, w);
    if pc.Running? {
      assert WorkerOk(s, w);
      forall i | 0 <= i < s.count ensures RecordOk(s', i) {
        if i != pc.i {
          RecordKept(s, s', w, i);
        } else {
          assert RecordOk(s, i);
          assert s'.workers[w] == PcOf(s', w);
          if landing.Faulted? {
            CodeRoundTrip(landing.error);
          }
        }
      }
      if s.failed.Some? {
        assert IsPlaneFault(s.landings[s.failed.value]);
      }
      hide RecordOk;
      InvMoved(s, s', w);
    }
  }

  lemma InvStep(s: State, step: Step)
    requires Inv(s)
    ensures Inv(Apply(s, step))
  {
    hide *;
    match step {
      case Spawn(_) => QuietStep(s, step);
      case Look(_) => QuietStep(s, step);
      case Claim(w) => ClaimStep(s, w);
      case Finish(w, landing) => FinishStep(s, w, landing);
      case Fail(_) => QuietStep(s, step);
    }
  }

  lemma {:induction false} InvRun(s: State, steps: seq<Step>)
    requires Inv(s)
    ensures Inv(Run(s, steps)) && Run(s, steps).count == s.count
    decreases |steps|
  {
    if steps != [] {
      InvStep(s, steps[0]);
      hide Inv;
      InvRun(Apply(s, steps[0]), steps[1..]);
    }
  }

  // ---- What the report says ----

  lemma {:induction false} RejectedAre(faults: seq<nat>, from: nat)
    requires from <= |faults|
    ensures forall i, e :: (i, e) in Rejected(faults, from) <==>
              from <= i < |faults| && faults[i] != NO_FAULT && e == FromCode(faults[i]) && IsRecordFault(e)
    ensures forall j, k ::
            0 <= j < k < |Rejected(faults, from)| ==> Rejected(faults, from)[j].0 < Rejected(faults, from)[k].0
    decreases |faults| - from
  {
    if from < |faults| {
      RejectedAre(faults, from + 1);
      var rest := Rejected(faults, from + 1);
      forall k | 0 <= k < |rest| ensures rest[k].0 > from {
        assert rest[k] in rest;
        assert (rest[k].0, rest[k].1) in rest;
      }
    }
  }

  // A record's line in a report: its id, its rejection, or nothing.
  ghost predicate Reported(ids: seq<Option<Id>>, rejected: seq<(nat, InsertError)>, i: nat, landing: Option<Landing>)
    requires i < |ids|
  {
    && (forall id: Id :: ids[i] == Some(id) <==> landing == Some(Landed(id)))
    && (forall e :: (i, e) in rejected <==> landing == Some(Faulted(e)) && IsRecordFault(e))
  }

  // Whatever the workers' interleaving and whoever was refused a thread: once every worker stopped, no record ran
  // twice and every claimed one finished; Ok means every record either landed or is listed as rejected, and never
  // both; a failure names the lowest record that met a fault of the plane, with that fault.
  lemma BatchReports(count: nat, steps: seq<Step>)
    requires forall w :: w in Run(Init(count), steps).workers ==> Run(Init(count), steps).workers[w].Done?
    ensures var s := Run(Init(count), steps);
            var report := ReportOf(s);
            && |s.claims| == |s.landings| == |report.ids| == count
            && (forall i :: 0 <= i < count ==> s.claims[i] <= 1 && (s.claims[i] == 1 <==> s.landings[i].Some?))
            && (forall i :: 0 <= i < count ==> Reported(report.ids, report.rejected, i, s.landings[i]))
            && (forall j, k :: 0 <= j < k < |report.rejected| ==> report.rejected[j].0 < report.rejected[k].0)
            && (report.Ok? <==> forall i :: 0 <= i < count ==> s.landings[i].Some? && !IsPlaneFault(s.landings[i]))
            && (report.Err? ==>
                  && report.index < count && s.landings[report.index] == Some(Faulted(report.error))
                    && !IsRecordFault(report.error)
                  && forall i :: 0 <= i < report.index ==> !IsPlaneFault(s.landings[i]))
  {
    InitInv(count);
    InvRun(Init(count), steps);
    var s := Run(Init(count), steps);
    hide Run;
    RejectedAre(s.faults, 0);
    assert WorkerOk(s, 0);
    assert IsRecordFault(KeyArenaFull);
    forall i | 0 <= i < count
      ensures s.claims[i] <= 1 && (s.claims[i] == 1 <==> s.landings[i].Some?)
      ensures Reported(s.ids, Rejected(s.faults, 0), i, s.landings[i])
      ensures IsPlaneFault(s.landings[i]) ==> s.failed.Some? && s.failed.value <= i
      ensures s.failed.None? ==> s.landings[i].Some?
    {
      assert RecordOk(s, i);
      if s.landings[i].Some? && s.landings[i].value.Faulted? {
        CodeRoundTrip(s.landings[i].value.error);
      }
    }
    if s.failed.Some? {
      assert RecordOk(s, s.failed.value);
      CodeRoundTrip(s.landings[s.failed.value].value.error);
    }
  }

  // ---- How soon a failed batch stops ----

  // Workers past their look, who will claim one more record whatever has failed since.
  ghost function Claimers(s: State): set<WorkerId> {
    set w | w in s.workers && s.workers[w].Claiming?
  }

  lemma FailedStep(s: State, step: Step)
    requires s.failed.Some?
    ensures Apply(s, step).failed.Some?
    ensures Apply(s, step).next + |Claimers(Apply(s, step))| <= s.next + |Claimers(s)|
  {
    var (s', w) := (Apply(s, step), step.w);
    if step.Claim? && PcOf(s, w).Claiming? {
      assert Claimers(s') == Claimers(s) - {w};
    } else {
      assert Claimers(s') <= Claimers(s);
      SubsetSize(Claimers(s'), Claimers(s));
    }
  }

  // Once a fault of the plane is recorded, no more records are claimed than there are workers already past their look.
  lemma {:induction false} FailureStopsClaims(s: State, steps: seq<Step>)
    requires s.failed.Some?
    ensures Run(s, steps).next <= s.next + |Claimers(s)|
    ensures Run(s, steps).failed.Some?
    ensures Run(s, steps).next + |Claimers(Run(s, steps))| <= s.next + |Claimers(s)|
    decreases |steps|
  {
    if steps != [] {
      FailedStep(s, steps[0]);
      FailureStopsClaims(Apply(s, steps[0]), steps[1..]);
    }
  }
}
