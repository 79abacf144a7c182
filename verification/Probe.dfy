/** The rotating repair probe (probe_for_entry): which ids a pass looks at, and when its latch may claim that nothing is
    there. */
module Probe {
  import opened Core
  import opened Arithmetic

  // ---- The walk of one pass ----

  function Stride(hw: nat, limit: nat): nat
    requires limit > 0
  {
    (hw + limit - 1) / limit
  }

  // The ids a pass at this offset is meant to look at: every stride-th, counted down from the newest.
  predicate OnWalk(x: nat, hw: nat, stride: nat, offset: nat)
    requires stride > 0
  {
    x < hw && (hw - 1 - x) % stride == offset
  }

  lemma StrideBounds(hw: nat, limit: nat)
    requires hw > 0 && limit > 0
    ensures 1 <= Stride(hw, limit) <= hw && Stride(hw, limit) * limit >= hw
  {
    var s := Stride(hw, limit);
    DivMod(hw + limit - 1, limit);
    if s < 1 {
      MulMono(s, 0, limit);
    }
    MulMono(1, limit, hw);
    MulSucc(hw, limit);
    if s > hw {
      MulMono(hw + 1, s, limit);
    }
  }

  // Where the walk stands after k looks.
  function CandAt(hw: nat, stride: nat, offset: nat, k: nat): int {
    hw - 1 - offset - k * stride
  }

  lemma CandOnWalk(hw: nat, stride: nat, offset: nat, k: nat)
    requires 0 < stride && offset < stride && CandAt(hw, stride, offset, k) >= 0
    ensures OnWalk(CandAt(hw, stride, offset, k), hw, stride, offset)
  {
    ModOf(offset, k, stride);
  }

  lemma ModOf(r: nat, k: nat, n: nat)
    requires r < n
    ensures (r + k * n) % n == r
    decreases k
  {
    if k > 0 {
      ModOf(r, k - 1, n);
      assert r + k * n == (r + (k - 1) * n) + n;
      ModPlus(r + (k - 1) * n, n);
    }
  }

  // Once the next step would go below zero, the whole residue has been looked at.
  lemma WalkComplete(hw: nat, stride: nat, offset: nat, k: nat, x: nat)
    requires 0 < stride && offset < stride && CandAt(hw, stride, offset, k) < stride
    requires OnWalk(x, hw, stride, offset)
    ensures exists j: nat :: j <= k && x == CandAt(hw, stride, offset, j)
  {
    var j := (hw - 1 - x) / stride;
    DivMod(hw - 1 - x, stride);
    assert x == CandAt(hw, stride, offset, j);
    MulSucc(k, stride);
    if j > k {
      MulMono(k + 1, j, stride);
    }
  }

  // limit looks are enough, because stride * limit covers the mark.
  lemma LooksSuffice(hw: nat, limit: nat, offset: nat, k: nat)
    requires hw > 0 && limit > 0
    ensures k + 1 >= limit ==> CandAt(hw, Stride(hw, limit), offset, k) < Stride(hw, limit)
  {
    var stride := Stride(hw, limit);
    StrideBounds(hw, limit);
    MulSucc(k, stride);
    assert limit * stride == stride * limit;
    if k + 1 >= limit {
      MulMono(limit, k + 1, stride);
    }
  }

  // Any `stride` consecutive rotations look at every id below the mark.
  lemma RotationsCover(hw: nat, stride: nat, first: nat, x: nat)
    requires stride > 0 && x < hw
    ensures exists q: nat :: first <= q < first + stride && OnWalk(x, hw, stride, q % stride)
  {
    var r := (hw - 1 - x) % stride;
    var q := first + (r - first % stride + stride) % stride;
    ResidueAhead(first, r, stride);
    assert OnWalk(x, hw, stride, q % stride);
  }

  lemma ResidueAhead(first: nat, r: nat, n: nat)
    requires r < n
    ensures (first + (r - first % n + n) % n) % n == r
  {
    var f := first % n;
    DivMod(first, n);
    if r >= f {
      DivUnique(r - f + n, n, 1, r - f);
      DivUnique(first + (r - f), n, first / n, r);
    } else {
      DivUnique(r - f + n, n, 0, r - f + n);
      assert (first / n + 1) * n == (first / n) * n + n;
      DivUnique(first + (r - f + n), n, first / n + 1, r);
    }
  }

  // The first k places of the walk.
  ghost predicate Visited(hw: nat, stride: nat, offset: nat, k: nat, seen: set<nat>) {
    forall x: nat :: x in seen <==> exists j: nat :: j < k && x == CandAt(hw, stride, offset, j)
  }

  lemma VisitOne(hw: nat, stride: nat, offset: nat, k: nat, seen: set<nat>, cand: nat)
    requires Visited(hw, stride, offset, k, seen) && cand == CandAt(hw, stride, offset, k)
    ensures Visited(hw, stride, offset, k + 1, seen + {cand})
  {
    hide CandAt;
    forall x: nat ensures x in seen + {cand} <==> exists j: nat :: j < k + 1 && x == CandAt(hw, stride, offset, j) {
      if x in seen {
        var j: nat :| j < k && x == CandAt(hw, stride, offset, j);
        assert j < k + 1;
      }
    }
  }

  // The best of a set of ids: live, not the skipped one, and of the highest level; none when there is none.
  ghost predicate BestAmong(levels: map<nat, nat>, skip: Option<nat>, seen: set<nat>, best: Option<(nat, nat)>) {
    && (best.None? ==> forall x :: x in seen && x in levels ==> Some(x) == skip)
    && (best.Some? ==>
          && best.value.0 in seen && Some(best.value.0) != skip && best.value.0 in levels
            && levels[best.value.0] == best.value.1
          && forall x :: x in seen && x in levels && Some(x) != skip ==> levels[x] <= best.value.1)
  }

  function Better(levels: map<nat, nat>, skip: Option<nat>, best: Option<(nat, nat)>, cand: nat): Option<(nat, nat)> {
    if Some(cand) != skip && cand in levels && (best.None? || levels[cand] > best.value.1)
      then Some((cand, levels[cand])) else best
  }

  lemma BetterKeepsBest(levels: map<nat, nat>, skip: Option<nat>, seen: set<nat>, best: Option<(nat, nat)>, cand: nat)
    requires BestAmong(levels, skip, seen, best)
    ensures BestAmong(levels, skip, seen + {cand}, Better(levels, skip, best, cand))
  {
  }

  // One pass over a world that stands still: it looks at exactly its residue, never below zero, and returns the
  // highest-level live node among those looked at, the skipped one aside.
  method Walk(levels: map<nat, nat>, hw: nat, limit: nat, skip: Option<nat>, rotation: nat)
    returns (best: Option<(nat, nat)>, ghost seen: set<nat>)
    requires hw > 0 && limit > 0
    ensures Stride(hw, limit) > 0
    ensures forall x: nat :: x in seen <==> OnWalk(x, hw, Stride(hw, limit), rotation % Stride(hw, limit))
    ensures best.None? <==> forall x ::
            OnWalk(x, hw, Stride(hw, limit), rotation % Stride(hw, limit)) && x in levels ==> Some(x) == skip
    ensures best.Some? ==>
              var (id, level) := best.value;
              && OnWalk(id, hw, Stride(hw, limit), rotation % Stride(hw, limit)) && Some(id) != skip && id in levels
                && levels[id] == level
              && forall x ::
                OnWalk(x, hw, Stride(hw, limit), rotation % Stride(hw, limit)) && x in levels && Some(x) != skip ==>
                levels[x] <= level
  {
    StrideBounds(hw, limit);
    var stride := Stride(hw, limit);
    var offset := rotation % stride;
    best, seen := None, {};
    var cand: nat := hw - 1 - offset;
    var k := 0;
    assert Visited(hw, stride, offset, 0, seen) && cand == CandAt(hw, stride, offset, 0);
    assert BestAmong(levels, skip, seen, best);
    hide Visited, BestAmong, Stride, Better, OnWalk;
    while true
      invariant 0 <= k < limit && cand == CandAt(hw, stride, offset, k)
      invariant Visited(hw, stride, offset, k, seen) && BestAmong(levels, skip, seen, best)
      decreases limit - k
    {
      VisitOne(hw, stride, offset, k, seen, cand);
      BetterKeepsBest(levels, skip, seen, best, cand);
      best := Better(levels, skip, best, cand);
      seen := seen + {cand};
      if cand < stride {
        break;
      }
      LooksSuffice(hw, limit, offset, k);
      MulSucc(k, stride);
      k := k + 1;
      cand := cand - stride;
    }
    SeenIsResidue(hw, stride, offset, k, seen);
    BestMeans(levels, skip, seen, best);
  }

  lemma BestMeans(levels: map<nat, nat>, skip: Option<nat>, seen: set<nat>, best: Option<(nat, nat)>)
    requires BestAmong(levels, skip, seen, best)
    ensures best.None? <==> forall x :: x in seen && x in levels ==> Some(x) == skip
    ensures best.Some? ==>
              && best.value.0 in seen && Some(best.value.0) != skip && best.value.0 in levels
                && levels[best.value.0] == best.value.1
              && forall x :: x in seen && x in levels && Some(x) != skip ==> levels[x] <= best.value.1
  {
  }

  lemma CandAbove(hw: nat, stride: nat, offset: nat, j: nat, k: nat)
    requires j <= k
    ensures CandAt(hw, stride, offset, j) >= CandAt(hw, stride, offset, k)
  {
    MulMono(j, k, stride);
  }

  lemma SeenIsResidue(hw: nat, stride: nat, offset: nat, k: nat, seen: set<nat>)
    requires 0 < stride && offset < stride && 0 <= CandAt(hw, stride, offset, k) < stride
    requires Visited(hw, stride, offset, k + 1, seen)
    ensures forall x: nat :: x in seen <==> OnWalk(x, hw, stride, offset)
  {
    forall x: nat ensures x in seen <==> OnWalk(x, hw, stride, offset) {
      if x in seen {
        var j: nat :| j < k + 1 && x == CandAt(hw, stride, offset, j);
        CandAbove(hw, stride, offset, j, k);
        CandOnWalk(hw, stride, offset, j);
      }
      if OnWalk(x, hw, stride, offset) {
        WalkComplete(hw, stride, offset, k, x);
      }
    }
  }

  // ---- The latch ----

  // What the probe reads of the plane. `pending` are nodes written whose epoch bump is still to come.
  datatype World = World(hw: nat, live: set<nat>, pending: set<nat>, epoch: nat)

  datatype Pc = Resting | Probing(hw: nat, epoch: nat, sameKey: bool, offset: nat, k: nat, skip: Option<nat>,
    found: bool)

  // One handle's counters. `covered`, `excused` and `seen` record beside them which ids the counted passes looked
  // at, which they were told to skip, and which the pass under way has looked at.
  datatype State = State(
    world: World, rotation: nat, futileHw: nat, futileEpoch: Option<nat>, futileRuns: nat, pc: Pc,
    covered: set<nat>, excused: set<nat>, seen: set<nat>)

  datatype Step =
    | Allocate
    | WriteNode(id: nat)
    | Bump(id: nat)
    | Remove(id: nat)
    | BeginProbe(skip: Option<nat>)
    | Look
    | EndProbe

  predicate Latched(s: State, limit: nat)
    requires limit > 0
  {
    s.world.hw > 0 && s.futileHw == s.world.hw && s.futileEpoch == Some(s.world.epoch)
      && s.futileRuns >= Stride(s.world.hw, limit)
  }

  // The walk of the pass under way is over.
  predicate WalkOver(pc: Pc, limit: nat)
    requires limit > 0 && pc.Probing?
  {
    pc.k >= limit || CandAt(pc.hw, Stride(pc.hw, limit), pc.offset, pc.k) < 0
  }

  function Apply(s: State, limit: nat, step: Step): State
    requires limit > 0
  {
    match step
    case Allocate => s.(world := s.world.(hw := s.world.hw + 1))
    case WriteNode(id) =>
      if id < s.world.hw then s.(world := s.world.(live := s.world.live + {id}, pending := s.world.pending + {id}))
        else s
    case Bump(id) =>
      if id in s.world.pending then s.(world := s.world.(pending := s.world.pending - {id}, epoch := s.world.epoch + 1))
        else s
    case Remove(id) => s.(world := s.world.(live := s.world.live - {id}))
    case BeginProbe(skip) =>
      if !s.pc.Resting? || s.world.hw == 0 || Latched(s, limit) then s
      else
        var sameKey := s.futileHw == s.world.hw && s.futileEpoch == Some(s.world.epoch);
        var offset := if Stride(s.world.hw, limit) > 0 then s.rotation % Stride(s.world.hw, limit) else 0;
        s.(rotation := s.rotation + 1, pc := Probing(s.world.hw, s.world.epoch, sameKey, offset, 0, skip, false),
          seen := {})
    case Look =>
      if !s.pc.Probing? || WalkOver(s.pc, limit) then s
      else
        var cand := CandAt(s.pc.hw, Stride(s.pc.hw, limit), s.pc.offset, s.pc.k);
        s.(pc := s.pc.(k := s.pc.k + 1, found := s.pc.found || (Some(cand) != s.pc.skip && cand in s.world.live)),
          seen := s.seen + {cand})
    case EndProbe =>
      if !s.pc.Probing? || !WalkOver(s.pc, limit) then s
      else if s.pc.found then s.(pc := Resting, futileRuns := 0, covered := {}, excused := {})
      else
        var skipped := if s.pc.skip.Some? then {s.pc.skip.value} else {};
        if s.pc.sameKey then
          s.(pc := Resting, futileRuns := s.futileRuns + 1, covered := s.covered + s.seen,
            excused := s.excused + skipped)
        else
          s.(pc := Resting, futileHw := s.pc.hw, futileEpoch := Some(s.pc.epoch), futileRuns := 1, covered := s.seen,
            excused := skipped)
  }

  // An id known dead at `epoch` can only be live now if its bump is pending or already moved the epoch on.
  predicate DeadSince(w: World, epoch: nat, x: nat) {
    x in w.live ==> x in w.pending || w.epoch > epoch
  }

  // The counted passes looked at the residues of the last `runs` rotations before `upto`.
  ghost predicate Covers(covered: set<nat>, hw: nat, stride: nat, upto: nat, runs: nat)
    requires stride > 0
  {
    forall x: nat, q: nat :: q < upto <= q + runs && OnWalk(x, hw, stride, q % stride) ==> x in covered
  }

  ghost predicate FutileOk(s: State, limit: nat)
    requires limit > 0
  {
    s.futileEpoch.Some? ==>
      && s.futileHw > 0 && s.futileEpoch.value <= s.world.epoch && s.futileHw <= s.world.hw
      && (forall x :: x in s.covered ==> x in s.excused || DeadSince(s.world, s.futileEpoch.value, x))
      && s.futileRuns <= s.rotation - (if s.pc.Probing? then 1 else 0)
      && Stride(s.futileHw, limit) > 0
      && Covers(s.covered, s.futileHw, Stride(s.futileHw, limit), s.rotation - (if s.pc.Probing? then 1 else 0),
        s.futileRuns)
  }

  ghost predicate ProbeOk(s: State, limit: nat)
    requires limit > 0
  {
    s.pc.Probing? ==>
      && 0 < s.pc.hw <= s.world.hw && s.pc.epoch <= s.world.epoch && s.rotation > 0
      && Stride(s.pc.hw, limit) > 0 && s.pc.offset == (s.rotation - 1) % Stride(s.pc.hw, limit)
      && s.pc.k <= limit
      && (forall x: nat :: x in s.seen <==> exists j: nat ::
        j < s.pc.k && x == CandAt(s.pc.hw, Stride(s.pc.hw, limit), s.pc.offset, j))
      && (!s.pc.found ==> forall x :: x in s.seen ==> Some(x) == s.pc.skip || DeadSince(s.world, s.pc.epoch, x))
      && (s.pc.sameKey ==> s.futileHw == s.pc.hw && s.futileEpoch == Some(s.pc.epoch))
  }

  ghost predicate Inv(s: State, limit: nat)
    requires limit > 0
  {
    FutileOk(s, limit) && ProbeOk(s, limit)
  }

  // The world moves on: what was dead stays accounted for.
  lemma WorldStep(s: State, limit: nat, step: Step)
    requires limit > 0 && Inv(s, limit) && (step.Allocate? || step.WriteNode? || step.Bump? || step.Remove?)
    ensures Inv(Apply(s, limit, step), limit)
  {
    hide Covers, CandAt, Stride;
  }

  lemma BeginStep(s: State, limit: nat, skip: Option<nat>)
    requires limit > 0 && Inv(s, limit)
    ensures Inv(Apply(s, limit, BeginProbe(skip)), limit)
  {
    if s.world.hw > 0 {
      StrideBounds(s.world.hw, limit);
    }
    hide Covers, CandAt, Stride;
  }

  lemma LookStep(s: State, limit: nat)
    requires limit > 0 && Inv(s, limit)
    ensures Inv(Apply(s, limit, Look), limit)
  {
    hide Covers, CandAt, Stride;
    var s' := Apply(s, limit, Look);
    if s' != s {
      var stride := Stride(s.pc.hw, limit);
      forall x: nat
        ensures x in s'.seen <==> exists j: nat :: j < s'.pc.k && x == CandAt(s.pc.hw, stride, s.pc.offset, j) {
        if x in s.seen {
          var j: nat :| j < s.pc.k && x == CandAt(s.pc.hw, stride, s.pc.offset, j);
          assert j < s'.pc.k;
        }
        if x == CandAt(s.pc.hw, stride, s.pc.offset, s.pc.k) {
          assert s.pc.k < s'.pc.k;
        }
      }
    }
  }

  // A finished pass has looked at its whole residue.
  lemma PassCovers(s: State, limit: nat, x: nat)
    requires limit > 0 && Inv(s, limit) && s.pc.Probing? && WalkOver(s.pc, limit)
    requires OnWalk(x, s.pc.hw, Stride(s.pc.hw, limit), s.pc.offset)
    ensures x in s.seen
  {
    var stride := Stride(s.pc.hw, limit);
    assert CandAt(s.pc.hw, stride, s.pc.offset, 0) >= 0 by {
      StrideBounds(s.pc.hw, limit);
    }
    var k: nat := s.pc.k - 1;
    if s.pc.k >= limit {
      LooksSuffice(s.pc.hw, limit, s.pc.offset, k);
    } else {
      MulSucc(k, stride);
    }
    assert CandAt(s.pc.hw, stride, s.pc.offset, k) < stride;
    WalkComplete(s.pc.hw, stride, s.pc.offset, k, x);
    hide CandAt, Stride, Covers;
  }

  lemma EndStep(s: State, limit: nat)
    requires limit > 0 && Inv(s, limit)
    ensures Inv(Apply(s, limit, EndProbe), limit)
  {
    var s' := Apply(s, limit, EndProbe);
    if s' != s && !s.pc.found {
      var stride := Stride(s.pc.hw, limit);
      forall x: nat, q: nat | q < s'.rotation <= q + s'.futileRuns && OnWalk(x, s.pc.hw, stride, q % stride)
        ensures x in s'.covered {
        if q == s.rotation - 1 {
          PassCovers(s, limit, x);
        }
      }
    }
    hide CandAt, Stride, OnWalk;
  }

  lemma InvStep(s: State, limit: nat, step: Step)
    requires limit > 0 && Inv(s, limit)
    ensures Inv(Apply(s, limit, step), limit)
  {
    hide *;
    match step {
      case BeginProbe(skip) => BeginStep(s, limit, skip);
      case Look => LookStep(s, limit);
      case EndProbe => EndStep(s, limit);
      case Allocate => WorldStep(s, limit, step);
      case WriteNode(_) => WorldStep(s, limit, step);
      case Bump(_) => WorldStep(s, limit, step);
      case Remove(_) => WorldStep(s, limit, step);
    }
  }

  function Run(s: State, limit: nat, steps: seq<Step>): State
    requires limit > 0
    decreases |steps|
  {
    if steps == [] then s else Run(Apply(s, limit, steps[0]), limit, steps[1..])
  }

  const INIT: State := State(World(0, {}, {}, 0), 0, 0, None, 0, Resting, {}, {}, {})

  lemma {:induction false} InvRun(s: State, limit: nat, steps: seq<Step>)
    requires limit > 0 && Inv(s, limit)
    ensures Inv(Run(s, limit, steps), limit)
    decreases |steps|
  {
    if steps != [] {
      InvStep(s, limit, steps[0]);
      InvRun(Apply(s, limit, steps[0]), limit, steps[1..]);
    }
  }

  // The latch fires only over a plane where every live node is either one a counted pass was told to skip or one
  // whose writer has yet to bump the epoch.
  lemma LatchMeansNothingLive(limit: nat, steps: seq<Step>, x: nat)
    requires limit > 0 && Latched(Run(INIT, limit, steps), limit)
    requires x < Run(INIT, limit, steps).world.hw && x in Run(INIT, limit, steps).world.live
    ensures var s := Run(INIT, limit, steps); x in s.excused || x in s.world.pending
  {
    InvRun(INIT, limit, steps);
    var s := Run(INIT, limit, steps);
    hide Run;
    StrideBounds(s.world.hw, limit);
    var stride := Stride(s.world.hw, limit);
    var upto := s.rotation - (if s.pc.Probing? then 1 else 0);
    RotationsCover(s.world.hw, stride, upto - stride, x);
    var q: nat :| upto - stride <= q < upto - stride + stride && OnWalk(x, s.world.hw, stride, q % stride);
    assert x in s.covered;
  }
}
