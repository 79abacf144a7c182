/** The entry word under any interleaving (format.rs), and the turns in which an insert finds what to grow from
    (insert.rs): every change of the word is one compare-and-swap, prepared from a value read earlier. */
module EntryWord {
  import opened Core

  type ThreadId = nat

  const TURNS: nat := 16

  // The packed word: a node and its level, or empty.
  datatype Entry = Empty | Names(id: Id, level: nat)

  datatype Op =
    | Claim(id: Id, level: nat)
    | NotBetter(id: Id, level: nat, expected: nat)
    | ReplaceIf(expected: nat, id: Id, level: nat)
    | ClearIf(expected: nat)
    | SetEntry(id: Id, level: nat)

  // An insert resolving its entry point, and how it can end: alone as the first node, linked to what it found, or
  // with an error: the entry could not be resolved, or its edgeless node could not be written.
  datatype Job = Job(id: Id, level: nat, turn: nat)
  datatype How = AsRoot | LinkedTo(found: Entry) | Unresolved | Unwritten

  // What an operation is part of.
  datatype After = Rest | NextTurn(job: Job) | Finish(job: Job, how: How)

  // Operations under way: not yet loaded, holding the value they will compare against, or finished. Inserts: at the
  // top of a turn, about to claim, with an entry in sight, joined to it, or ended.
  datatype Pc =
    | Idle
    | Started(op: Op, next: After)
    | Loaded(op: Op, cur: Entry, next: After)
    | Done(op: Op, installed: bool)
    | Turning(job: Job)
    | Claiming(job: Job)
    | Facing(job: Job, seen: Entry)
    | Joined(job: Job, seen: Entry)
    | Ended(job: Job, how: How)

  // `log` lists every change of the word, oldest first, beside the real state.
  datatype Change = Change(t: ThreadId, op: Op, before: Entry, after: Entry)
  datatype State = State(word: Entry, threads: map<ThreadId, Pc>, log: seq<Change>)

  datatype Step =
    | Start(t: ThreadId, op: Op)
    | Load(t: ThreadId)
    | Exchange(t: ThreadId)
    | Insert(t: ThreadId, id: Id, level: nat)
    | Look(t: ThreadId)
    | TryClaim(t: ThreadId, written: bool)
    | Measure(t: ThreadId, readable: bool, best: Option<Entry>)
    | Link(t: ThreadId)

  function PcOf(s: State, t: ThreadId): Pc {
    if t in s.threads then s.threads[t] else Idle
  }

  function Goto(s: State, t: ThreadId, pc: Pc): State {
    s.(threads := s.threads[t := pc])
  }

  // The id half of the word: all ones when empty.
  function IdOf(e: Entry): nat {
    if e.Names? then e.id else NO_ID
  }

  // What an operation would store over `cur`; None when it gives up on seeing it.
  function Wanted(op: Op, cur: Entry): Option<Entry> {
    match op
    case Claim(id, level) => if cur.Empty? then Some(Names(id, level)) else None
    case NotBetter(id, level, expected) =>
      if cur.Names? && cur.id != expected && cur.level >= level then None else Some(Names(id, level))
    case ReplaceIf(expected, id, level) => if IdOf(cur) == expected then Some(Names(id, level)) else None
    case ClearIf(expected) => if IdOf(cur) == expected then Some(Empty) else None
    case SetEntry(id, level) => Some(Names(id, level))
  }

  predicate Resting(pc: Pc) {
    pc.Idle? || pc.Done? || pc.Ended?
  }

  // Where a thread goes on once its operation is over.
  function Over(op: Op, installed: bool, next: After): Pc {
    match next
    case Rest => Done(op, installed)
    case NextTurn(job) => Turning(job)
    case Finish(job, how) => Ended(job, how)
  }

  function Apply(s: State, step: Step): State {
    match step
    case Start(t, op) => if Resting(PcOf(s, t)) then Goto(s, t, Started(op, Rest)) else s
    case Load(t) => ApplyLoad(s, t)
    case Exchange(t) => ApplyExchange(s, t)
    case Insert(t, id, level) => if Resting(PcOf(s, t)) then Goto(s, t, Turning(Job(id, level, 0))) else s
    case Look(t) => ApplyLook(s, t)
    case TryClaim(t, written) => ApplyClaim(s, t, written)
    case Measure(t, readable, best) => ApplyMeasure(s, t, readable, best)
    case Link(t) =>
      var pc := PcOf(s, t);
      if !pc.Joined? then s
      // an insert that came out above the entry it joined promotes itself
      else if pc.seen.Names? && pc.job.level > pc.seen.level then
        Goto(s, t, Started(NotBetter(pc.job.id, pc.job.level, pc.seen.id), Finish(pc.job, LinkedTo(pc.seen))))
      else Goto(s, t, Ended(pc.job, LinkedTo(pc.seen)))
  }

  function ApplyLoad(s: State, t: ThreadId): State {
    var pc := PcOf(s, t);
    if !pc.Started? then s
    else if pc.op.SetEntry? then Store(s, t, pc.op, Names(pc.op.id, pc.op.level), pc.next)
    else if pc.op.Claim? then
      if s.word.Empty? then Store(s, t, pc.op, Names(pc.op.id, pc.op.level), pc.next)
        else Goto(s, t, Over(pc.op, false, pc.next))
    else Goto(s, t, Loaded(pc.op, s.word, pc.next))
  }

  function ApplyExchange(s: State, t: ThreadId): State {
    var pc := PcOf(s, t);
    if !pc.Loaded? then s
    else
      var wanted := Wanted(pc.op, pc.cur);
      if wanted.None? then Goto(s, t, Over(pc.op, false, pc.next))
      else if s.word == pc.cur then Store(s, t, pc.op, wanted.value, pc.next)
      else Goto(s, t, Loaded(pc.op, s.word, pc.next))
  }

  // The top of a turn: the word is empty, or names something to grow from; after sixteen turns the insert gives up.
  function ApplyLook(s: State, t: ThreadId): State {
    var pc := PcOf(s, t);
    if !pc.Turning? then s
    else if pc.job.turn >= TURNS then Goto(s, t, Ended(pc.job, Unresolved))
    else if s.word.Empty? then Goto(s, t, Claiming(pc.job))
    else Goto(s, t, Facing(pc.job, s.word))
  }

  function Again(job: Job): Job {
    job.(turn := job.turn + 1)
  }

  // claim_entry_if_empty: one exchange against the empty word. Only the winner returns.
  function ApplyClaim(s: State, t: ThreadId, written: bool): State {
    var pc := PcOf(s, t);
    if !pc.Claiming? then s
    else if !written then Goto(s, t, Ended(pc.job, Unwritten))
    else if s.word.Empty? then
      Store(s, t, Claim(pc.job.id, pc.job.level), Names(pc.job.id, pc.job.level), Finish(pc.job, AsRoot))
    else Goto(s, t, Turning(Again(pc.job)))
  }

  // The entry seen can be read, or is gone and re-elected against: `best` is the survivor found, if any.
  function ApplyMeasure(s: State, t: ThreadId, readable: bool, best: Option<Entry>): State {
    var pc := PcOf(s, t);
    if !pc.Facing? || !pc.seen.Names? then s
    else if readable then Goto(s, t, Joined(pc.job, pc.seen))
    else
      match best
      case Some(Names(id, level)) => Goto(s, t, Started(NotBetter(id, level, pc.seen.id), NextTurn(Again(pc.job))))
      case _ => Goto(s, t, Started(ClearIf(pc.seen.id), NextTurn(Again(pc.job))))
  }

  function Store(s: State, t: ThreadId, op: Op, after: Entry, next: After): State {
    Goto(s, t, Over(op, true, next)).(word := after, log := s.log + [Change(t, op, s.word, after)])
  }

  function Run(s: State, steps: seq<Step>): State
    decreases |steps|
  {
    if steps == [] then s else Run(Apply(s, steps[0]), steps[1..])
  }

  // An install that respects what it replaces: the empty word, the entry it expects, or a strictly lower one.
  predicate Respectful(c: Change) {
    match c.op
    case Claim(id, level) => c.before.Empty? && c.after == Names(id, level)
    case NotBetter(id, level, expected) =>
      c.after == Names(id, level) && (c.before.Empty? || c.before.id == expected || c.before.level < level)
    case ReplaceIf(expected, id, level) => c.after == Names(id, level) && IdOf(c.before) == expected
    case ClearIf(expected) => c.after.Empty? && IdOf(c.before) == expected
    case SetEntry(id, level) => c.after == Names(id, level)
  }

  // What an insert has to show for where it stands.
  ghost predicate JobOk(s: State, t: ThreadId) {
    match PcOf(s, t)
    case Turning(job) => job.turn <= TURNS
    case Claiming(job) => job.turn < TURNS
    case Facing(job, seen) => job.turn < TURNS && Stood(s, seen)
    case Joined(job, seen) => job.turn < TURNS && Stood(s, seen)
    case Started(op, next) => NextOk(s, op, next)
    case Loaded(op, cur, next) => NextOk(s, op, next) && (next.Finish? ==> Followed(s, next.how.found, cur))
    case Ended(job, how) => EndOk(s, t, job, how)
    case Done(op, installed) => installed && op.Claim? ==> Claimed(s, t, op)
    case Idle => true
  }

  // The log holds the claim, made by this thread over an empty word.
  ghost predicate Claimed(s: State, t: ThreadId, op: Op) {
    exists i :: 0 <= i < |s.log| && s.log[i].t == t && s.log[i].op == op && s.log[i].before.Empty?
  }

  // The word named that entry: some change put it there.
  ghost predicate Stood(s: State, e: Entry) {
    e.Names? && exists i :: 0 <= i < |s.log| && s.log[i].after == e
  }

  // The word named `e`, and then or later stood at `cur`.
  ghost predicate Followed(s: State, e: Entry, cur: Entry) {
    exists i, j :: 0 <= i <= j < |s.log| && s.log[i].after == e && s.log[j].after == cur
  }

  // The word named `e`, and then or later an entry at `level` or above.
  ghost predicate Rose(s: State, e: Entry, level: nat) {
    exists top :: Followed(s, e, top) && top.Names? && top.level >= level
  }

  // An insert is finished by its own promotion only.
  ghost predicate NextOk(s: State, op: Op, next: After) {
    match next
    case Rest => true
    case NextTurn(job) => job.turn <= TURNS
    case Finish(job, how) =>
      && how.LinkedTo? && Stood(s, how.found) && how.found.level < job.level
      && op == NotBetter(job.id, job.level, how.found.id)
  }

  ghost predicate EndOk(s: State, t: ThreadId, job: Job, how: How) {
    match how
    case AsRoot => Claimed(s, t, Claim(job.id, job.level))
    case LinkedTo(found) => Stood(s, found) && Rose(s, found, job.level)
    case Unresolved => job.turn == TURNS
    case Unwritten => true
  }

  // The log accounts for the word, change by change.
  ghost predicate Inv(s: State) {
    && (forall i :: 0 <= i < |s.log| ==> Respectful(s.log[i]))
    && (forall i :: 0 < i < |s.log| ==> s.log[i].before == s.log[i - 1].after)
    && (if s.log == [] then s.word.Empty? else s.log[0].before.Empty? && s.word == s.log[|s.log| - 1].after)
    && (forall t: ThreadId :: JobOk(s, t))
  }

  lemma ClaimStays(s: State, s': State, t: ThreadId, op: Op)
    requires Claimed(s, t, op) && s.log <= s'.log
    ensures Claimed(s', t, op)
  {
    var i :| 0 <= i < |s.log| && s.log[i].t == t && s.log[i].op == op && s.log[i].before.Empty?;
    assert s'.log[i] == s.log[i];
  }

  lemma StoodStays(s: State, s': State, e: Entry)
    requires Stood(s, e) && s.log <= s'.log
    ensures Stood(s', e)
  {
    var i :| 0 <= i < |s.log| && s.log[i].after == e;
    assert s'.log[i] == s.log[i];
  }

  lemma FollowedStays(s: State, s': State, e: Entry, cur: Entry)
    requires Followed(s, e, cur) && s.log <= s'.log
    ensures Followed(s', e, cur)
  {
    var i, j :| 0 <= i <= j < |s.log| && s.log[i].after == e && s.log[j].after == cur;
    assert s'.log[i] == s.log[i] && s'.log[j] == s.log[j];
  }

  lemma RoseStays(s: State, s': State, e: Entry, level: nat)
    requires Rose(s, e, level) && s.log <= s'.log
    ensures Rose(s', e, level)
  {
    var top :| Followed(s, e, top) && top.Names? && top.level >= level;
    FollowedStays(s, s', e, top);
  }

  // What the word stands at now came after all that it stood at.
  lemma NowFollows(s: State, e: Entry)
    requires Stood(s, e)
    ensures Followed(s, e, s.log[|s.log| - 1].after)
  {
    var i :| 0 <= i < |s.log| && s.log[i].after == e;
    assert s.log[i].after == e && i <= |s.log| - 1;
  }

  lemma NextStays(s: State, s': State, op: Op, next: After)
    requires NextOk(s, op, next) && s.log <= s'.log
    ensures NextOk(s', op, next)
  {
    if next.Finish? {
      StoodStays(s, s', next.how.found);
    }
  }

  // The other threads stand where they stood.
  lemma OtherJob(s: State, s': State, u: ThreadId)
    requires JobOk(s, u) && PcOf(s', u) == PcOf(s, u) && s.log <= s'.log
    ensures JobOk(s', u)
  {
    match PcOf(s, u) {
      case Ended(job, AsRoot) => ClaimStays(s, s', u, Claim(job.id, job.level));
      case Ended(job, LinkedTo(found)) =>
        StoodStays(s, s', found);
        RoseStays(s, s', found, job.level);
      case Facing(_, seen) => StoodStays(s, s', seen);
      case Joined(_, seen) => StoodStays(s, s', seen);
      case Started(op, next) => NextStays(s, s', op, next);
      case Loaded(op, cur, next) =>
        NextStays(s, s', op, next);
        if next.Finish? {
          FollowedStays(s, s', next.how.found, cur);
        }
      case Done(op, installed) =>
        if installed && op.Claim? {
          ClaimStays(s, s', u, op);
        }
      case _ =>
    }
  }

  lemma StoreKeeps(s: State, t: ThreadId, op: Op, after: Entry, next: After)
    requires Inv(s) && Respectful(Change(t, op, s.word, after))
    requires NextOk(s, op, next) || (next.Finish? && next.how.AsRoot? && op == Claim(next.job.id, next.job.level))
    ensures Inv(Store(s, t, op, after, next))
  {
    var s' := Store(s, t, op, after, next);
    var c := Change(t, op, s.word, after);
    assert s'.log[|s.log|] == c;
    assert op.Claim? ==> Claimed(s', t, op);
    if NextOk(s, op, next) {
      NextStays(s, s', op, next);
      if next.Finish? {
        NowFollows(s', next.how.found);
        assert Rose(s', next.how.found, next.job.level);
      }
    }
    forall u: ThreadId ensures JobOk(s', u) {
      if u != t {
        OtherJob(s, s', u);
      }
    }
  }

  lemma GotoKeeps(s: State, t: ThreadId, pc: Pc)
    requires Inv(s) && JobOk(Goto(s, t, pc), t)
    ensures Inv(Goto(s, t, pc))
  {
    forall u: ThreadId ensures JobOk(Goto(s, t, pc), u) {
      if u != t {
        OtherJob(s, Goto(s, t, pc), u);
      }
    }
  }

  lemma InvStep(s: State, step: Step)
    requires Inv(s)
    ensures Inv(Apply(s, step))
  {
    var t := step.t;
    var pc := PcOf(s, t);
    assert JobOk(s, t);
    if step.Load? && pc.Started? && (pc.op.SetEntry? || (pc.op.Claim? && s.word.Empty?)) {
      StoreKeeps(s, t, pc.op, Names(pc.op.id, pc.op.level), pc.next);
    } else if step.Exchange? && pc.Loaded? && Wanted(pc.op, pc.cur).Some? && s.word == pc.cur {
      StoreKeeps(s, t, pc.op, Wanted(pc.op, pc.cur).value, pc.next);
    } else if step.TryClaim? && step.written && pc.Claiming? && s.word.Empty? {
      StoreKeeps(s, t, Claim(pc.job.id, pc.job.level), Names(pc.job.id, pc.job.level), Finish(pc.job, AsRoot));
    } else {
      var s' := Apply(s, step);
      if s' != s {
        MoveOk(s, step);
        assert s' == Goto(s, t, PcOf(s', t));
        hide Inv, JobOk, Apply;
        GotoKeeps(s, t, PcOf(s', t));
      }
    }
  }

  // Where a step that leaves the word alone takes its thread.
  lemma MoveOk(s: State, step: Step)
    requires Inv(s) && Apply(s, step) != s && Apply(s, step).log == s.log
    ensures JobOk(Apply(s, step), step.t)
  {
    assert JobOk(s, step.t) && (s.log != [] ==> s.log[|s.log| - 1].after == s.word);
    match step {
      case Load(t) => LoadOk(s, t);
      case Exchange(t) => ExchangeOk(s, t);
      case Link(t) => LinkOk(s, t);
      case Look(t) =>
        assert s.word.Names? ==> Stood(s, s.word);
      case _ =>
    }
  }

  lemma LoadOk(s: State, t: ThreadId)
    requires JobOk(s, t) && (s.log != [] ==> s.log[|s.log| - 1].after == s.word)
    requires ApplyLoad(s, t).log == s.log
    ensures JobOk(ApplyLoad(s, t), t)
  {
    var pc := PcOf(s, t);
    hide Rose, Followed;
    if pc.Started? && pc.next.Finish? {
      NowFollows(s, pc.next.how.found);
      FollowedStays(s, ApplyLoad(s, t), pc.next.how.found, s.word);
    }
  }

  lemma ExchangeOk(s: State, t: ThreadId)
    requires JobOk(s, t) && (s.log != [] ==> s.log[|s.log| - 1].after == s.word)
    requires ApplyExchange(s, t).log == s.log
    ensures JobOk(ApplyExchange(s, t), t)
  {
    var pc := PcOf(s, t);
    var s' := ApplyExchange(s, t);
    hide Rose, Followed, Wanted;
    if pc.Loaded? && pc.next.Finish? {
      NowFollows(s, pc.next.how.found);
      FollowedStays(s, s', pc.next.how.found, s.word);
      FollowedStays(s, s', pc.next.how.found, pc.cur);
      GivesWay(s', pc.op, pc.cur, pc.next);
    }
  }

  lemma LinkOk(s: State, t: ThreadId)
    requires JobOk(s, t)
    ensures JobOk(Apply(s, Link(t)), t)
  {
    var pc := PcOf(s, t);
    hide Rose;
    if pc.Joined? {
      StandsHigh(Apply(s, Link(t)), pc.seen, pc.job.level);
    }
  }

  // A promotion gives way only to an entry at least as high.
  lemma GivesWay(s: State, op: Op, cur: Entry, next: After)
    requires next.Finish? && NextOk(s, op, next) && Followed(s, next.how.found, cur)
    ensures Wanted(op, cur).None? ==> Rose(s, next.how.found, next.job.level)
  {
  }

  lemma StandsHigh(s: State, e: Entry, level: nat)
    requires Stood(s, e)
    ensures e.level >= level ==> Rose(s, e, level)
  {
    var i :| 0 <= i < |s.log| && s.log[i].after == e;
    assert Followed(s, e, e);
  }

  lemma {:induction false} InvRun(s: State, steps: seq<Step>)
    requires Inv(s)
    ensures Inv(Run(s, steps))
    decreases |steps|
  {
    if steps != [] {
      InvStep(s, steps[0]);
      InvRun(Apply(s, steps[0]), steps[1..]);
    }
  }

  const INIT: State := State(Empty, map[], [])

  // Under any interleaving, every change of the word other than a plain set replaced the empty word, the id it
  // expected, or a strictly lower level; a claim replaced the empty word.
  lemma InstallsRespectful(steps: seq<Step>, i: nat)
    requires i < |Run(INIT, steps).log|
    ensures Respectful(Run(INIT, steps).log[i])
  {
    InvRun(INIT, steps);
  }

  // A change that takes neither the current entry for gone nor sets the word outright.
  predicate Climbs(c: Change) {
    c.op.Claim? || (c.op.NotBetter? && c.op.expected != IdOf(c.before))
  }

  // An entry point that nobody takes for gone gives way to higher ones only: each such change raises the level.
  lemma EntryOnlyClimbs(steps: seq<Step>, i: nat, j: nat)
    requires i <= j < |Run(INIT, steps).log| && Run(INIT, steps).log[i].after.Names?
    requires forall k :: i < k <= j ==> Climbs(Run(INIT, steps).log[k])
    ensures Run(INIT, steps).log[j].after.Names?
    ensures Run(INIT, steps).log[j].after.level >= Run(INIT, steps).log[i].after.level + (j - i)
  {
    InvRun(INIT, steps);
    hide Run;
    ClimbsTo(Run(INIT, steps), i, j);
  }

  lemma {:induction false} ClimbsTo(s: State, i: nat, j: nat)
    requires Inv(s) && i <= j < |s.log| && s.log[i].after.Names? && forall k :: i < k <= j ==> Climbs(s.log[k])
    ensures s.log[j].after.Names? && s.log[j].after.level >= s.log[i].after.level + (j - i)
  {
    if i < j {
      ClimbsTo(s, i, j - 1);
      assert Respectful(s.log[j]) && Climbs(s.log[j]) && s.log[j].before == s.log[j - 1].after;
    }
  }

  // Between two claims that won, somebody emptied the word: two inserts never both stand alone as the first node.
  lemma {:induction false} ClaimsNeedClear(steps: seq<Step>, i: nat, j: nat)
    requires i < j < |Run(INIT, steps).log|
    requires Run(INIT, steps).log[i].op.Claim? && Run(INIT, steps).log[j].op.Claim?
    ensures exists k :: i < k < j && Run(INIT, steps).log[k].op.ClearIf?
  {
    InvRun(INIT, steps);
    hide Run;
    var k := NamedUntilCleared(Run(INIT, steps), i, j);
  }

  lemma {:induction false} NamedUntilCleared(s: State, i: nat, j: nat) returns (k: nat)
    requires Inv(s) && i < j < |s.log| && s.log[i].after.Names? && s.log[j].before.Empty?
    ensures i < k < j && s.log[k].op.ClearIf? && Cleared(s.log[k])
    decreases j - i
  {
    assert s.log[i + 1].before == s.log[i + 1 - 1].after;
    assert Respectful(s.log[i + 1]);
    if s.log[i + 1].op.ClearIf? {
      k := i + 1;
    } else {
      k := NamedUntilCleared(s, i + 1, j);
    }
  }

  // However the turns of an insert interleave with everything else, it ends in one of four ways: alone, and then only
  // by a claim of its own that replaced the empty word; linked to an entry the word named, since when it has named one
  // at least as high as the new node; with an error once all sixteen turns are spent; or because its edgeless node
  // could not be written.
  lemma InsertEnds(steps: seq<Step>, t: ThreadId)
    requires PcOf(Run(INIT, steps), t).Ended?
    ensures var s := Run(INIT, steps);
            var pc := PcOf(s, t);
            || (pc.how.AsRoot? && Claimed(s, t, Claim(pc.job.id, pc.job.level)))
            || (pc.how.LinkedTo? && Stood(s, pc.how.found) && Rose(s, pc.how.found, pc.job.level))
            || (pc.how.Unresolved? && pc.job.turn == 16)
            || pc.how.Unwritten?
  {
    InvRun(INIT, steps);
    hide Run;
    assert JobOk(Run(INIT, steps), t);
  }

  // The exchange an insert ends with is the promotion of its own node, over the entry it joined and found below it.
  lemma PromotesOnlyAbove(steps: seq<Step>, t: ThreadId)
    requires var pc := PcOf(Run(INIT, steps), t); (pc.Started? || pc.Loaded?) && pc.next.Finish?
    ensures var (pc, how) := (PcOf(Run(INIT, steps), t), PcOf(Run(INIT, steps), t).next.how);
            && how.LinkedTo? && how.found.Names? && how.found.level < pc.next.job.level
            && pc.op == NotBetter(pc.next.job.id, pc.next.job.level, how.found.id)
  {
    InvRun(INIT, steps);
    hide Run;
    assert JobOk(Run(INIT, steps), t);
  }

  // The log holds a claim of each, made over an empty word, and a clear between the two.
  ghost predicate ClearedBetween(s: State, t: ThreadId, u: ThreadId) {
    exists i, j, k ::
      && 0 <= i < |s.log| && 0 <= j < |s.log| && 0 <= k < |s.log| && (i < k < j || j < k < i)
      && ClaimBy(s.log[i], t) && ClaimBy(s.log[j], u) && Cleared(s.log[k])
  }

  predicate ClaimBy(c: Change, t: ThreadId) {
    c.t == t && c.op.Claim? && c.before.Empty?
  }

  // Two inserts that both returned unlinked: between their claims the word was cleared, by somebody who expected the
  // very entry it named then.
  lemma TwoRootsNeedClear(steps: seq<Step>, t: ThreadId, u: ThreadId)
    requires t != u && PcOf(Run(INIT, steps), t).Ended? && PcOf(Run(INIT, steps), t).how.AsRoot?
    requires PcOf(Run(INIT, steps), u).Ended? && PcOf(Run(INIT, steps), u).how.AsRoot?
    ensures ClearedBetween(Run(INIT, steps), t, u)
  {
    InvRun(INIT, steps);
    var s := Run(INIT, steps);
    hide Run;
    assert JobOk(s, t) && JobOk(s, u);
    var i := ClaimOf(s, t, Claim(PcOf(s, t).job.id, PcOf(s, t).job.level));
    var j := ClaimOf(s, u, Claim(PcOf(s, u).job.id, PcOf(s, u).job.level));
    hide Inv, JobOk;
    var k;
    if i < j {
      k := NamedUntilCleared(s, i, j);
    } else {
      k := NamedUntilCleared(s, j, i);
    }
  }

  lemma ClaimOf(s: State, t: ThreadId, op: Op) returns (i: nat)
    requires Inv(s) && Claimed(s, t, op) && op.Claim?
    ensures i < |s.log| && ClaimBy(s.log[i], t) && s.log[i].after.Names?
  {
    i :| 0 <= i < |s.log| && s.log[i].t == t && s.log[i].op == op && s.log[i].before.Empty?;
    assert Respectful(s.log[i]);
  }

  predicate Cleared(c: Change) {
    c.op.ClearIf? && c.after.Empty? && IdOf(c.before) == c.op.expected
  }

  // What an exchange comes to when nothing has moved since its load: it installs, unless what stands there rules it
  // out, which for a promotion is another entry at least as high, for a replacement or a clear any entry but the one
  // expected.
  lemma ExchangeIsExact(s: State, t: ThreadId)
    requires PcOf(s, t).Loaded? && s.word == PcOf(s, t).cur
    ensures var (op, s') := (PcOf(s, t).op, Apply(s, Exchange(t)));
            s'.log == s.log <==>
              match op
              case NotBetter(_, level, expected) => s.word.Names? && s.word.id != expected && s.word.level >= level
              case ReplaceIf(expected, _, _) => IdOf(s.word) != expected
              case ClearIf(expected) => IdOf(s.word) != expected
              case Claim(_, _) => s.word.Names?
              case SetEntry(_, _) => false
    ensures var s' := Apply(s, Exchange(t));
            s'.log != s.log ==> s'.log == s.log + [Change(t, PcOf(s, t).op, s.word, s'.word)]
  {
  }
}
