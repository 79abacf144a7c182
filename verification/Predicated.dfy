/** Search with a predicate answered elsewhere (search_predicated): candidates go out in batches, verdicts come
    back late, in any order or never, and only approved candidates become hits. */
module Predicated {
  import opened Core
  import opened Ranking
  import opened Scratch
  import opened Snapshot
  import opened Beam
  import opened Layers
  import opened Descent
  import opened GraphPlane
  import opened Plane

  const PREDICATE_BATCH: nat := 64

  datatype Asked = Asked(ids: seq<Id>, accepted: bool)
  datatype Arrival = Nothing | Answer(batch: nat, flags: seq<bool>)
  datatype Message = Message(ids: seq<Id>, flags: seq<bool>)

  function FlagAt(flags: seq<bool>, i: nat): bool {
    i < |flags| && flags[i]
  }

  // The evaluator's side. Its whole behaviour is given in advance: which dispatches it takes, and what each
  // receive finds. It answers only batches it took, each at most once.
  class Pipe {
    var accepts: seq<bool>
    var arrivals: seq<Arrival>
    var asked: seq<Asked>
    var answered: set<nat>
    ghost var home: map<Id, nat>
    ghost var rulings: map<Id, bool>

    // `home` says which batch an id went out in, `rulings` what has been answered.
    ghost predicate Valid()
      reads this
    {
      AskedOk(asked, home) && AnsweredOk(asked, answered, home, rulings)
    }

    // Batches taken and not answered yet.
    ghost function Outstanding(): int
      reads this
    {
      |Taken(asked)| - |answered|
    }

    // Every id that went out in a batch the evaluator took has its verdict.
    ghost predicate Settled()
      reads this
    {
      forall x :: x in home && home[x] < |asked| && asked[home[x]].accepted ==> x in rulings
    }

    // Everything taken is answered, or the script of answers ended, or `patience` receives went by since `before`.
    ghost predicate Waited(patience: nat, before: nat)
      reads this
    {
      Settled() || arrivals == [] || |arrivals| + patience <= before
    }

    constructor (accepts: seq<bool>, arrivals: seq<Arrival>)
      ensures Valid() && home == map[] && rulings == map[] && Outstanding() == 0
    {
      this.accepts, this.arrivals := accepts, arrivals;
      asked, answered := [], {};
      home, rulings := map[], map[];
    }

    // Hand one batch over; a refused one will never be answered.
    method Dispatch(ids: seq<Id>) returns (ok: bool)
      requires Valid() && NoDup(ids) && forall x :: x in ids ==> x !in home
      modifies this
      ensures Valid() && rulings == old(rulings) && arrivals == old(arrivals)
      ensures asked == old(asked) + [Asked(ids, ok)] && ok == (old(accepts) != [] && old(accepts)[0])
      ensures home.Keys == old(home).Keys + Elems(ids)
      ensures Outstanding() == old(Outstanding()) + if ok then 1 else 0
    {
      hide AskedOk, AnsweredOk, Homes, NoDup, Elems;
      ok := accepts != [] && accepts[0];
      if accepts != [] {
        accepts := accepts[1..];
      }
      AskMore(asked, home, ids, ok);
      AskKeepsAnswers(asked, answered, home, rulings, ids, ok);
      TakenSnoc(asked, Asked(ids, ok));
      home := Homes(home, ids, |asked|);
      asked := asked + [Asked(ids, ok)];
    }

    method Receive() returns (m: Option<Message>)
      requires Valid()
      modifies this
      ensures Valid() && home == old(home) && asked == old(asked)
      ensures arrivals == if old(arrivals) == [] then [] else old(arrivals)[1..]
      ensures Outstanding() == old(Outstanding()) - if m.Some? then 1 else 0
      ensures m.None? ==> rulings == old(rulings)
      ensures m.Some? ==> NoDup(m.value.ids) && rulings == old(rulings) + Rule(m.value)
      ensures m.Some? ==> forall x :: x in m.value.ids ==> x in home && x !in old(rulings)
    {
      m := None;
      if arrivals != [] {
        var arrival := arrivals[0];
        arrivals := arrivals[1..];
        if arrival.Answer? && arrival.batch < |asked| && asked[arrival.batch].accepted && arrival.batch !in answered {
          var ids := asked[arrival.batch].ids;
          m := Some(Message(ids, arrival.flags));
          AnswerOne(asked, answered, home, rulings, arrival.batch, m.value);
          answered := answered + {arrival.batch};
          rulings := rulings + Rule(m.value);
        }
      }
    }
  }

  // Every id went out in exactly one batch, once.
  ghost predicate AskedOk(asked: seq<Asked>, home: map<Id, nat>) {
    && (forall b, x :: 0 <= b < |asked| && x in asked[b].ids ==> x in home && home[x] == b)
    && (forall x :: x in home ==> home[x] < |asked| && x in asked[home[x]].ids)
    && (forall b :: 0 <= b < |asked| ==> NoDup(asked[b].ids))
  }

  // Answers were given for accepted batches, for each of their ids.
  ghost predicate AnsweredOk(asked: seq<Asked>, answered: set<nat>, home: map<Id, nat>, rulings: map<Id, bool>) {
    && (forall b :: b in answered ==> b < |asked| && asked[b].accepted)
    && (forall x :: x in rulings <==> x in home && home[x] in answered)
  }

  ghost function Taken(asked: seq<Asked>): set<nat> {
    set b | 0 <= b < |asked| && asked[b].accepted
  }

  lemma TakenSnoc(asked: seq<Asked>, one: Asked)
    ensures |Taken(asked + [one])| == |Taken(asked)| + if one.accepted then 1 else 0
  {
    assert Taken(asked + [one]) == if one.accepted then Taken(asked) + {|asked|} else Taken(asked);
  }

  // No batch is outstanding: all that were taken are answered.
  lemma NothingOutstanding(asked: seq<Asked>, answered: set<nat>, home: map<Id, nat>, rulings: map<Id, bool>)
    requires AnsweredOk(asked, answered, home, rulings) && |Taken(asked)| == |answered|
    ensures forall x :: x in home && home[x] < |asked| && asked[home[x]].accepted ==> x in rulings
  {
    assert answered <= Taken(asked);
    SameSize(answered, Taken(asked));
  }

  lemma SameSize(a: set<nat>, b: set<nat>)
    requires a <= b && |a| == |b|
    ensures a == b
  {
    assert b == a + (b - a);
    assert b - a == {};
  }

  ghost function Homes(home: map<Id, nat>, ids: seq<Id>, b: nat): map<Id, nat> {
    map x | x in home.Keys + Elems(ids) :: if x in ids then b else home[x]
  }

  lemma AskMore(asked: seq<Asked>, home: map<Id, nat>, ids: seq<Id>, ok: bool)
    requires AskedOk(asked, home) && NoDup(ids) && forall x :: x in ids ==> x !in home
    ensures AskedOk(asked + [Asked(ids, ok)], Homes(home, ids, |asked|))
    ensures Homes(home, ids, |asked|).Keys == home.Keys + Elems(ids)
  {
    hide NoDup;
    var after, home' := asked + [Asked(ids, ok)], Homes(home, ids, |asked|);
    forall b, x | 0 <= b < |after| && x in after[b].ids ensures x in home' && home'[x] == b {
      if b < |asked| {
        assert x in asked[b].ids;
      }
    }
    forall x | x in home' ensures home'[x] < |after| && x in after[home'[x]].ids {
      assert x in ids || x in home;
    }
  }

  lemma AskKeepsAnswers(
    asked: seq<Asked>, answered: set<nat>, home: map<Id, nat>, rulings: map<Id, bool>, ids: seq<Id>, ok: bool)
    requires AnsweredOk(asked, answered, home, rulings) && forall x :: x in ids ==> x !in home
    ensures AnsweredOk(asked + [Asked(ids, ok)], answered, Homes(home, ids, |asked|), rulings)
  {
  }

  lemma AnswerOne(asked: seq<Asked>, answered: set<nat>, home: map<Id, nat>, rulings: map<Id, bool>, b: nat, m: Message)
    requires AskedOk(asked, home) && AnsweredOk(asked, answered, home, rulings)
    requires b < |asked| && asked[b].accepted && b !in answered && m.ids == asked[b].ids
    ensures AnsweredOk(asked, answered + {b}, home, rulings + Rule(m))
    ensures NoDup(m.ids) && forall x :: x in m.ids ==> x in home && x !in rulings
  {
    RuleKeys(m);
    hide NoDup, Rule;
  }

  // What a message rules: an id whose flag is missing is refused.
  ghost function Rule(m: Message): map<Id, bool> {
    map x | x in Elems(m.ids) :: exists i :: 0 <= i < |m.ids| && m.ids[i] == x && FlagAt(m.flags, i)
  }

  lemma RuleKeys(m: Message)
    ensures forall x :: x in Rule(m) <==> x in m.ids
  {
  }

  ghost function Approved(rulings: map<Id, bool>): set<Id> {
    set x | x in rulings && rulings[x]
  }

  // One message's verdicts, entered one by one.
  method TakeVerdicts(verdicts0: map<Id, bool>, m: Message) returns (verdicts: map<Id, bool>)
    requires NoDup(m.ids)
    ensures verdicts == verdicts0 + Rule(m)
  {
    verdicts := verdicts0;
    var i := 0;
    assert verdicts == verdicts0 + Rule(Message([], m.flags));
    assert m.ids[..0] == [];
    hide *;
    while i < |m.ids|
      invariant 0 <= i <= |m.ids|
      invariant verdicts == verdicts0 + Rule(Message(m.ids[..i], m.flags))
    {
      RuleSnoc(m, i);
      AddEntry(verdicts0, Rule(Message(m.ids[..i], m.flags)), m.ids[i], FlagAt(m.flags, i));
      verdicts := verdicts[m.ids[i] := FlagAt(m.flags, i)];
      i := i + 1;
    }
    assert m.ids[..i] == m.ids;
  }

  lemma AddEntry(a: map<Id, bool>, b: map<Id, bool>, x: Id, v: bool)
    ensures (a + b)[x := v] == a + b[x := v]
  {
  }

  lemma RuleSnoc(m: Message, i: nat)
    requires NoDup(m.ids) && i < |m.ids|
    ensures Rule(Message(m.ids[..i + 1], m.flags)) == Rule(Message(m.ids[..i], m.flags))[m.ids[i] := FlagAt(m.flags, i)]
  {
    var before, after := Message(m.ids[..i], m.flags), Message(m.ids[..i + 1], m.flags);
    NoDupPrefix(m.ids, i);
    assert after.ids == before.ids + [m.ids[i]];
    var a, b := Rule(after), Rule(before)[m.ids[i] := FlagAt(m.flags, i)];
    assert a.Keys == b.Keys;
    forall x | x in a ensures a[x] == b[x] {
      if x == m.ids[i] {
        assert forall j :: 0 <= j < |after.ids| && after.ids[j] == x ==> j == i;
      } else {
        assert forall j :: 0 <= j < i ==> after.ids[j] == before.ids[j];
      }
    }
  }

  // drain!: while something is outstanding, take what has arrived.
  method Drain(
    pipe: Pipe, outstanding0: nat, verdicts0: map<Id, bool>) returns (outstanding: nat, verdicts: map<Id, bool>)
    requires pipe.Valid() && verdicts0 == pipe.rulings && outstanding0 == pipe.Outstanding()
    modifies pipe
    ensures pipe.Valid() && verdicts == pipe.rulings && pipe.home == old(pipe.home) && outstanding == pipe.Outstanding()
    ensures |pipe.arrivals| <= |old(pipe.arrivals)| && pipe.asked == old(pipe.asked)
    ensures outstanding == 0 || pipe.arrivals == [] || |pipe.arrivals| < |old(pipe.arrivals)|
    ensures Extends(old(pipe.rulings), pipe.rulings, pipe.home.Keys)
  {
    outstanding, verdicts := outstanding0, verdicts0;
    while outstanding > 0
      invariant pipe.Valid() && verdicts == pipe.rulings && pipe.home == old(pipe.home)
                && outstanding == pipe.Outstanding() && pipe.asked == old(pipe.asked)
      invariant |pipe.arrivals| <= |old(pipe.arrivals)|
      invariant Extends(old(pipe.rulings), pipe.rulings, pipe.home.Keys)
    {
      ghost var before := pipe.rulings;
      var m := pipe.Receive();
      if m.None? {
        break;
      }
      outstanding := outstanding - 1;
      verdicts := TakeVerdicts(verdicts, m.value);
      RuleKeys(m.value);
      assert Extends(before, pipe.rulings, pipe.home.Keys);
    }
  }

  // Verdicts only get added, and only for ids that went out.
  ghost predicate Extends(before: map<Id, bool>, after: map<Id, bool>, out: set<Id>) {
    && (forall x :: x in before ==> x in after && after[x] == before[x])
    && (forall x :: x in after ==> x in before || x in out)
  }

  // ---- The search ----

  // Approved candidates already offered to the result heap.
  ghost function Folded(pushed: set<Id>, waiting: seq<Id>, verdicts: map<Id, bool>): set<Id> {
    set x | x in pushed && x !in waiting && x in verdicts && verdicts[x]
  }

  // The heaps: results are the nearest of the folded; what was never pushed could not improve a full result set.
  ghost predicate Heaps(
    rank: Rank, ef: nat, scored: set<Id>, pushed: set<Id>, waiting: seq<Id>, results: set<Id>, verdicts: map<Id, bool>)
  {
    && pushed <= scored && NoDup(waiting) && (forall x :: x in waiting ==> x in pushed)
    && (forall x :: x in pushed && x !in waiting ==> x in verdicts)
    && Nearest(results, Folded(pushed, waiting, verdicts), ef, rank)
    && Skipped(results, scored - pushed, ef, rank)
  }

  // New verdicts concern only candidates still waiting.
  lemma VerdictsKeepHeaps(
    rank: Rank, ef: nat, scored: set<Id>, pushed: set<Id>, waiting: seq<Id>, results: set<Id>,
    verdicts: map<Id, bool>, verdicts': map<Id, bool>, out: set<Id>)
    requires Heaps(rank, ef, scored, pushed, waiting, results, verdicts) && Extends(verdicts, verdicts', out)
    ensures Heaps(rank, ef, scored, pushed, waiting, results, verdicts')
  {
    assert Folded(pushed, waiting, verdicts') == Folded(pushed, waiting, verdicts);
  }

  // Part-way through the waiting list: those before `i` that stay, and the rest.
  ghost predicate FoldInv(
    rank: Rank, ef: nat, scored: set<Id>, pushed: set<Id>, waiting0: seq<Id>, i: nat, waiting: seq<Id>,
    results: set<Id>, verdicts: map<Id, bool>)
    requires i <= |waiting0|
  {
    && Heaps(rank, ef, scored, pushed, waiting + waiting0[i..], results, verdicts)
    && forall x :: x in waiting ==> x !in verdicts
  }

  // Retain: candidates with a verdict leave the waiting list, the approved ones for the result heap.
  method Fold(
    rank: Rank, ef: nat, waiting0: seq<Id>, results0: set<Id>, verdicts: map<Id, bool>,
    ghost scored: set<Id>, ghost pushed: set<Id>)
    returns (waiting: seq<Id>, results: set<Id>)
    requires Heaps(rank, ef, scored, pushed, waiting0, results0, verdicts)
    ensures Heaps(rank, ef, scored, pushed, waiting, results, verdicts)
    ensures forall x :: x in waiting ==> x !in verdicts
  {
    waiting, results := [], results0;
    var i := 0;
    hide *;
    FoldStart(rank, ef, scored, pushed, waiting0, results0, verdicts);
    while i < |waiting0|
      invariant 0 <= i <= |waiting0|
      invariant FoldInv(rank, ef, scored, pushed, waiting0, i, waiting, results, verdicts)
    {
      var x := waiting0[i];
      FoldNext(rank, ef, scored, pushed, waiting0, i, waiting, results, verdicts);
      if x in verdicts {
        ghost var before := results;
        ghost var from := Folded(pushed, waiting + waiting0[i..], verdicts);
        if verdicts[x] {
          results := Admit(results, from, x, ef, rank, ef);
        }
        FoldLeave(rank, ef, scored, pushed, waiting0, i, waiting, before, results, verdicts);
      } else {
        FoldStay(rank, ef, scored, pushed, waiting0, i, waiting, results, verdicts);
        waiting := waiting + [x];
      }
      i := i + 1;
    }
    FoldEnd(rank, ef, scored, pushed, waiting0, i, waiting, results, verdicts);
  }

  lemma FoldStart(
    rank: Rank, ef: nat, scored: set<Id>, pushed: set<Id>, waiting0: seq<Id>, results: set<Id>, verdicts: map<Id, bool>)
    requires Heaps(rank, ef, scored, pushed, waiting0, results, verdicts)
    ensures FoldInv(rank, ef, scored, pushed, waiting0, 0, [], results, verdicts)
  {
    assert [] + waiting0[0..] == waiting0;
    hide Heaps;
  }

  lemma FoldNext(
    rank: Rank, ef: nat, scored: set<Id>, pushed: set<Id>, waiting0: seq<Id>, i: nat, waiting: seq<Id>,
    results: set<Id>, verdicts: map<Id, bool>)
    requires i < |waiting0| && FoldInv(rank, ef, scored, pushed, waiting0, i, waiting, results, verdicts)
    ensures var from := Folded(pushed, waiting + waiting0[i..], verdicts);
            waiting0[i] !in from && Nearest(results, from, ef, rank)
  {
    assert (waiting + waiting0[i..])[|waiting|] == waiting0[i];
  }

  lemma FoldLeave(
    rank: Rank, ef: nat, scored: set<Id>, pushed: set<Id>, waiting0: seq<Id>, i: nat, waiting: seq<Id>,
    before: set<Id>, results: set<Id>, verdicts: map<Id, bool>)
    requires i < |waiting0| && FoldInv(rank, ef, scored, pushed, waiting0, i, waiting, before, verdicts)
    requires waiting0[i] in verdicts
    requires var from := Folded(pushed, waiting + waiting0[i..], verdicts);
             if verdicts[waiting0[i]] then Nearest(results, from + {waiting0[i]}, ef, rank)
               && results <= before + {waiting0[i]} && |results| >= |before|
             else results == before
    ensures FoldInv(rank, ef, scored, pushed, waiting0, i + 1, waiting, results, verdicts)
  {
    var x := waiting0[i];
    var was, now := waiting + waiting0[i..], waiting + waiting0[i + 1..];
    assert was == waiting + [x] + waiting0[i + 1..];
    RemoveOne(waiting, x, waiting0[i + 1..]);
    var from := Folded(pushed, was, verdicts);
    assert Folded(pushed, now, verdicts) == if verdicts[x] then from + {x} else from;
    if verdicts[x] {
      StillSkipped(rank, ef, scored - pushed, before, results, from, x);
    }
  }

  lemma RemoveOne(a: seq<Id>, x: Id, b: seq<Id>)
    requires NoDup(a + [x] + b)
    ensures NoDup(a + b) && x !in a + b && forall y :: y in a + b <==> y in a + [x] + b && y != x
  {
    var whole := a + [x] + b;
    assert whole[|a|] == x;
    forall j | 0 <= j < |a + b| ensures (a + b)[j] == whole[if j < |a| then j else j + 1] {
    }
  }

  // A result heap that was full stays nearer than everything left out of it.
  lemma StillSkipped(rank: Rank, ef: nat, skipped: set<Id>, before: set<Id>, results: set<Id>, from: set<Id>, x: Id)
    requires Skipped(before, skipped, ef, rank) && Nearest(before, from, ef, rank) && x !in from
    requires Nearest(results, from + {x}, ef, rank) && results <= before + {x} && |results| >= |before|
    ensures Skipped(results, skipped, ef, rank)
  {
    if skipped != {} && x in results {
      assert |before + {x}| == |before| + 1;
      if before <= results {
        SubsetSize(before + {x}, results);
        assert false;
      }
      var y :| y in before && y !in results;
    }
  }

  lemma FoldStay(
    rank: Rank, ef: nat, scored: set<Id>, pushed: set<Id>, waiting0: seq<Id>, i: nat, waiting: seq<Id>,
    results: set<Id>, verdicts: map<Id, bool>)
    requires i < |waiting0| && FoldInv(rank, ef, scored, pushed, waiting0, i, waiting, results, verdicts)
    requires waiting0[i] !in verdicts
    ensures FoldInv(rank, ef, scored, pushed, waiting0, i + 1, waiting + [waiting0[i]], results, verdicts)
  {
    assert waiting + [waiting0[i]] + waiting0[i + 1..] == waiting + waiting0[i..];
  }

  lemma FoldEnd(
    rank: Rank, ef: nat, scored: set<Id>, pushed: set<Id>, waiting0: seq<Id>, i: nat, waiting: seq<Id>,
    results: set<Id>, verdicts: map<Id, bool>)
    requires i == |waiting0| && FoldInv(rank, ef, scored, pushed, waiting0, i, waiting, results, verdicts)
    ensures Heaps(rank, ef, scored, pushed, waiting, results, verdicts)
    ensures forall x :: x in waiting ==> x !in verdicts
  {
    assert waiting + waiting0[i..] == waiting;
  }

  // The candidate heap, the candidates awaiting a verdict, the batch being filled, and the counters.
  datatype Work = Work(candidates: set<Id>, waiting: seq<Id>, batch: seq<Id>, outstanding: nat, visits: nat)

  // Every pushed candidate went out exactly once or sits in the batch being filled.
  ghost predicate Outgoing(home: map<Id, nat>, batch: seq<Id>, pushed: set<Id>) {
    NoDup(batch) && (forall x :: x in batch ==> x !in home) && pushed == home.Keys + Elems(batch)
  }

  // dispatch_batch on a full or final batch: it leaves empty either way.
  method Send(pipe: Pipe, w0: Work, ghost pushed: set<Id>) returns (w: Work)
    requires pipe.Valid() && Outgoing(pipe.home, w0.batch, pushed) && w0.outstanding == pipe.Outstanding()
    modifies pipe
    ensures pipe.Valid() && Outgoing(pipe.home, w.batch, pushed) && pipe.rulings == old(pipe.rulings)
    ensures w.outstanding == pipe.Outstanding() && pipe.arrivals == old(pipe.arrivals)
    ensures w.batch == [] && w.(batch := w0.batch, outstanding := w0.outstanding) == w0
    ensures exists ok :: pipe.asked == old(pipe.asked) + [Asked(w0.batch, ok)]
  {
    var ok := pipe.Dispatch(w0.batch);
    w := w0.(batch := [], outstanding := if ok then w0.outstanding + 1 else w0.outstanding);
  }

  // Batches go out as they fill: 64 ids each, until the one being filled.
  ghost predicate Filling(asked: seq<Asked>, batch: seq<Id>) {
    |batch| < 64 && forall b :: 0 <= b < |asked| ==> |asked[b].ids| == 64
  }

  // In the end only the last may be smaller, and none is empty.
  ghost predicate Batched(asked: seq<Asked>) {
    forall b :: 0 <= b < |asked| ==> 0 < |asked[b].ids| <= 64 && (b + 1 < |asked| ==> |asked[b].ids| == 64)
  }

  // One scored neighbour: pushed, queued for a verdict and batched, unless it cannot improve a full result set.
  method OfferOne(
    nid: Id, rank: Rank, ef: nat, results: set<Id>, pipe: Pipe, w0: Work,
    ghost scored: set<Id>, ghost pushed: set<Id>, ghost verdicts: map<Id, bool>)
    returns (w: Work, joined: bool)
    requires pipe.Valid() && Outgoing(pipe.home, w0.batch, pushed) && verdicts == pipe.rulings
    requires Heaps(rank, ef, scored, pushed, w0.waiting, results, verdicts) && nid !in scored && nid !in verdicts
    requires w0.outstanding == pipe.Outstanding() && Filling(pipe.asked, w0.batch)
    modifies pipe
    ensures w.outstanding == pipe.Outstanding() && pipe.arrivals == old(pipe.arrivals) && Filling(pipe.asked, w.batch)
    ensures pipe.Valid() && pipe.rulings == old(pipe.rulings) && w.visits == w0.visits
    ensures Heaps(rank, ef, scored + {nid}, if joined then pushed + {nid} else pushed, w.waiting, results, verdicts)
    ensures Outgoing(pipe.home, w.batch, if joined then pushed + {nid} else pushed)
    ensures w.candidates == if joined then w0.candidates + {nid} else w0.candidates
  {
    hide Heaps, Outgoing, Skipped, Nearest, AskedOk, AnsweredOk;
    var worst := PeekWorst(results, rank);
    joined := |results| < ef || worst.None? || rank(nid) < rank(worst.value);
    w := w0;
    if joined {
      PushKeeps(rank, ef, scored, pushed, w0.waiting, results, verdicts, nid);
      BatchMore(pipe.home, w0.batch, pushed, nid);
      w := w0.(candidates := w0.candidates + {nid}, waiting := w0.waiting + [nid], batch := w0.batch + [nid]);
      if |w.batch| >= PREDICATE_BATCH {
        w := Send(pipe, w, pushed + {nid});
      }
    } else {
      SkipKeeps(rank, ef, scored, pushed, w0.waiting, results, verdicts, nid, worst);
    }
  }

  lemma PushKeeps(
    rank: Rank, ef: nat, scored: set<Id>, pushed: set<Id>, waiting: seq<Id>, results: set<Id>, verdicts: map<Id, bool>,
    nid: Id)
    requires Heaps(rank, ef, scored, pushed, waiting, results, verdicts) && nid !in scored && nid !in verdicts
    ensures Heaps(rank, ef, scored + {nid}, pushed + {nid}, waiting + [nid], results, verdicts) && nid !in pushed
  {
    assert Folded(pushed + {nid}, waiting + [nid], verdicts) == Folded(pushed, waiting, verdicts);
    assert scored + {nid} - (pushed + {nid}) == scored - pushed;
  }

  lemma BatchMore(home: map<Id, nat>, batch: seq<Id>, pushed: set<Id>, nid: Id)
    requires Outgoing(home, batch, pushed) && nid !in pushed
    ensures Outgoing(home, batch + [nid], pushed + {nid})
  {
    ElemsSnoc(batch, nid);
    hide Elems;
    NoDupSnoc(batch, nid);
  }

  lemma SkipKeeps(
    rank: Rank, ef: nat, scored: set<Id>, pushed: set<Id>, waiting: seq<Id>, results: set<Id>, verdicts: map<Id, bool>,
    nid: Id, worst: Option<Id>)
    requires Heaps(rank, ef, scored, pushed, waiting, results, verdicts) && nid !in scored
    requires worst.None? <==> results == {}
    requires worst.Some? ==> IsWorst(worst.value, results, rank)
    requires !(|results| < ef || worst.None? || rank(nid) < rank(worst.value))
    ensures Heaps(rank, ef, scored + {nid}, pushed, waiting, results, verdicts)
  {
    assert scored + {nid} - pushed == (scored - pushed) + {nid};
  }

  // After `i` neighbours of an expansion.
  ghost predicate OfferInv(
    nodes: Nodes, rank: Rank, ef: nat, list: seq<Id>, i: nat, w0: Work, scored0: set<Id>, pushed0: set<Id>,
    results: set<Id>, verdicts: map<Id, bool>, home: map<Id, nat>, w: Work, scored: set<Id>, pushed: set<Id>)
    requires i <= |list|
  {
    && Heaps(rank, ef, scored, pushed, w.waiting, results, verdicts) && verdicts.Keys <= scored0
    && Outgoing(home, w.batch, pushed) && w0.candidates <= pushed0 && FreshBatch(nodes, list, scored0)
    && BatchInv(nodes, list, i, scored0, pushed0, w0.candidates, w0.visits, scored, pushed, w.candidates, w.visits)
  }

  lemma OfferReady(
    nodes: Nodes, rank: Rank, ef: nat, list: seq<Id>, i: nat, w0: Work, scored0: set<Id>, pushed0: set<Id>,
    results: set<Id>, verdicts: map<Id, bool>, home: map<Id, nat>, w: Work, scored: set<Id>, pushed: set<Id>)
    requires i < |list|
    requires OfferInv(nodes, rank, ef, list, i, w0, scored0, pushed0, results, verdicts, home, w, scored, pushed)
    ensures list[i] in nodes ==>
              && list[i] !in scored && list[i] !in verdicts
              && Heaps(rank, ef, scored, pushed, w.waiting, results, verdicts) && Outgoing(home, w.batch, pushed)
    ensures list[i] !in nodes ==>
              OfferInv(nodes, rank, ef, list, i + 1, w0, scored0, pushed0, results, verdicts, home, w, scored, pushed)
  {
    hide Heaps, Outgoing;
    BatchFresh(nodes, list, i, scored0, pushed0, w0.candidates, w0.visits, scored, pushed, w.candidates, w.visits);
  }

  lemma OfferStep(
    nodes: Nodes, rank: Rank, ef: nat, list: seq<Id>, i: nat, w0: Work, scored0: set<Id>, pushed0: set<Id>,
    results: set<Id>, verdicts: map<Id, bool>, home: map<Id, nat>, w: Work, scored: set<Id>, pushed: set<Id>,
    joined: bool, home': map<Id, nat>, w': Work, pushed': set<Id>)
    requires i < |list| && list[i] in nodes && list[i] !in scored
    requires OfferInv(nodes, rank, ef, list, i, w0, scored0, pushed0, results, verdicts, home, w, scored, pushed)
    requires pushed' == (if joined then pushed + {list[i]} else pushed)
    requires w'.candidates == (if joined then w.candidates + {list[i]} else w.candidates) && w'.visits == w.visits
    requires Heaps(rank, ef, scored + {list[i]}, pushed', w'.waiting, results, verdicts)
             && Outgoing(home', w'.batch, pushed')
    ensures OfferInv(nodes, rank, ef, list, i + 1, w0, scored0, pushed0, results, verdicts, home',
                     w'.(visits := w'.visits + 1), scored + {list[i]}, pushed')
  {
    hide Heaps, Outgoing, BatchInv, FreshBatch;
    BatchStep(nodes, list, i, scored0, pushed0, w0.candidates, w0.visits, scored, pushed, w.candidates, w.visits,
      joined, pushed', w'.candidates);
  }

  // An expansion's distance loop.
  method OfferAll(
    nodes: Nodes, rank: Rank, list: seq<Id>, ef: nat, results: set<Id>, pipe: Pipe, w0: Work,
    ghost scored0: set<Id>, ghost pushed0: set<Id>, ghost verdicts: map<Id, bool>)
    returns (w: Work, ghost scored: set<Id>, ghost pushed: set<Id>)
    requires pipe.Valid() && verdicts == pipe.rulings
    requires OfferInv(nodes, rank, ef, list, 0, w0, scored0, pushed0, results, verdicts, pipe.home, w0, scored0,
             pushed0)
    requires w0.outstanding == pipe.Outstanding() && Filling(pipe.asked, w0.batch)
    modifies pipe
    ensures w.outstanding == pipe.Outstanding() && pipe.arrivals == old(pipe.arrivals) && Filling(pipe.asked, w.batch)
    ensures pipe.Valid() && verdicts == pipe.rulings
    ensures OfferInv(nodes, rank, ef, list, |list|, w0, scored0, pushed0, results, verdicts, pipe.home, w, scored,
            pushed)
  {
    hide *;
    w, scored, pushed := w0, scored0, pushed0;
    var i := 0;
    while i < |list|
      invariant 0 <= i <= |list|
      invariant pipe.Valid() && verdicts == pipe.rulings
      invariant w.outstanding == pipe.Outstanding() && pipe.arrivals == old(pipe.arrivals)
      invariant Filling(pipe.asked, w.batch)
      invariant OfferInv(nodes, rank, ef, list, i, w0, scored0, pushed0, results, verdicts, pipe.home, w, scored,
                pushed)
    {
      OfferReady(nodes, rank, ef, list, i, w0, scored0, pushed0, results, verdicts, pipe.home, w, scored, pushed);
      if list[i] in nodes {
        ghost var home, before, pushed1 := pipe.home, w, pushed;
        var joined;
        w, joined := OfferOne(list[i], rank, ef, results, pipe, w, scored, pushed, verdicts);
        pushed := if joined then pushed + {list[i]} else pushed;
        OfferStep(nodes, rank, ef, list, i, w0, scored0, pushed0, results, verdicts, home, before, scored, pushed1,
          joined, pipe.home, w, pushed);
        scored := scored + {list[i]};
        w := w.(visits := w.visits + 1);
      }
      i := i + 1;
    }
  }

  // Between expansions.
  ghost predicate Beaming(nodes: Nodes, entry: Id, scored: set<Id>, pushed: set<Id>, candidates: set<Id>) {
    && entry in pushed && candidates <= pushed && pushed <= scored && scored <= nodes.Keys
    && Expanded(nodes, 0, pushed - candidates, scored) && Confined(nodes, 0, entry, scored)
  }

  // Everything the beam loop keeps.
  ghost predicate LoopInv(
    nodes: Nodes, rank: Rank, entry: Id, ef: nat, visits0: nat, scored: set<Id>, pushed: set<Id>, w: Work,
    results: set<Id>, verdicts: map<Id, bool>, home: map<Id, nat>)
  {
    && Beaming(nodes, entry, scored, pushed, w.candidates)
    && Outgoing(home, w.batch, pushed) && verdicts.Keys <= scored
    && Heaps(rank, ef, scored, pushed, w.waiting, results, verdicts)
    && w.visits + 1 == visits0 + |scored|
  }

  // Expand the nearest candidate.
  method ExpandOne(
    nodes: Nodes, maxNodes: nat, rank: Rank, ghost entry: Id, ef: nat, scratch: SearchScratch, c: Id, results: set<Id>,
    pipe: Pipe, w0: Work, ghost visits0: nat, ghost scored0: set<Id>, ghost pushed0: set<Id>)
    returns (w: Work, ghost scored: set<Id>, ghost pushed: set<Id>)
    requires Bounded(nodes, maxNodes) && scratch.Valid() && scratch.Contents() * nodes.Keys == scored0
    requires pipe.Valid() && c in w0.candidates
    requires LoopInv(nodes, rank, entry, ef, visits0, scored0, pushed0, w0, results, pipe.rulings, pipe.home)
    requires w0.outstanding == pipe.Outstanding() && Filling(pipe.asked, w0.batch)
    modifies scratch, pipe
    ensures w.outstanding == pipe.Outstanding() && pipe.arrivals == old(pipe.arrivals) && Filling(pipe.asked, w.batch)
    ensures Shown(nodes, c, scored0, scored) && w.visits + |scored0| == w0.visits + |scored|
    ensures pushed0 <= pushed && w.candidates == (w0.candidates - {c}) + (pushed - pushed0)
    ensures scratch.Valid() && scratch.Contents() * nodes.Keys == scored
    ensures pipe.Valid() && pipe.rulings == old(pipe.rulings)
    ensures LoopInv(nodes, rank, entry, ef, visits0, scored, pushed, w, results, pipe.rulings, pipe.home)
    ensures Progress(nodes, scored0, w0.candidates, scored, w.candidates)
  {
    hide Heaps, NoDup, Confined, Expanded, BatchInv, Unvisited, Elems, Outgoing, AskedOk, AnsweredOk, Progress,
      OfferInv, Taken;
    ghost var visited := scratch.Contents();
    var list := NeighborsAt(nodes, c, 0);
    var nbuf, kept := CompactUnvisited(list, maxNodes, scratch);
    UnvisitedMembers(list, maxNodes, visited);
    var w1 := w0.(candidates := w0.candidates - {c});
    OfferStart(nodes, rank, ef, nbuf[..kept], w1, scored0, pushed0, results, pipe.rulings, pipe.home);
    w, scored, pushed := OfferAll(nodes, rank, nbuf[..kept], ef, results, pipe, w1, scored0, pushed0, pipe.rulings);
    OfferDone(nodes, maxNodes, rank, entry, ef, visited, nbuf[..kept], c, w0, visits0, scored0, pushed0, results,
      pipe.rulings, pipe.home, w, scored, pushed);
  }

  // What expanding `c` shows: its live neighbours, and nothing else.
  ghost predicate Shown(nodes: Nodes, c: Id, before: set<Id>, after: set<Id>) {
    && c in after && before <= after && (forall x :: x in after - before ==> x in NeighborsAt(nodes, c, 0))
    && forall v :: v in NeighborsAt(nodes, c, 0) && v in nodes ==> v in after
  }

  lemma OfferStart(
    nodes: Nodes, rank: Rank, ef: nat, list: seq<Id>, w: Work, scored: set<Id>, pushed: set<Id>,
    results: set<Id>, verdicts: map<Id, bool>, home: map<Id, nat>)
    requires Heaps(rank, ef, scored, pushed, w.waiting, results, verdicts) && verdicts.Keys <= scored
             && pushed <= scored
    requires Outgoing(home, w.batch, pushed) && w.candidates <= pushed && FreshBatch(nodes, list, scored)
    ensures OfferInv(nodes, rank, ef, list, 0, w, scored, pushed, results, verdicts, home, w, scored, pushed)
  {
  }

  lemma OfferDone(
    nodes: Nodes, maxNodes: nat, rank: Rank, entry: Id, ef: nat, visited: set<Id>, list: seq<Id>, c: Id, w0: Work,
    visits0: nat,
    scored0: set<Id>, pushed0: set<Id>, results: set<Id>, verdicts: map<Id, bool>, home: map<Id, nat>,
    w: Work, scored: set<Id>, pushed: set<Id>)
    requires Bounded(nodes, maxNodes) && visited * nodes.Keys == scored0 && c in w0.candidates
    requires Beaming(nodes, entry, scored0, pushed0, w0.candidates) && w0.visits + 1 == visits0 + |scored0|
    requires forall x :: x in list <==> x in NeighborsAt(nodes, c, 0) && x < maxNodes && x !in visited
    requires OfferInv(nodes, rank, ef, list, |list|, w0.(candidates := w0.candidates - {c}), scored0, pushed0, results,
             verdicts, home, w, scored, pushed)
    ensures LoopInv(nodes, rank, entry, ef, visits0, scored, pushed, w, results, verdicts, home)
    ensures Progress(nodes, scored0, w0.candidates, scored, w.candidates)
    ensures (visited + Elems(list)) * nodes.Keys == scored
    ensures Shown(nodes, c, scored0, scored) && w.visits + |scored0| == w0.visits + |scored|
    ensures pushed0 <= pushed && w.candidates == (w0.candidates - {c}) + (pushed - pushed0)
  {
    hide Heaps, Outgoing, Confined, Expanded, BatchInv, FreshBatch, Progress, Elems;
    ghost var rest := w0.candidates - {c};
    ExpandScored(nodes, maxNodes, 0, visited, list, c, scored0, pushed0, rest, w0.visits, scored, pushed, w.candidates,
      w.visits);
    ExpandPushed(nodes, list, c, scored0, pushed0, w0.candidates, w0.visits, scored, pushed, w.candidates, w.visits);
    ProgressMade(nodes, scored0, w0.candidates, scored, w.candidates, c);
    ExpandKeepsConfined(nodes, 0, entry, scored0, c, scored);
    ExpandKeepsExpanded(nodes, 0, pushed0 - w0.candidates, scored0, c, pushed - w.candidates, scored);
  }

  // The top of each turn: take the verdicts that have arrived and fold them in.
  method Intake(
    ghost nodes: Nodes, rank: Rank, ghost entry: Id, ef: nat, pipe: Pipe, w0: Work, results0: set<Id>,
    verdicts0: map<Id, bool>,
    ghost visits0: nat, ghost scored: set<Id>, ghost pushed: set<Id>)
    returns (w: Work, results: set<Id>, verdicts: map<Id, bool>)
    requires pipe.Valid() && verdicts0 == pipe.rulings
    requires LoopInv(nodes, rank, entry, ef, visits0, scored, pushed, w0, results0, verdicts0, pipe.home)
    requires w0.outstanding == pipe.Outstanding()
    modifies pipe
    ensures w.outstanding == pipe.Outstanding() && |pipe.arrivals| <= |old(pipe.arrivals)|
    ensures w.outstanding == 0 || pipe.arrivals == [] || |pipe.arrivals| < |old(pipe.arrivals)|
    ensures pipe.Valid() && verdicts == pipe.rulings && pipe.home == old(pipe.home) && w.candidates == w0.candidates
    ensures pipe.asked == old(pipe.asked) && w.batch == w0.batch && w.visits == w0.visits
    ensures Extends(verdicts0, verdicts, pipe.home.Keys)
    ensures UpToDate(verdicts, pipe.home.Keys, w.waiting)
    ensures LoopInv(nodes, rank, entry, ef, visits0, scored, pushed, w, results, verdicts, pipe.home)
  {
    hide Beaming, Outgoing, Heaps, Extends, AskedOk, AnsweredOk;
    var outstanding;
    outstanding, verdicts := Drain(pipe, w0.outstanding, verdicts0);
    VerdictsKeepHeaps(rank, ef, scored, pushed, w0.waiting, results0, verdicts0, verdicts, pipe.home.Keys);
    VerdictsScored(nodes, entry, scored, pushed, w0.candidates, pipe.home, w0.batch, verdicts0, verdicts);
    var waiting := w0.waiting;
    results := results0;
    if verdicts != map[] && w0.waiting != [] {
      waiting, results := Fold(rank, ef, w0.waiting, results0, verdicts, scored, pushed);
    }
    w := w0.(outstanding := outstanding, waiting := waiting);
    PipeKeys(pipe);
  }

  // One turn of the beam: the node expanded, the verdicts at hand, how many batches were out, how much was left to
  // come.
  datatype Turn = Turn(c: Id, rulings: map<Id, bool>, out: nat, left: nat)

  function Order(turns: seq<Turn>): seq<Id> {
    seq(|turns|, i requires 0 <= i < |turns| => turns[i].c)
  }

  // Each turn first took the verdicts that had come, until nothing was out or a receive found nothing, and then
  // expanded the nearest node scored and not expanded, with fewer than `ef` of those approved by then strictly nearer.
  ghost predicate TurnOk(nodes: Nodes, rank: Rank, entry: Id, ef: nat, turns: seq<Turn>, i: nat, before: nat)
    requires i < |turns|
  {
    && NextFrom(nodes, 0, rank, entry, ef, Approved(turns[i].rulings), Order(turns[..i]), turns[i].c)
    && (turns[i].out == 0 || turns[i].left == 0 || turns[i].left < LeftBefore(turns, i, before))
  }

  function LeftBefore(turns: seq<Turn>, i: nat, before: nat): nat
    requires i <= |turns|
  {
    if i == 0 then before else turns[i - 1].left
  }

  ghost predicate TurnsOk(
    nodes: Nodes, rank: Rank, entry: Id, ef: nat, turns: seq<Turn>, rulings: map<Id, bool>, before: nat)
  {
    forall i :: 0 <= i < |turns| ==>
      TurnOk(nodes, rank, entry, ef, turns, i, before) && Included(turns[i].rulings, rulings)
  }

  ghost predicate Included(a: map<Id, bool>, b: map<Id, bool>) {
    forall x :: x in a ==> x in b && b[x] == a[x]
  }

  // What the beam loop keeps about its turns.
  ghost predicate TurnInv(
    nodes: Nodes, rank: Rank, entry: Id, ef: nat, turns: seq<Turn>, rulings: map<Id, bool>, before: nat,
    scored: set<Id>, pushed: set<Id>, candidates: set<Id>)
  {
    && TurnsOk(nodes, rank, entry, ef, turns, rulings, before)
    && scored == Seen(nodes, 0, entry, Order(turns))
    && candidates == pushed - Elems(Order(turns)) && Elems(Order(turns)) <= pushed
  }

  lemma TurnStart(nodes: Nodes, rank: Rank, entry: Id, ef: nat, before: nat)
    requires entry in nodes
    ensures TurnInv(nodes, rank, entry, ef, [], map[], before, {entry}, {entry}, {entry})
    ensures LeftBefore([], 0, before) == before
  {
    SeenStart(nodes, 0, entry);
    assert Order([]) == [];
  }

  lemma TurnRulings(
    nodes: Nodes, rank: Rank, entry: Id, ef: nat, turns: seq<Turn>, rulings: map<Id, bool>, before: nat,
    scored: set<Id>, pushed: set<Id>, candidates: set<Id>, rulings': map<Id, bool>, out: set<Id>)
    requires TurnInv(nodes, rank, entry, ef, turns, rulings, before, scored, pushed, candidates)
    requires Extends(rulings, rulings', out)
    ensures TurnInv(nodes, rank, entry, ef, turns, rulings', before, scored, pushed, candidates)
  {
    hide TurnOk, Seen;
  }

  // A turn noted as it is taken.
  ghost predicate TurnNow(turn: Turn, c: Id, rulings: map<Id, bool>, turns: seq<Turn>, before: nat) {
    && turn.c == c && turn.rulings == rulings
    && (turn.out == 0 || turn.left == 0 || turn.left < LeftBefore(turns, |turns|, before))
  }

  lemma TurnIs(turn: Turn, c: Id, rulings: map<Id, bool>, turns: seq<Turn>, before: nat)
    requires TurnNow(turn, c, rulings, turns, before)
    ensures turn.c == c
  {
  }

  lemma NoteTurn(c: Id, rulings: map<Id, bool>, out: nat, left: nat, turns: seq<Turn>, before: nat)
    requires out == 0 || left == 0 || left < LeftBefore(turns, |turns|, before)
    ensures TurnNow(Turn(c, rulings, out, left), c, rulings, turns, before)
    ensures LeftBefore(turns + [Turn(c, rulings, out, left)], |turns| + 1, before) == left
  {
  }

  // No verdict at hand is still to be folded in.
  ghost predicate UpToDate(rulings: map<Id, bool>, home: set<Id>, waiting: seq<Id>) {
    rulings.Keys <= home && forall x :: x in waiting ==> x !in rulings
  }

  // The top of the candidate heap, with no full result heap of nearer ones against it.
  ghost predicate Picked(
    rank: Rank, ef: nat, candidates: set<Id>, results: set<Id>, c: Id, worst: Option<Id>)
  {
    && IsBest(c, candidates, rank) && (worst.None? <==> results == {})
    && (worst.Some? ==> IsWorst(worst.value, results, rank))
    && !(|results| >= ef && worst.Some? && rank(c) > rank(worst.value))
  }

  lemma IsPicked(rank: Rank, ef: nat, candidates: set<Id>, results: set<Id>, c: Id, worst: Option<Id>)
    requires IsBest(c, candidates, rank) && (worst.None? <==> results == {})
    requires worst.Some? ==> IsWorst(worst.value, results, rank)
    requires !(|results| >= ef && worst.Some? && rank(c) > rank(worst.value))
    ensures Picked(rank, ef, candidates, results, c, worst) && c in candidates
  {
  }

  // With every verdict at hand folded in, the result heap holds the nearest of all approved.
  lemma TurnNext(
    nodes: Nodes, rank: Rank, entry: Id, ef: nat, visits0: nat, scored: set<Id>, pushed: set<Id>, w: Work,
    results: set<Id>, rulings: map<Id, bool>, home: map<Id, nat>, turns: seq<Turn>, before: nat, c: Id,
    worst: Option<Id>, turn: Turn)
    requires LoopInv(nodes, rank, entry, ef, visits0, scored, pushed, w, results, rulings, home)
    requires TurnInv(nodes, rank, entry, ef, turns, rulings, before, scored, pushed, w.candidates)
    requires UpToDate(rulings, home.Keys, w.waiting)
    requires Picked(rank, ef, w.candidates, results, c, worst)
    requires TurnNow(turn, c, rulings, turns, before)
    ensures TurnsOk(nodes, rank, entry, ef, turns + [turn], rulings, before)
    ensures Order(turns + [turn]) == Order(turns) + [c]
  {
    hide *;
    TurnIs(turn, c, rulings, turns, before);
    TurnNearest(nodes, rank, entry, ef, visits0, scored, pushed, w, results, rulings, home, turns, before, c, worst);
    TurnSnoc(nodes, rank, entry, ef, turns, rulings, before, turn, scored, pushed, w.candidates);
  }

  lemma TurnNearest(
    nodes: Nodes, rank: Rank, entry: Id, ef: nat, visits0: nat, scored: set<Id>, pushed: set<Id>, w: Work,
    results: set<Id>, rulings: map<Id, bool>, home: map<Id, nat>, turns: seq<Turn>, before: nat, c: Id,
    worst: Option<Id>)
    requires LoopInv(nodes, rank, entry, ef, visits0, scored, pushed, w, results, rulings, home)
    requires TurnInv(nodes, rank, entry, ef, turns, rulings, before, scored, pushed, w.candidates)
    requires UpToDate(rulings, home.Keys, w.waiting)
    requires Picked(rank, ef, w.candidates, results, c, worst)
    ensures NextFrom(nodes, 0, rank, entry, ef, Approved(rulings), Order(turns), c)
  {
    FoldedIsApproved(home, w.batch, pushed, w.waiting, rulings);
    assert |results| >= ef > 0 ==> results != {} && worst.value in results;
    assert Nearest(results, Approved(rulings), ef, rank) && Skipped(results, scored - pushed, ef, rank)
           && pushed <= scored;
    hide LoopInv, Seen, Nearest, Skipped, NextFrom, TurnsOk, Order;
    NextIsFrom(nodes, 0, rank, entry, ef, Approved(rulings), scored, pushed, w.candidates, results, Order(turns), c);
  }

  lemma TurnSnoc(
    nodes: Nodes, rank: Rank, entry: Id, ef: nat, turns: seq<Turn>, rulings: map<Id, bool>, before: nat, turn: Turn,
    scored: set<Id>, pushed: set<Id>, candidates: set<Id>)
    requires TurnInv(nodes, rank, entry, ef, turns, rulings, before, scored, pushed, candidates)
    requires NextFrom(nodes, 0, rank, entry, ef, Approved(rulings), Order(turns), turn.c)
    requires TurnNow(turn, turn.c, rulings, turns, before)
    ensures TurnsOk(nodes, rank, entry, ef, turns + [turn], rulings, before)
    ensures Order(turns + [turn]) == Order(turns) + [turn.c]
  {
    hide Seen, NextFrom, Approved;
    var more := turns + [turn];
    forall i | 0 <= i < |more|
      ensures TurnOk(nodes, rank, entry, ef, more, i, before) && Included(more[i].rulings, rulings) {
      assert i < |turns| ==> more[..i] == turns[..i];
      assert i == |turns| ==> more[..i] == turns;
      assert i < |turns| ==> TurnOk(nodes, rank, entry, ef, turns, i, before);
    }
  }

  lemma FoldedIsApproved(home: map<Id, nat>, batch: seq<Id>, pushed: set<Id>, waiting: seq<Id>, rulings: map<Id, bool>)
    requires Outgoing(home, batch, pushed) && UpToDate(rulings, home.Keys, waiting)
    ensures Folded(pushed, waiting, rulings) == Approved(rulings)
  {
  }

  lemma TurnStep(
    nodes: Nodes, rank: Rank, entry: Id, ef: nat, turns: seq<Turn>, more: seq<Turn>, rulings: map<Id, bool>,
    before: nat,
    scored0: set<Id>, pushed0: set<Id>, candidates0: set<Id>, c: Id, scored: set<Id>, pushed: set<Id>,
    candidates: set<Id>)
    requires TurnInv(nodes, rank, entry, ef, turns, rulings, before, scored0, pushed0, candidates0)
    requires TurnsOk(nodes, rank, entry, ef, more, rulings, before) && Order(more) == Order(turns) + [c]
    requires c in candidates0 && pushed0 <= pushed && candidates == (candidates0 - {c}) + (pushed - pushed0)
    requires Shown(nodes, c, scored0, scored) && scored <= nodes.Keys
    ensures TurnInv(nodes, rank, entry, ef, more, rulings, before, scored, pushed, candidates)
  {
    hide TurnsOk, Seen, Elems, Order;
    SeenSnoc(nodes, 0, entry, Order(turns), c, scored);
    CandidatesLeft(Order(turns), c, pushed0, candidates0, pushed, candidates);
  }

  // What a whole predicated beam did.
  ghost predicate Talked(
    nodes: Nodes, rank: Rank, entry: Id, ef: nat, turns: seq<Turn>, scored: set<Id>, hits: seq<Scored>, home: set<Id>,
    rulings: map<Id, bool>, before: nat)
  {
    && TurnsOk(nodes, rank, entry, ef, turns, rulings, before) && scored == Seen(nodes, 0, entry, Order(turns))
    && entry in scored && scored <= nodes.Keys && home <= scored && Confined(nodes, 0, entry, scored)
    && rulings.Keys <= home
    && IsRanking(hits, Ids(hits), rank) && Nearest(Ids(hits), Approved(rulings), ef, rank)
    && Skipped(Ids(hits), scored - home, ef, rank)
  }

  // The layer-0 beam of search_predicated. `scored` is every node whose distance was taken.
  method PredicatedBeam(
    nodes: Nodes, maxNodes: nat, rank: Rank, entry: Id, ef: nat, scratch: SearchScratch, pipe: Pipe,
    visits0: nat, budget: nat, patience0: nat)
    returns (out: seq<Scored>, visits: nat, ghost scored: set<Id>, ghost turns: seq<Turn>)
    requires entry in nodes && Bounded(nodes, maxNodes)
    requires scratch.Valid() && scratch.Contents() == {}
    requires pipe.Valid() && pipe.home == map[] && pipe.rulings == map[] && pipe.Outstanding() == 0 && pipe.asked == []
    modifies scratch, pipe
    ensures scratch.Valid() && pipe.Valid() && pipe.Waited(patience0, |old(pipe.arrivals)|) && Batched(pipe.asked)
    ensures visits + 1 == visits0 + |scored|
    ensures LastExpansion(nodes, 0, scored, visits0, visits, budget)
    ensures Talked(nodes, rank, entry, ef, turns, scored, out, pipe.home.Keys, pipe.rulings, |old(pipe.arrivals)|)
    ensures visits < budget ==> Complete(nodes, rank, ef, Ids(out), scored, pipe.home.Keys, Approved(pipe.rulings),
              Order(turns))
  {
    hide *;
    ghost var pushed := {entry};
    scored, turns := {entry}, [];
    BeamingStart(nodes, rank, entry, ef, visits0);
    ghost var before := |pipe.arrivals|;
    TurnStart(nodes, rank, entry, ef, before);
    LastBegins(nodes, 0, scored, visits0, budget);
    BatchStart(entry);
    var first := scratch.Visit(entry);
    var w := Work({entry}, [entry], [entry], 0, visits0);
    var results: set<Id>, verdicts: map<Id, bool> := {}, map[];
    while true
      invariant scratch.Valid() && scratch.Contents() * nodes.Keys == scored
      invariant pipe.Valid() && verdicts == pipe.rulings && Filling(pipe.asked, w.batch)
      invariant LoopInv(nodes, rank, entry, ef, visits0, scored, pushed, w, results, verdicts, pipe.home)
      invariant TurnInv(nodes, rank, entry, ef, turns, verdicts, before, scored, pushed, w.candidates)
      invariant w.outstanding == pipe.Outstanding() && |pipe.arrivals| <= before
      invariant |pipe.arrivals| == LeftBefore(turns, |turns|, before)
      invariant LastExpansion(nodes, 0, scored, visits0, w.visits, budget)
      decreases |nodes.Keys - scored|, |w.candidates|
    {
      ghost var rulings0 := verdicts;
      w, results, verdicts := Intake(nodes, rank, entry, ef, pipe, w, results, verdicts, visits0, scored, pushed);
      TurnRulings(nodes, rank, entry, ef, turns, rulings0, before, scored, pushed, w.candidates, verdicts,
        pipe.home.Keys);
      if w.candidates == {} {
        NoneLeft(rank, ef, results);
        break;
      }
      var c := PeekBest(w.candidates, rank);
      var worst := PeekWorst(results, rank);
      if |results| >= ef && worst.Some? && rank(c) > rank(worst.value) {
        FullHeap(nodes, rank, entry, ef, visits0, scored, pushed, w, results, verdicts, pipe.home);
        StopRule(rank, ef, w.candidates, results, c, worst.value);
        break;
      }
      if w.visits >= budget {
        break;
      }
      IsPicked(rank, ef, w.candidates, results, c, worst);
      ghost var scored0, candidates0 := scored, w.candidates;
      ghost var turn := Turn(c, verdicts, w.outstanding, |pipe.arrivals|);
      NoteTurn(c, verdicts, w.outstanding, |pipe.arrivals|, turns, before);
      w, scored, pushed, turns :=
        TakeTurn(nodes, maxNodes, rank, entry, ef, scratch, c, worst, results, pipe, w, visits0, budget, before, scored,
          pushed, turns, verdicts, turn);
      ProgressDecreases(nodes, scored0, candidates0, scored, w.candidates);
    }
    ghost var waits := |pipe.arrivals|;
    ghost var done, rulings0 := NoneNearer(rank, ef, w.candidates, results), verdicts;
    results := Finish(nodes, rank, entry, ef, pipe, w, results, verdicts, visits0, patience0, scored, pushed);
    TurnRulings(nodes, rank, entry, ef, turns, rulings0, before, scored, pushed, w.candidates, pipe.rulings,
      pipe.home.Keys);
    out := SortedHits(results, rank);
    RankingIds(out, results, rank);
    visits := w.visits;
    WaitedLonger(pipe, patience0, waits, before);
    PipeKeys(pipe);
    TalkDone(nodes, rank, entry, ef, turns, scored, out, results, pipe.home.Keys, pipe.rulings, before, pushed,
      w.candidates);
    if done {
      CompleteNow(nodes, rank, entry, ef, turns, pipe.rulings, before, scored, pushed, w.candidates, results,
        pipe.home.Keys);
    }
  }

  // Expand the candidate, and note the turn.
  method TakeTurn(
    nodes: Nodes, maxNodes: nat, rank: Rank, ghost entry: Id, ef: nat, scratch: SearchScratch, c: Id,
    ghost worst: Option<Id>, results: set<Id>, pipe: Pipe, w0: Work, ghost visits0: nat, ghost budget: nat,
    ghost before: nat, ghost scored0: set<Id>, ghost pushed0: set<Id>, ghost turns0: seq<Turn>,
    ghost rulings: map<Id, bool>, ghost turn: Turn)
    returns (w: Work, ghost scored: set<Id>, ghost pushed: set<Id>, ghost turns: seq<Turn>)
    requires Bounded(nodes, maxNodes) && scratch.Valid() && scratch.Contents() * nodes.Keys == scored0
    requires pipe.Valid() && c in w0.candidates && Filling(pipe.asked, w0.batch) && rulings == pipe.rulings
    requires LoopInv(nodes, rank, entry, ef, visits0, scored0, pushed0, w0, results, rulings, pipe.home)
    requires TurnInv(nodes, rank, entry, ef, turns0, rulings, before, scored0, pushed0, w0.candidates)
    requires w0.outstanding == pipe.Outstanding() && w0.visits < budget
    requires UpToDate(rulings, pipe.home.Keys, w0.waiting) && Picked(rank, ef, w0.candidates, results, c, worst)
    requires TurnNow(turn, c, rulings, turns0, before)
    modifies scratch, pipe
    ensures scratch.Valid() && scratch.Contents() * nodes.Keys == scored && turns == turns0 + [turn]
    ensures pipe.Valid() && pipe.rulings == rulings && Filling(pipe.asked, w.batch)
    ensures LoopInv(nodes, rank, entry, ef, visits0, scored, pushed, w, results, rulings, pipe.home)
    ensures TurnInv(nodes, rank, entry, ef, turns, rulings, before, scored, pushed, w.candidates)
    ensures w.outstanding == pipe.Outstanding() && pipe.arrivals == old(pipe.arrivals)
    ensures LastExpansion(nodes, 0, scored, visits0, w.visits, budget)
    ensures Progress(nodes, scored0, w0.candidates, scored, w.candidates)
  {
    hide *;
    turns := turns0 + [turn];
    TurnNext(nodes, rank, entry, ef, visits0, scored0, pushed0, w0, results, rulings, pipe.home, turns0, before, c,
      worst, turn);
    w, scored, pushed :=
      ExpandOne(nodes, maxNodes, rank, entry, ef, scratch, c, results, pipe, w0, visits0, scored0, pushed0);
    StillBeaming(nodes, rank, entry, ef, visits0, scored, pushed, w, results, rulings, pipe.home);
    TurnStep(nodes, rank, entry, ef, turns0, turns, rulings, before, scored0, pushed0, w0.candidates, c, scored,
      pushed, w.candidates);
    ShortExpansion(nodes, scored0, c, scored, visits0, w0.visits, w.visits, budget);
  }

  lemma BatchStart(entry: Id)
    ensures Filling([], [entry])
  {
  }

  lemma StillBeaming(
    nodes: Nodes, rank: Rank, entry: Id, ef: nat, visits0: nat, scored: set<Id>, pushed: set<Id>, w: Work,
    results: set<Id>, verdicts: map<Id, bool>, home: map<Id, nat>)
    requires LoopInv(nodes, rank, entry, ef, visits0, scored, pushed, w, results, verdicts, home)
    ensures scored <= nodes.Keys
  {
  }

  lemma ShortExpansion(
    nodes: Nodes, scored0: set<Id>, c: Id, scored: set<Id>, visits0: nat, was: nat, visits: nat, budget: nat)
    requires Shown(nodes, c, scored0, scored) && visits + |scored0| == was + |scored| && was < budget
    ensures LastExpansion(nodes, 0, scored, visits0, visits, budget)
  {
    LastIsShort(nodes, 0, scored0, c, scored, visits0, was, visits, Some(budget));
  }

  lemma TalkDone(
    nodes: Nodes, rank: Rank, entry: Id, ef: nat, turns: seq<Turn>, scored: set<Id>, out: seq<Scored>,
    results: set<Id>, home: set<Id>, rulings: map<Id, bool>, before: nat, pushed: set<Id>, candidates: set<Id>)
    requires TurnInv(nodes, rank, entry, ef, turns, rulings, before, scored, pushed, candidates)
    requires entry in scored && scored <= nodes.Keys && home <= scored && Confined(nodes, 0, entry, scored)
    requires IsRanking(out, results, rank) && Ids(out) == results && Nearest(results, Approved(rulings), ef, rank)
    requires Skipped(results, scored - home, ef, rank) && rulings.Keys <= home
    ensures Talked(nodes, rank, entry, ef, turns, scored, out, home, rulings, before)
  {
    hide TurnsOk, Seen, Nearest, Skipped, Confined;
  }

  lemma WaitedLonger(pipe: Pipe, patience: nat, before: nat, longer: nat)
    requires pipe.Waited(patience, before) && before <= longer
    ensures pipe.Waited(patience, longer)
  {
  }

  // A result heap never outgrows ef.
  lemma FullHeap(
    nodes: Nodes, rank: Rank, entry: Id, ef: nat, visits0: nat, scored: set<Id>, pushed: set<Id>, w: Work,
    results: set<Id>, verdicts: map<Id, bool>, home: map<Id, nat>)
    requires LoopInv(nodes, rank, entry, ef, visits0, scored, pushed, w, results, verdicts, home)
    ensures |results| <= ef
  {
  }

  // What a beam that was not stopped by its budget leaves behind: whatever it returns has had all its live
  // neighbours scored, and unless it found `ef` hits, everything scored went out and nothing reachable is unscored.
  ghost predicate Complete(
    nodes: Nodes, rank: Rank, ef: nat, results: set<Id>, scored: set<Id>, out: set<Id>, approved: set<Id>,
    order: seq<Id>) {
    Whole(nodes, ef, results, scored, out) && Rests(rank, ef, approved, scored, order)
  }

  ghost predicate Whole(nodes: Nodes, ef: nat, results: set<Id>, scored: set<Id>, out: set<Id>) {
    && Expanded(nodes, 0, results, scored)
    && (|results| < ef ==> out == scored && Closed(nodes, 0, scored))
  }

  lemma CompleteNow(
    nodes: Nodes, rank: Rank, entry: Id, ef: nat, turns: seq<Turn>, rulings: map<Id, bool>, before: nat,
    scored: set<Id>, pushed: set<Id>, candidates: set<Id>, results: set<Id>, home: set<Id>)
    requires TurnInv(nodes, rank, entry, ef, turns, rulings, before, scored, pushed, candidates) && home == pushed
    requires NoneNearer(rank, ef, candidates, results) && Nearest(results, Approved(rulings), ef, rank)
    requires Skipped(results, scored - home, ef, rank) && results <= pushed && Whole(nodes, ef, results, scored, home)
    ensures Complete(nodes, rank, ef, results, scored, home, Approved(rulings), Order(turns))
  {
    hide TurnsOk, Seen, Whole, NoneNearer, Nearest, Skipped, Rests;
    BeamRests(rank, ef, Approved(rulings), scored, pushed, candidates, results, Order(turns));
  }

  // Late approvals only push farther ones out of a full heap, so the stop rule still holds after the tail.
  lemma StillNoneNearer(
    rank: Rank, ef: nat, candidates: set<Id>, before: set<Id>, results: set<Id>, approved: set<Id>)
    requires NoneNearer(rank, ef, candidates, before) && before <= approved && |before| <= ef
    requires Nearest(results, approved, ef, rank)
    ensures NoneNearer(rank, ef, candidates, results)
  {
    if candidates != {} {
      SubsetSize(before, approved);
      forall x, y | x in candidates && y in results ensures rank(x) > rank(y) {
        if y !in before {
          if before <= results {
            SubsetSize(before + {y}, results);
            assert false;
          }
          var z :| z in before && z !in results;
        }
      }
    }
  }

  lemma BeamEnds(
    nodes: Nodes, rank: Rank, entry: Id, ef: nat, scored: set<Id>, pushed: set<Id>, candidates: set<Id>,
    results: set<Id>)
    requires Beaming(nodes, entry, scored, pushed, candidates) && NoneNearer(rank, ef, candidates, results)
    requires results <= pushed && Skipped(results, scored - pushed, ef, rank)
    ensures Whole(nodes, ef, results, scored, pushed)
  {
    if |results| < ef {
      assert pushed - candidates == scored;
    }
  }

  // The tail: send what is left of the batch, and wait for what is out.
  method Finish(
    ghost nodes: Nodes, rank: Rank, ghost entry: Id, ef: nat, pipe: Pipe, w0: Work, results0: set<Id>,
    verdicts: map<Id, bool>,
    ghost visits0: nat, patience: nat, ghost scored: set<Id>, ghost pushed: set<Id>)
    returns (results: set<Id>)
    requires pipe.Valid() && verdicts == pipe.rulings
    requires LoopInv(nodes, rank, entry, ef, visits0, scored, pushed, w0, results0, verdicts, pipe.home)
    requires w0.outstanding == pipe.Outstanding() && Filling(pipe.asked, w0.batch)
    modifies pipe
    ensures pipe.Waited(patience, |old(pipe.arrivals)|)
    ensures NoneNearer(rank, ef, w0.candidates, results0) ==>
              && Whole(nodes, ef, results, scored, pipe.home.Keys)
              && NoneNearer(rank, ef, w0.candidates, results)
    ensures Extends(verdicts, pipe.rulings, pipe.home.Keys) && pipe.home.Keys == pushed && results <= pushed
    ensures Batched(pipe.asked)
    ensures pipe.Valid() && pipe.home.Keys <= scored && scored <= nodes.Keys && entry in scored
            && Confined(nodes, 0, entry, scored)
    ensures w0.visits + 1 == visits0 + |scored|
    ensures Nearest(results, Approved(pipe.rulings), ef, rank) && Skipped(results, scored - pipe.home.Keys, ef, rank)
  {
    hide Beaming, Outgoing, Heaps, AskedOk, AnsweredOk, Nearest, Skipped, Confined, Approved, Expanded, Whole,
      NoneNearer, Taken, Extends;
    hide Pipe.Settled, Pipe.Waited;
    var w := w0;
    if w.batch != [] {
      w := Send(pipe, w, pushed);
    }
    BeamingEnd(nodes, entry, scored, pushed, w.candidates, pipe.home, w.batch);
    results := DrainTail(rank, ef, pipe, w, results0, verdicts, patience, scored, pushed);
    if NoneNearer(rank, ef, w0.candidates, results0) {
      StillNoneNearer(rank, ef, w0.candidates, results0, results, Approved(pipe.rulings));
      BeamEnds(nodes, rank, entry, ef, scored, pushed, w0.candidates, results);
    }
  }

  lemma BeamingStart(nodes: Nodes, rank: Rank, entry: Id, ef: nat, visits0: nat)
    requires entry in nodes
    ensures LoopInv(nodes, rank, entry, ef, visits0, {entry}, {entry}, Work({entry}, [entry], [entry], 0, visits0), {},
            map[], map[])
    ensures ({} + {entry}) * nodes.Keys == {entry}
  {
    assert Folded({entry}, [entry], map[]) == {};
    assert Elems([entry]) == {entry};
  }

  lemma VerdictsScored(
    nodes: Nodes, entry: Id, scored: set<Id>, pushed: set<Id>, candidates: set<Id>, home: map<Id, nat>, batch: seq<Id>,
    before: map<Id, bool>, after: map<Id, bool>)
    requires Beaming(nodes, entry, scored, pushed, candidates) && Outgoing(home, batch, pushed)
    requires Extends(before, after, home.Keys) && before.Keys <= scored
    ensures after.Keys <= scored
  {
  }

  lemma BeamingEnd(
    nodes: Nodes, entry: Id, scored: set<Id>, pushed: set<Id>, candidates: set<Id>, home: map<Id, nat>, batch: seq<Id>)
    requires Beaming(nodes, entry, scored, pushed, candidates) && Outgoing(home, batch, pushed)
    ensures entry in scored && scored <= nodes.Keys && home.Keys <= scored && Confined(nodes, 0, entry, scored)
  {
  }

  // Wait for what is still out, as long as patience lasts, and fold once more; a missing verdict is a refusal.
  method DrainTail(
    rank: Rank, ef: nat, pipe: Pipe, w: Work, results0: set<Id>, verdicts0: map<Id, bool>, patience0: nat,
    ghost scored: set<Id>, ghost pushed: set<Id>)
    returns (results: set<Id>)
    requires pipe.Valid() && verdicts0 == pipe.rulings && Outgoing(pipe.home, [], pushed)
    requires Heaps(rank, ef, scored, pushed, w.waiting, results0, verdicts0)
    requires w.outstanding == pipe.Outstanding()
    modifies pipe
    ensures pipe.Valid() && pipe.home == old(pipe.home) && pipe.home.Keys == pushed && pipe.asked == old(pipe.asked)
    ensures Extends(verdicts0, pipe.rulings, pipe.home.Keys)
    ensures pipe.Waited(patience0, |old(pipe.arrivals)|)
    ensures results0 <= Approved(pipe.rulings) && |results0| <= ef && results <= pushed
    ensures Nearest(results, Approved(pipe.rulings), ef, rank) && Skipped(results, scored - pipe.home.Keys, ef, rank)
  {
    hide *;
    ExtendsSelf(verdicts0, pipe.home.Keys);
    var outstanding, patience, verdicts := w.outstanding, patience0, verdicts0;
    while outstanding > 0 && patience > 0
      invariant pipe.Valid() && verdicts == pipe.rulings && pipe.home == old(pipe.home)
      invariant pipe.asked == old(pipe.asked) && Extends(verdicts0, verdicts, pipe.home.Keys)
      invariant Heaps(rank, ef, scored, pushed, w.waiting, results0, verdicts)
      invariant outstanding == pipe.Outstanding()
      invariant outstanding == 0 || pipe.arrivals == []
                || |pipe.arrivals| + (patience0 - patience) <= |old(pipe.arrivals)|
      decreases patience
    {
      ghost var before := verdicts;
      outstanding, verdicts := Drain(pipe, outstanding, verdicts);
      VerdictsKeepHeaps(rank, ef, scored, pushed, w.waiting, results0, before, verdicts, pipe.home.Keys);
      ExtendsMore(verdicts0, before, verdicts, pipe.home.Keys);
      patience := patience - 1;
    }
    TailWaited(pipe, outstanding, patience0, patience, |old(pipe.arrivals)|);
    HeapsApproved(rank, ef, scored, pushed, w.waiting, results0, verdicts);
    var waiting;
    waiting, results := Fold(rank, ef, w.waiting, results0, verdicts, scored, pushed);
    PipeKeys(pipe);
    FoldedAll(rank, ef, scored, pushed, waiting, results, verdicts, pipe.home);
  }

  lemma ExtendsSelf(a: map<Id, bool>, out: set<Id>)
    ensures Extends(a, a, out)
  {
  }

  lemma ExtendsMore(a: map<Id, bool>, b: map<Id, bool>, c: map<Id, bool>, out: set<Id>)
    requires Extends(a, b, out) && Extends(b, c, out)
    ensures Extends(a, c, out)
  {
  }

  lemma TailWaited(pipe: Pipe, outstanding: nat, patience0: nat, patience: nat, before: nat)
    requires pipe.Valid() && outstanding == pipe.Outstanding() && patience <= patience0
    requires outstanding == 0 || patience == 0
    requires outstanding == 0 || pipe.arrivals == [] || |pipe.arrivals| + (patience0 - patience) <= before
    ensures pipe.Waited(patience0, before)
  {
    if outstanding == 0 {
      NothingOutstanding(pipe.asked, pipe.answered, pipe.home, pipe.rulings);
    }
  }

  lemma HeapsApproved(
    rank: Rank, ef: nat, scored: set<Id>, pushed: set<Id>, waiting: seq<Id>, results: set<Id>, verdicts: map<Id, bool>)
    requires Heaps(rank, ef, scored, pushed, waiting, results, verdicts)
    ensures results <= Approved(verdicts) && |results| <= ef
  {
  }

  lemma PipeKeys(pipe: Pipe)
    requires pipe.Valid()
    ensures pipe.rulings.Keys <= pipe.home.Keys
  {
  }

  lemma FoldedAll(
    rank: Rank, ef: nat, scored: set<Id>, pushed: set<Id>, waiting: seq<Id>, results: set<Id>, verdicts: map<Id, bool>,
    home: map<Id, nat>)
    requires Heaps(rank, ef, scored, pushed, waiting, results, verdicts) && Outgoing(home, [], pushed)
    requires verdicts.Keys <= home.Keys && forall x :: x in waiting ==> x !in verdicts
    ensures Nearest(results, Approved(verdicts), ef, rank) && Skipped(results, scored - home.Keys, ef, rank)
    ensures home.Keys == pushed && results <= pushed
  {
    assert pushed == home.Keys;
    assert Folded(pushed, waiting, verdicts) == Approved(verdicts);
  }

  // When the budget covers what is reachable from `ep`, and `ef` covers it too or more than was approved, the search
  // asked about all of it, and what it returns is a scan of what was approved.
  ghost predicate AsksAll(
    nodes: Nodes, ep: Id, hits: seq<Scored>, out: set<Id>, rulings: map<Id, bool>, ef: nat, visitBudget: nat,
    rank: Rank, k: nat)
  {
    forall reach: set<Id> :: IsReach(nodes, 0, ep, reach) && Roomy(reach, Approved(rulings), ef, visitBudget) ==>
      out == reach && BruteForce(hits, Approved(rulings), rank, k)
  }

  predicate Roomy(reach: set<Id>, approved: set<Id>, ef: nat, visitBudget: nat) {
    |reach| <= visitBudget && (|reach| <= ef || |approved| < ef)
  }

  lemma AskedAll(
    nodes: Nodes, ep: Id, out: seq<Scored>, scored: set<Id>, home: set<Id>, rulings: map<Id, bool>, ef: nat,
    visitBudget: nat, rank: Rank, k: nat)
    requires ep in scored && home <= scored && Confined(nodes, 0, ep, scored) && rulings.Keys <= home
    requires IsRanking(out, Ids(out), rank) && Nearest(Ids(out), Approved(rulings), ef, rank)
    requires |scored| <= visitBudget ==> Whole(nodes, ef, Ids(out), scored, home)
    ensures AsksAll(nodes, ep, Truncate(out, k), home, rulings, ef, visitBudget, rank, k)
  {
    forall reach: set<Id> | IsReach(nodes, 0, ep, reach) && Roomy(reach, Approved(rulings), ef, visitBudget)
      ensures home == reach && BruteForce(Truncate(out, k), Approved(rulings), rank, k)
    {
      var approved := Approved(rulings);
      assert scored <= reach;
      assert Ids(out) <= approved <= home;
      SubsetSize(scored, reach);
      SubsetSize(Ids(out), approved);
      SubsetSize(Ids(out), home);
      SubsetSize(home, scored);
      if |Ids(out)| < ef {
        assert scored == reach;
      } else {
        AllOf(Ids(out), reach);
      }
      WholeRanking(out, approved, rank, k);
    }
  }

  lemma AllOf(a: set<Id>, b: set<Id>)
    requires a <= b && |a| >= |b|
    ensures a == b
  {
    SubsetSize(a, b);
    assert b == a + (b - a);
    assert b - a == {};
  }

  // One predicated search, from its entry point: a finished descent to where its beam starts, that beam, which unless
  // it spent its budget was finished too, its hits cut to k, and every visit counted.
  ghost predicate AskedFor(
    nodes: Nodes, e: EntryPoint, rank: Rank, k: nat, ef: nat, visitBudget: nat, hits: seq<Scored>, visits: nat,
    out: seq<Scored>, scored: set<Id>, turns: seq<Turn>, descent: seq<Look>, ep: Id, home: set<Id>,
    rulings: map<Id, bool>, before: nat)
  {
    && DescentDone(nodes, rank, DESCENT_EF, e.id, e.level, 0, descent, ep)
    && Talked(nodes, rank, ep, ef, turns, scored, out, home, rulings, before) && hits == Truncate(out, k)
    && visits == Visits(descent) + |scored|
    && (|scored| <= visitBudget ==>
          Complete(nodes, rank, ef, Ids(out), scored, home, Approved(rulings), Order(turns)))
    && (|scored| == 1 || exists c :: c in scored && |scored| <= visitBudget + |NeighborsAt(nodes, c, 0)|)
  }

  lemma AskedMade(
    nodes: Nodes, e: EntryPoint, rank: Rank, k: nat, ef: nat, visitBudget: nat, hits: seq<Scored>, visits0: nat,
    visits: nat, out: seq<Scored>, scored: set<Id>, turns: seq<Turn>, descent: seq<Look>, ep: Id, home: set<Id>,
    rulings: map<Id, bool>, before: nat)
    requires DescentDone(nodes, rank, DESCENT_EF, e.id, e.level, 0, descent, ep)
    requires Talked(nodes, rank, ep, ef, turns, scored, out, home, rulings, before) && hits == Truncate(out, k)
    requires visits0 == 1 + Visits(descent) && visits + 1 == visits0 + |scored|
    requires visits < visits0 + visitBudget ==>
               Complete(nodes, rank, ef, Ids(out), scored, home, Approved(rulings), Order(turns))
    requires LastExpansion(nodes, 0, scored, visits0, visits, visits0 + visitBudget)
    ensures AskedFor(nodes, e, rank, k, ef, visitBudget, hits, visits, out, scored, turns, descent, ep, home, rulings,
            before)
  {
    hide DescentDone, Talked, Complete, NeighborsAt, Order;
  }

  lemma AskedMeans(
    nodes: Nodes, e: EntryPoint, rank: Rank, k: nat, ef: nat, visitBudget: nat, hits: seq<Scored>, visits: nat,
    out: seq<Scored>, scored: set<Id>, turns: seq<Turn>, descent: seq<Look>, ep: Id, home: set<Id>,
    rulings: map<Id, bool>, before: nat)
    requires AskedFor(nodes, e, rank, k, ef, visitBudget, hits, visits, out, scored, turns, descent, ep, home, rulings,
             before)
    ensures rank(ep) <= rank(e.id) && ep in nodes
    ensures descent != [] ==> Arrived(nodes, rank, 1, DESCENT_EF, LastEntry(descent), ep)
    ensures AsksAll(nodes, ep, hits, home, rulings, ef, visitBudget, rank, k)
  {
    DescentStays(nodes, rank, DESCENT_EF, e.id, e.level, 0, descent, ep);
    hide DescentDone, TurnsOk, Seen, Confined, Nearest, Skipped, Rests, Whole, IsRanking, Arrived;
    AskedAll(nodes, ep, out, scored, home, rulings, ef, visitBudget, rank, k);
  }

  lemma AskedLinked(
    nodes: Nodes, ep: Id, hits: seq<Scored>, home: set<Id>, rulings: map<Id, bool>, ef: nat, visitBudget: nat,
    rank: Rank, k: nat)
    requires AsksAll(nodes, ep, hits, home, rulings, ef, visitBudget, rank, k)
    requires AllLayersLinked(nodes) && LayerNodes(nodes, 0) == nodes.Keys && ep in nodes
    ensures Roomy(nodes.Keys, Approved(rulings), ef, visitBudget) ==>
              home == nodes.Keys && BruteForce(hits, Approved(rulings), rank, k)
  {
    assert Symmetric(nodes, 0) && Connected(nodes, 0);
    WholeIsReach(nodes, 0, ep);
    hide AllLayersLinked, BruteForce, Roomy;
  }

  // search_predicated: unfiltered descent, the layer-0 beam under its own visit budget, hits cut to k.
  // Whatever the schedule of dispatches and verdicts, the hits before the cut are the ef nearest approved
  // candidates, and anything scored but never sent out is no nearer than any of a full set of them.
  method SearchPredicated(
    g: Graph, rank: Rank, k: nat, ef: nat, pipe: Pipe, visitBudget: nat, patience: nat, scratch: SearchScratch)
    returns (hits: seq<Scored>, visits: nat, ghost out: seq<Scored>, ghost scored: set<Id>, ghost turns: seq<Turn>,
            ghost descent: seq<Look>, ghost ep: Id)
    requires g.Valid() && scratch.Valid()
    requires pipe.Valid() && pipe.home == map[] && pipe.rulings == map[] && pipe.Outstanding() == 0 && pipe.asked == []
    modifies scratch, pipe
    ensures scratch.Valid() && pipe.Valid() && pipe.Waited(patience, |old(pipe.arrivals)|) && Batched(pipe.asked)
    ensures g.entry.None? ==> hits == [] && visits == 0
    ensures g.entry.Some? ==>
              AskedFor(g.nodes, g.entry.value, rank, k, ef, visitBudget, hits, visits, out, scored, turns,
              descent, ep, pipe.home.Keys, pipe.rulings, |old(pipe.arrivals)|)
    ensures g.entry.Some? ==> rank(ep) <= rank(g.entry.value.id)
    ensures g.entry.Some? && descent != [] ==> Arrived(g.nodes, rank, 1, DESCENT_EF, LastEntry(descent), ep)
    ensures g.entry.Some? ==> AsksAll(g.nodes, ep, hits, pipe.home.Keys, pipe.rulings, ef, visitBudget, rank, k)
    ensures g.Linked() && Roomy(g.nodes.Keys, Approved(pipe.rulings), ef, visitBudget) ==>
              pipe.home.Keys == g.nodes.Keys && BruteForce(hits, Approved(pipe.rulings), rank, k)
  {
    hide *;
    g.SearchReady();
    var e;
    e, visits := g.ResolveEntry();
    if e.None? {
      hits, out, scored, turns, descent, ep := [], [], {}, [], [], NO_LOOK.entry;
      NothingAsked(g, pipe, rank, k, patience);
      return;
    }
    ghost var before := |pipe.arrivals|;
    var current;
    current, visits, descent :=
      BeamDescend(g.nodes, g.maxNodes, rank, e.value.id, e.value.level, 0, DESCENT_EF, scratch, g.highWater, 1);
    scratch.Begin(g.highWater);
    ghost var visits0 := visits;
    var full;
    full, visits, scored, turns :=
      PredicatedBeam(g.nodes, g.maxNodes, rank, current, ef, scratch, pipe, visits, visits + visitBudget, patience);
    out, ep := full, current;
    hits := Truncate(full, k);
    AskedMade(g.nodes, e.value, rank, k, ef, visitBudget, hits, visits0, visits, out, scored, turns, descent, ep,
      pipe.home.Keys, pipe.rulings, before);
    AskedMeans(g.nodes, e.value, rank, k, ef, visitBudget, hits, visits, out, scored, turns, descent, ep,
      pipe.home.Keys, pipe.rulings, before);
    if g.Linked() {
      AskedLinked(g.nodes, ep, hits, pipe.home.Keys, pipe.rulings, ef, visitBudget, rank, k);
    }
  }

  lemma NothingAsked(g: Graph, pipe: Pipe, rank: Rank, k: nat, patience: nat)
    requires g.nodes.Keys == {} && pipe.home == map[] && pipe.rulings == map[] && pipe.asked == []
    ensures pipe.home.Keys == g.nodes.Keys && BruteForce([], Approved(pipe.rulings), rank, k) && Batched(pipe.asked)
    ensures pipe.Waited(patience, |pipe.arrivals|)
  {
    EmptyRanking(rank);
    NoHits([]);
    assert Approved(pipe.rulings) == {};
    WholeRanking([], {}, rank, k);
  }
}
