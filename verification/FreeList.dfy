/** Node ids (allocate_id, free_id and their callers in insert.rs and graph.rs): a tagged Treiber stack whose links lie
    over a live field, and a bump counter with rollback. An insert writes its slot once or more before it returns, and
    a delete may come between. */
module FreeList {
  import opened Core

  type ThreadId = nat

  const TAGS: nat := 0x1_0000_0000

  // The stack head: top id (or NO_ID) and a tag that every successful exchange advances.
  datatype Head = Head(id: nat, tag: nat)

  // `moves` counts the exchanges of the head since `cur` was loaded.
  datatype Pc =
    | Idle
    | Allocating
    | PopLoaded(cur: Head, moves: nat)
    | PopLinked(cur: Head, next: nat, moves: nat)
    | Empty
    | Overshot
    | Owns(id: nat)
    | Published(id: nat)
    | Freeing(id: nat)
    | FreeLoaded(id: nat, cur: Head, moves: nat)
    | FreeLinked(id: nat, cur: Head, moves: nat)

  // Where an id is. Recorded beside the state; the invariant ties each place to the structure it names.
  datatype Place = Never | HeldBy(t: ThreadId) | Live | Free

  datatype State = State(
    head: Head, hw: nat, next: seq<nat>, live: set<nat>, threads: map<ThreadId, Pc>,
    stack: seq<nat>, issued: nat, places: seq<Place>)

  datatype Step =
    | StartAllocate(t: ThreadId)
    | LoadHead(t: ThreadId)
    | LoadNext(t: ThreadId)
    | PopExchange(t: ThreadId)
    | FetchAdd(t: ThreadId)
    | Rollback(t: ThreadId)
    | WriteNode(t: ThreadId, word: nat)
    | Rewrite(t: ThreadId, word: nat)
    | Return(t: ThreadId)
    | Abandon(t: ThreadId)
    | DeleteNode(t: ThreadId, id: nat)
    | LoadFreeHead(t: ThreadId)
    | LinkNext(t: ThreadId)
    | PushExchange(t: ThreadId)

  function Init(cap: nat): State {
    State(Head(NO_ID, 0), 0, seq(cap, _ => 0), {}, map[], [], 0, seq(cap, _ => Never))
  }

  function PcOf(s: State, t: ThreadId): Pc {
    if t in s.threads then s.threads[t] else Idle
  }

  function Goto(s: State, t: ThreadId, pc: Pc): State {
    s.(threads := s.threads[t := pc])
  }

  // Another exchange went through while this one was being prepared.
  function Aged(pc: Pc): Pc {
    match pc
    case PopLoaded(cur, moves) => PopLoaded(cur, moves + 1)
    case PopLinked(cur, next, moves) => PopLinked(cur, next, moves + 1)
    case FreeLoaded(id, cur, moves) => FreeLoaded(id, cur, moves + 1)
    case FreeLinked(id, cur, moves) => FreeLinked(id, cur, moves + 1)
    case _ => pc
  }

  function Exchange(s: State, t: ThreadId, head: Head, pc: Pc): State {
    s.(head := head, threads := (map x | x in s.threads :: Aged(s.threads[x]))[t := pc])
  }

  function NextTag(tag: nat): nat {
    (tag + 1) % TAGS
  }

  function Rest(stack: seq<nat>): seq<nat> {
    if stack == [] then [] else stack[1..]
  }

  function Put<T>(cells: seq<T>, at: nat, value: T): seq<T> {
    if at < |cells| then cells[at := value] else cells
  }

  function Apply(s: State, step: Step): State {
    var t := step.t;
    var pc := PcOf(s, t);
    var cap := |s.places|;
    match step
    case StartAllocate(_) => if pc.Idle? then Goto(s, t, Allocating) else s
    case LoadHead(_) =>
      if !pc.Allocating? then s
      else if s.head.id == NO_ID then Goto(s, t, Empty)
      else if s.head.id >= cap then s.(head := Head(NO_ID, 0))
      else Goto(s, t, PopLoaded(s.head, 0))
    case LoadNext(_) =>
      if pc.PopLoaded? && pc.cur.id < |s.next| then Goto(s, t, PopLinked(pc.cur, s.next[pc.cur.id], pc.moves)) else s
    case PopExchange(_) =>
      if !pc.PopLinked? then s
      else if s.head == pc.cur then
        Exchange(s, t, Head(pc.next, NextTag(pc.cur.tag)), Owns(pc.cur.id)).(stack := Rest(s.stack),
          places := Put(s.places, pc.cur.id, HeldBy(t)))
      else Goto(s, t, Allocating)
    case FetchAdd(_) =>
      if !pc.Empty? then s
      else if s.hw >= cap then Goto(s, t, Overshot).(hw := s.hw + 1)
      else Goto(s, t, Owns(s.hw)).(hw := s.hw + 1, issued := s.issued + 1, places := Put(s.places, s.hw, HeldBy(t)))
    case Rollback(_) => if pc.Overshot? && s.hw > 0 then Goto(s, t, Idle).(hw := s.hw - 1) else s
    case WriteNode(_, word) => if pc.Owns? then Written(s, t, pc.id, word) else s
    // the last write of an insert, whatever has become of what its first one published
    case Rewrite(_, word) => if pc.Published? then Written(s, t, pc.id, word) else s
    case Return(_) => if pc.Published? then Goto(s, t, Idle) else s
    case Abandon(_) => if pc.Owns? then Goto(s, t, Freeing(pc.id)) else s
    // of any node by an idle caller, or of its own by an insert that gives up
    case DeleteNode(_, id) =>
      if !(pc.Idle? || pc == Published(id)) then s
      else if id in s.live then
        Goto(s, t, Freeing(id)).(live := s.live - {id}, places := Put(s.places, id, HeldBy(t)))
      else Goto(s, t, Idle)
    case LoadFreeHead(_) => if pc.Freeing? then Goto(s, t, FreeLoaded(pc.id, s.head, 0)) else s
    case LinkNext(_) =>
      if pc.FreeLoaded? then Goto(s, t, FreeLinked(pc.id, pc.cur, pc.moves)).(next := Put(s.next, pc.id, pc.cur.id))
        else s
    case PushExchange(_) =>
      if !pc.FreeLinked? then s
      else if s.head == pc.cur then
        Exchange(s, t, Head(pc.id, NextTag(pc.cur.tag)), Idle).(stack := [pc.id] + s.stack,
          places := Put(s.places, pc.id, Free))
      else Goto(s, t, Freeing(pc.id))
  }

  // A slot is written whole, the field the links lie over included.
  function Written(s: State, t: ThreadId, id: nat, word: nat): State {
    Goto(s, t, Published(id)).(live := s.live + {id}, next := Put(s.next, id, word), places := Put(s.places, id, Live))
  }

  // No delete lands on the slot of an insert still under way.
  ghost predicate SparesInserts(s: State, step: Step) {
    step.DeleteNode? && (PcOf(s, step.t).Idle? || PcOf(s, step.t) == Published(step.id)) && step.id in s.live ==>
      forall u: ThreadId :: u != step.t ==> PcOf(s, u) != Published(step.id)
  }

  // ---- Invariant ----

  predicate Attempting(pc: Pc) {
    pc.PopLoaded? || pc.PopLinked? || pc.FreeLoaded? || pc.FreeLinked?
  }

  predicate Holds(pc: Pc, id: nat) {
    (pc.Owns? || pc.Freeing? || pc.FreeLoaded? || pc.FreeLinked?) && pc.id == id
  }

  function Top(stack: seq<nat>): nat {
    if stack == [] then NO_ID else stack[0]
  }

  // The links spell out the stack: from the head, each id once, to the end mark.
  ghost predicate StackOk(s: State) {
    && s.head.id == Top(s.stack) && s.head.tag < TAGS
    && NoDup(s.stack)
    && (forall i :: 0 <= i < |s.stack| ==> s.stack[i] < |s.next| && s.next[s.stack[i]] == Top(s.stack[i + 1..]))
  }

  // Each place an id can be in, and the structure that place stands for.
  ghost predicate PlaceOk(s: State, id: nat)
    requires id < |s.places|
  {
    && (s.places[id].Never? <==> id >= s.issued)
    && (s.places[id].Live? <==> id in s.live)
    && (s.places[id].Free? <==> id in s.stack)
    && (forall t: ThreadId :: s.places[id] == HeldBy(t) <==> Holds(PcOf(s, t), id))
  }

  ghost predicate PlacesOk(s: State) {
    && |s.next| == |s.places| <= NO_ID
    && (forall id :: 0 <= id < |s.places| ==> PlaceOk(s, id))
    && (forall id :: id in s.live ==> id < |s.places|)
    && (forall id :: id in s.stack ==> id < |s.places|)
    && (forall t: ThreadId, id: nat :: Holds(PcOf(s, t), id) ==> id < |s.places|)
  }

  ghost function Overshoots(s: State): set<ThreadId> {
    set t | t in s.threads && s.threads[t].Overshot?
  }

  // The counter is what was issued plus the overshoots still to be rolled back, of which there are none before the mark
  // is full.
  ghost predicate CounterOk(s: State) {
    && s.issued <= |s.places|
    && s.hw == s.issued + |Overshoots(s)|
    && (Overshoots(s) != {} ==> s.issued == |s.places|)
  }

  // A prepared exchange, when nothing moved meanwhile, matches the stack; else its tag is that far behind.
  ghost predicate AttemptOk(s: State, t: ThreadId) {
    var pc := PcOf(s, t);
    Attempting(pc) ==>
      && pc.cur.tag < TAGS && s.head.tag == (pc.cur.tag + pc.moves) % TAGS
      && (pc.moves == 0 ==> s.head == pc.cur)
      && (pc.PopLoaded? || pc.PopLinked? ==> pc.cur.id < |s.next|)
      && (pc.PopLinked? && pc.moves == 0 ==> pc.next == s.next[pc.cur.id])
      && (pc.FreeLinked? ==> pc.id < |s.next| && s.next[pc.id] == pc.cur.id)
  }

  ghost predicate Inv(s: State) {
    StackOk(s) && PlacesOk(s) && CounterOk(s) && forall t: ThreadId :: AttemptOk(s, t)
  }

  // What an insert under way has published is there.
  ghost predicate PublishedOk(s: State) {
    forall t: ThreadId :: PcOf(s, t).Published? ==> PcOf(s, t).id in s.live
  }

  // No attempt outlives a full turn of the 32-bit tag.
  ghost predicate NoWrap(s: State) {
    forall t: ThreadId :: Attempting(PcOf(s, t)) ==> PcOf(s, t).moves < 0x1_0000_0000
  }

  // ---- Each step keeps it ----

  // Within a turn of the tag, an exchange that still matches the head had nothing move under it.
  lemma MatchMeansStill(s: State, t: ThreadId)
    requires Inv(s) && NoWrap(s) && Attempting(PcOf(s, t)) && s.head == PcOf(s, t).cur
    ensures PcOf(s, t).moves == 0
  {
    assert AttemptOk(s, t);
  }

  // Threads hold, and overshoot, as before.
  ghost predicate SameHolds(s: State, s': State, but: nat) {
    forall t: ThreadId, id: nat :: id != but ==> (Holds(PcOf(s', t), id) <==> Holds(PcOf(s, t), id))
  }

  // At most one id moved.
  lemma PlacesMove(s: State, s': State, id: nat, place: Place)
    requires PlacesOk(s) && |s'.next| == |s.next|
    requires s'.places == Put(s.places, id, place) && id < |s.places|
    requires forall x: nat :: x != id ==> (x in s'.live <==> x in s.live) && (x in s'.stack <==> x in s.stack)
    requires s'.issued == s.issued || (id == s.issued && s'.issued == id + 1)
    requires SameHolds(s, s', id)
    requires PlaceOk(s', id)
    ensures PlacesOk(s')
  {
    forall x | 0 <= x < |s'.places| ensures PlaceOk(s', x) {
      assert PlaceOk(s, x);
    }
  }

  lemma PlacesStay(s: State, s': State)
    requires PlacesOk(s) && |s'.next| == |s.next| && s'.places == s.places
    requires s'.live == s.live && s'.stack == s.stack && s'.issued == s.issued
    requires forall t: ThreadId, id: nat :: Holds(PcOf(s', t), id) <==> Holds(PcOf(s, t), id)
    ensures PlacesOk(s')
  {
    forall x | 0 <= x < |s'.places| ensures PlaceOk(s', x) {
      assert PlaceOk(s, x);
    }
  }

  lemma CounterStays(s: State, s': State)
    requires CounterOk(s) && s'.hw == s.hw && s'.issued == s.issued && |s'.places| == |s.places|
    requires forall t: ThreadId :: PcOf(s', t).Overshot? <==> PcOf(s, t).Overshot?
    ensures CounterOk(s')
  {
    forall t: ThreadId ensures t in Overshoots(s') <==> t in Overshoots(s) {
      assert PcOf(s', t).Overshot? <==> PcOf(s, t).Overshot?;
    }
    assert Overshoots(s') == Overshoots(s);
  }

  // Other threads' attempts survive a change of links that are none of theirs.
  lemma AttemptStays(s: State, s': State, t: ThreadId)
    requires AttemptOk(s, t) && PcOf(s', t) == PcOf(s, t) && s'.head == s.head && |s'.next| == |s.next|
    requires PcOf(s, t).FreeLinked? ==> PcOf(s, t).id < |s.next| && s'.next[PcOf(s, t).id] == s.next[PcOf(s, t).id]
    requires PcOf(s, t).PopLinked? && s.head == PcOf(s, t).cur && s.head.id < |s.next| ==>
               s'.next[s.head.id] == s.next[s.head.id]
    ensures AttemptOk(s', t)
  {
  }

  lemma AttemptAges(s: State, s': State, t: ThreadId)
    requires AttemptOk(s, t) && PcOf(s', t) == Aged(PcOf(s, t)) && s'.next == s.next
    requires s.head.tag < TAGS && s'.head.tag == NextTag(s.head.tag)
    ensures AttemptOk(s', t)
  {
    var pc := PcOf(s, t);
    if Attempting(pc) {
      assert (pc.cur.tag + (pc.moves + 1)) % TAGS == NextTag(s.head.tag);
    }
  }

  // A move of one thread that changes nothing shared and nothing it holds.
  lemma LocalMove(s: State, t: ThreadId, pc: Pc)
    requires Inv(s) && AttemptOk(Goto(s, t, pc), t)
    requires forall id: nat :: Holds(pc, id) <==> Holds(PcOf(s, t), id)
    requires pc.Overshot? <==> PcOf(s, t).Overshot?
    ensures Inv(Goto(s, t, pc))
  {
    var s' := Goto(s, t, pc);
    assert StackOk(s');
    hide StackOk, PlacesOk, CounterOk;
    assert PlacesOk(s') by { PlacesStay(s, s'); }
    assert CounterOk(s') by { CounterStays(s, s'); }
    forall x: ThreadId ensures AttemptOk(s', x) {
      if x != t {
        AttemptStays(s, s', x);
      }
    }
  }

  lemma LocalStep(s: State, step: Step)
    requires Inv(s)
    requires step.StartAllocate? || step.LoadHead? || step.LoadNext? || step.Return? || step.Abandon?
             || step.LoadFreeHead?
    ensures Inv(Apply(s, step))
  {
    var t := step.t;
    var s' := Apply(s, step);
    assert AttemptOk(s, t);
    assert step.LoadHead? ==> s.head.id == NO_ID || s.head.id < |s.places|;
    if s' != s {
      assert s' == Goto(s, t, PcOf(s', t));
      LocalMove(s, t, PcOf(s', t));
    }
  }

  // Popping takes the top off, whoever else was about to.
  lemma PopMove(s: State, t: ThreadId)
    requires Inv(s) && PcOf(s, t).PopLinked? && s.head == PcOf(s, t).cur && PcOf(s, t).moves == 0
    ensures Inv(Apply(s, PopExchange(t)))
  {
    var pc := PcOf(s, t);
    var s' := Apply(s, PopExchange(t));
    var id := pc.cur.id;
    assert AttemptOk(s, t);
    PopStack(s, s', pc.next);
    assert PlaceOk(s, id);
    assert PlaceOk(s', id);
    hide StackOk, PlacesOk, CounterOk, PlaceOk;
    PlacesMove(s, s', id, HeldBy(t));
    CounterStays(s, s');
    forall x: ThreadId ensures AttemptOk(s', x) {
      if x != t {
        AttemptAges(s, s', x);
      }
    }
  }

  lemma PopStack(s: State, s': State, next: nat)
    requires StackOk(s) && s.stack != [] && s'.next == s.next && s'.stack == s.stack[1..]
    requires next == s.next[s.stack[0]] && s'.head == Head(next, NextTag(s.head.tag))
    ensures StackOk(s')
    ensures forall x: nat :: x in s'.stack <==> x in s.stack && x != s.stack[0]
  {
    forall i | 0 <= i < |s'.stack| ensures s'.next[s'.stack[i]] == Top(s'.stack[i + 1..]) {
      assert s'.stack[i] == s.stack[i + 1] && s'.stack[i + 1..] == s.stack[i + 2..];
    }
    assert next == Top(s.stack[1..]);
  }

  lemma PopStep(s: State, step: Step)
    requires Inv(s) && NoWrap(s) && step.PopExchange?
    ensures Inv(Apply(s, step))
  {
    var t := step.t;
    var pc := PcOf(s, t);
    if pc.PopLinked? {
      if s.head == pc.cur {
        MatchMeansStill(s, t);
        PopMove(s, t);
      } else {
        LocalMove(s, t, Allocating);
      }
    }
  }

  lemma PushStack(s: State, s': State, id: nat)
    requires StackOk(s) && s'.next == s.next && s'.stack == [id] + s.stack && id !in s.stack && id < |s.next|
    requires s.next[id] == s.head.id && s'.head == Head(id, NextTag(s.head.tag))
    ensures StackOk(s')
    ensures forall x: nat :: x in s'.stack <==> x in s.stack || x == id
  {
    forall i | 0 <= i < |s'.stack| ensures s'.next[s'.stack[i]] == Top(s'.stack[i + 1..]) {
      assert i > 0 ==> s'.stack[i] == s.stack[i - 1] && s'.stack[i + 1..] == s.stack[i..];
      assert s'.stack[1..] == s.stack;
    }
  }

  lemma PushStep(s: State, step: Step)
    requires Inv(s) && NoWrap(s) && step.PushExchange?
    ensures Inv(Apply(s, step))
  {
    var t := step.t;
    var pc := PcOf(s, t);
    if pc.FreeLinked? {
      if s.head == pc.cur {
        MatchMeansStill(s, t);
        PushMove(s, t);
      } else {
        LocalMove(s, t, Freeing(pc.id));
      }
    }
  }

  lemma PushPlace(s: State, t: ThreadId)
    requires PlacesOk(s) && PcOf(s, t).FreeLinked? && s.head == PcOf(s, t).cur
    ensures var (s', id) := (Apply(s, PushExchange(t)), PcOf(s, t).id);
            id < |s'.places| && PlaceOk(s', id) && id !in s.stack
  {
    var id := PcOf(s, t).id;
    assert Holds(PcOf(s, t), id) && PlaceOk(s, id);
    hide PlacesOk;
    var s' := Apply(s, PushExchange(t));
    assert s'.places[id] == Free && s'.stack == [id] + s.stack;
    forall u: ThreadId ensures !Holds(PcOf(s', u), id) {
      assert Holds(PcOf(s, u), id) ==> u == t;
    }
  }

  lemma PushMove(s: State, t: ThreadId)
    requires Inv(s) && PcOf(s, t).FreeLinked? && s.head == PcOf(s, t).cur && PcOf(s, t).moves == 0
    ensures Inv(Apply(s, PushExchange(t)))
  {
    var pc := PcOf(s, t);
    var s' := Apply(s, PushExchange(t));
    assert AttemptOk(s, t);
    PushPlace(s, t);
    PushStack(s, s', pc.id);
    hide StackOk, PlacesOk, CounterOk, PlaceOk;
    PlacesMove(s, s', pc.id, Free);
    CounterStays(s, s');
    forall x: ThreadId ensures AttemptOk(s', x) {
      if x != t {
        AttemptAges(s, s', x);
      }
    }
  }

  // A link written by the id's own holder, or over a live node's field, is no link of the stack.
  lemma LinkOutside(s: State, s': State, id: nat, word: nat)
    requires Inv(s) && id < |s.next| && id !in s.stack
    requires s'.head == s.head && s'.stack == s.stack && s'.next == s.next[id := word]
    ensures StackOk(s')
    ensures forall t: ThreadId ::
            PcOf(s, t).FreeLinked? && PcOf(s, t).id != id && PcOf(s', t) == PcOf(s, t) ==> AttemptOk(s', t)
    ensures forall t: ThreadId :: !PcOf(s, t).FreeLinked? && PcOf(s', t) == PcOf(s, t) ==> AttemptOk(s', t)
  {
    forall t: ThreadId | PcOf(s', t) == PcOf(s, t) && (PcOf(s, t).FreeLinked? ==> PcOf(s, t).id != id)
      ensures AttemptOk(s', t) {
      assert AttemptOk(s, t);
      if PcOf(s, t).PopLinked? && s.head == PcOf(s, t).cur && s.head.id < |s.next| {
        assert s.stack != [] && s.stack[0] == s.head.id;
      }
    }
    assert StackOk(s') by {
      forall i | 0 <= i < |s'.stack| ensures s'.next[s'.stack[i]] == Top(s'.stack[i + 1..]) {
        assert s.stack[i] in s.stack;
      }
    }
  }

  // Nobody else holds an id that one thread holds or that is live.
  lemma SoleHolder(s: State, id: nat)
    requires PlacesOk(s) && id < |s.places|
    ensures forall t: ThreadId, u: ThreadId :: Holds(PcOf(s, t), id) && Holds(PcOf(s, u), id) ==> t == u
    ensures id in s.live ==> forall t: ThreadId :: !Holds(PcOf(s, t), id)
    ensures id in s.stack ==> id !in s.live && forall t: ThreadId :: !Holds(PcOf(s, t), id)
  {
    assert PlaceOk(s, id);
  }

  lemma OthersLink(s: State, id: nat)
    requires PlacesOk(s) && id < |s.places|
    ensures forall t: ThreadId, x: ThreadId ::
            Holds(PcOf(s, t), id) && x != t && PcOf(s, x).FreeLinked? ==> PcOf(s, x).id != id
    ensures id in s.live ==> forall x: ThreadId :: PcOf(s, x).FreeLinked? ==> PcOf(s, x).id != id
  {
    SoleHolder(s, id);
    forall x: ThreadId | PcOf(s, x).FreeLinked? ensures Holds(PcOf(s, x), PcOf(s, x).id) {
    }
  }

  lemma LinkNextStep(s: State, step: Step)
    requires Inv(s) && step.LinkNext?
    ensures Inv(Apply(s, step))
  {
    var t := step.t;
    var pc := PcOf(s, t);
    var s' := Apply(s, step);
    if pc.FreeLoaded? {
      assert Holds(pc, pc.id) && AttemptOk(s, t);
      OthersLink(s, pc.id);
      SoleHolder(s, pc.id);
      LinkOutside(s, s', pc.id, pc.cur.id);
      hide StackOk, PlacesOk, CounterOk;
      PlacesStay(s, s');
      CounterStays(s, s');
      forall x: ThreadId ensures AttemptOk(s', x) {
      }
    }
  }

  lemma RewriteStep(s: State, step: Step)
    requires Inv(s) && PublishedOk(s) && step.Rewrite?
    ensures Inv(Apply(s, step))
  {
    var pc := PcOf(s, step.t);
    var s' := Apply(s, step);
    if pc.Published? {
      OthersLink(s, pc.id);
      SoleHolder(s, pc.id);
      LinkOutside(s, s', pc.id, step.word);
      assert PlaceOk(s, pc.id);
      assert s'.live == s.live && s'.places == s.places;
      hide StackOk, PlacesOk, CounterOk;
      PlacesStay(s, s');
      CounterStays(s, s');
      forall x: ThreadId ensures AttemptOk(s', x) {
      }
    }
  }

  lemma WriteNodeStep(s: State, step: Step)
    requires Inv(s) && step.WriteNode?
    ensures Inv(Apply(s, step))
  {
    var t := step.t;
    var pc := PcOf(s, t);
    var s' := Apply(s, step);
    if pc.Owns? {
      assert Holds(pc, pc.id) && PlaceOk(s, pc.id);
      OthersLink(s, pc.id);
      SoleHolder(s, pc.id);
      LinkOutside(s, s', pc.id, step.word);
      assert PlaceOk(s', pc.id);
      hide StackOk, PlacesOk, CounterOk, PlaceOk;
      PlacesMove(s, s', pc.id, Live);
      CounterStays(s, s');
      forall x: ThreadId ensures AttemptOk(s', x) {
      }
    }
  }

  lemma DeleteStep(s: State, step: Step)
    requires Inv(s) && step.DeleteNode?
    ensures Inv(Apply(s, step))
  {
    var t := step.t;
    var s' := Apply(s, step);
    var pc := PcOf(s, t);
    if (pc.Idle? || pc == Published(step.id)) && step.id !in s.live {
      LocalMove(s, t, Idle);
    } else if pc.Idle? || pc == Published(step.id) {
      assert PlaceOk(s, step.id);
      assert PlaceOk(s', step.id);
      assert StackOk(s');
      hide StackOk, PlacesOk, CounterOk, PlaceOk;
      PlacesMove(s, s', step.id, HeldBy(t));
      CounterStays(s, s');
      forall x: ThreadId ensures AttemptOk(s', x) {
        if x != t {
          AttemptStays(s, s', x);
        }
      }
    }
  }

  lemma FetchAddStep(s: State, step: Step)
    requires Inv(s) && step.FetchAdd?
    ensures Inv(Apply(s, step))
  {
    var t := step.t;
    var s' := Apply(s, step);
    if PcOf(s, t).Empty? {
      assert StackOk(s');
      if s.hw >= |s.places| {
        assert Overshoots(s') == Overshoots(s) + {t};
        assert CounterOk(s');
        hide StackOk, PlacesOk, CounterOk;
        PlacesStay(s, s');
      } else {
        assert Overshoots(s) == {};
        assert s.hw == s.issued && PlaceOk(s, s.hw);
        assert Overshoots(s') == {};
        assert CounterOk(s');
        assert PlaceOk(s', s.hw);
        hide StackOk, PlacesOk, CounterOk, PlaceOk;
        PlacesMove(s, s', s.hw, HeldBy(t));
      }
      forall x: ThreadId ensures AttemptOk(s', x) {
        if x != t {
          AttemptStays(s, s', x);
        }
      }
    }
  }

  lemma RollbackStep(s: State, step: Step)
    requires Inv(s) && step.Rollback?
    ensures Inv(Apply(s, step))
  {
    var t := step.t;
    var s' := Apply(s, step);
    if PcOf(s, t).Overshot? && s.hw > 0 {
      assert Overshoots(s') == Overshoots(s) - {t};
      assert StackOk(s') && CounterOk(s');
      hide StackOk, PlacesOk, CounterOk;
      PlacesStay(s, s');
      forall x: ThreadId ensures AttemptOk(s', x) {
        if x != t {
          AttemptStays(s, s', x);
        }
      }
    }
  }

  lemma PublishedStep(s: State, step: Step)
    requires PublishedOk(s) && SparesInserts(s, step)
    ensures PublishedOk(Apply(s, step))
  {
    var s' := Apply(s, step);
    forall u: ThreadId | PcOf(s', u).Published? ensures PcOf(s', u).id in s'.live {
      if u != step.t {
        assert PcOf(s', u) == PcOf(s, u);
      }
    }
  }

  lemma InvStep(s: State, step: Step)
    requires Inv(s) && PublishedOk(s) && NoWrap(s)
    ensures Inv(Apply(s, step))
  {
    hide *;
    match step {
      case PopExchange(_) => PopStep(s, step);
      case FetchAdd(_) => FetchAddStep(s, step);
      case Rollback(_) => RollbackStep(s, step);
      case WriteNode(_, _) => WriteNodeStep(s, step);
      case DeleteNode(_, _) => DeleteStep(s, step);
      case LinkNext(_) => LinkNextStep(s, step);
      case PushExchange(_) => PushStep(s, step);
      case Rewrite(_, _) => RewriteStep(s, step);
      case Return(_) => LocalStep(s, step);
      case StartAllocate(_) => LocalStep(s, step);
      case LoadHead(_) => LocalStep(s, step);
      case LoadNext(_) => LocalStep(s, step);
      case Abandon(_) => LocalStep(s, step);
      case LoadFreeHead(_) => LocalStep(s, step);
    }
  }

  // ---- Runs ----

  function Run(s: State, steps: seq<Step>): State
    decreases |steps|
  {
    if steps == [] then s else Run(Apply(s, steps[0]), steps[1..])
  }

  ghost predicate CarefulRun(s: State, steps: seq<Step>)
    decreases |steps|
  {
    steps != [] ==> NoWrap(s) && SparesInserts(s, steps[0]) && CarefulRun(Apply(s, steps[0]), steps[1..])
  }

  lemma {:induction false} InvRun(s: State, steps: seq<Step>)
    requires Inv(s) && PublishedOk(s) && CarefulRun(s, steps)
    ensures Inv(Run(s, steps)) && PublishedOk(Run(s, steps))
    decreases |steps|
  {
    if steps != [] {
      InvStep(s, steps[0]);
      PublishedStep(s, steps[0]);
      InvRun(Apply(s, steps[0]), steps[1..]);
    }
  }

  ghost predicate Reachable(cap: nat, s: State) {
    exists steps :: CarefulRun(Init(cap), steps) && Run(Init(cap), steps) == s
  }

  lemma ReachableInv(cap: nat, s: State)
    requires Reachable(cap, s) && cap <= NO_ID
    ensures Inv(s) && PublishedOk(s) && |s.places| == cap
  {
    var steps :| CarefulRun(Init(cap), steps) && Run(Init(cap), steps) == s;
    assert Overshoots(Init(cap)) == {};
    InvRun(Init(cap), steps);
    CapStays(Init(cap), steps);
  }

  lemma {:induction false} CapStays(s: State, steps: seq<Step>)
    ensures |Run(s, steps).places| == |s.places|
    decreases |steps|
  {
    if steps != [] {
      CapStays(Apply(s, steps[0]), steps[1..]);
    }
  }

  // ---- What runs promise ----

  // An id is never handed out, held by one caller, live, or on the freelist: exactly one of these.
  lemma ExactlyOnePlace(cap: nat, s: State, id: nat)
    requires Reachable(cap, s) && id < cap <= NO_ID
    ensures One(id >= s.issued) + One(id in s.live) + One(id in s.stack) + One(exists t: ThreadId ::
            Holds(PcOf(s, t), id)) == 1
    ensures forall t: ThreadId, u: ThreadId :: Holds(PcOf(s, t), id) && Holds(PcOf(s, u), id) ==> t == u
  {
    ReachableInv(cap, s);
    assert PlaceOk(s, id);
    hide Reachable;
    if s.places[id].HeldBy? {
      assert Holds(PcOf(s, s.places[id].t), id);
    }
  }

  function One(flag: bool): nat {
    if flag then 1 else 0
  }

  // The id n links below the head.
  function Follow(next: seq<nat>, from: nat, n: nat): nat {
    if n == 0 then from
    else
      var before := Follow(next, from, n - 1);
      if before < |next| then next[before] else NO_ID
  }

  lemma {:induction false} FollowIsStack(s: State, n: nat)
    requires StackOk(s) && |s.next| <= NO_ID && n <= |s.stack|
    ensures Follow(s.next, s.head.id, n) == Top(s.stack[n..])
  {
    if n > 0 {
      FollowIsStack(s, n - 1);
      assert s.next[s.stack[n - 1]] == Top(s.stack[n - 1 + 1..]);
    } else {
      assert s.stack[0..] == s.stack;
    }
  }

  // Following the links from the head passes ids in range, none twice, and reaches the end mark.
  lemma FreelistAcyclic(cap: nat, s: State)
    requires Reachable(cap, s) && cap <= NO_ID
    ensures Follow(s.next, s.head.id, |s.stack|) == NO_ID
    ensures forall n: nat :: n < |s.stack| ==> Follow(s.next, s.head.id, n) < cap
    ensures forall n: nat, k: nat :: n < k <= |s.stack| ==> Follow(s.next, s.head.id, n) != Follow(s.next, s.head.id, k)
  {
    ReachableInv(cap, s);
    hide Reachable;
    forall n: nat | n <= |s.stack| ensures Follow(s.next, s.head.id, n) == if n < |s.stack| then s.stack[n] else NO_ID {
      FollowIsStack(s, n);
    }
    forall n: nat | n < |s.stack| ensures s.stack[n] < cap {
      assert s.stack[n] in s.stack;
    }
    assert NoDup(s.stack);
    forall n: nat, k: nat | n < k <= |s.stack| ensures Follow(s.next, s.head.id, n) != Follow(s.next, s.head.id, k) {
      assert k < |s.stack| ==> s.stack[n] != s.stack[k];
    }
  }

  // An exchange built from a link that is no longer the top's own fails, and changes nothing shared.
  lemma StaleExchangeFails(cap: nat, s: State, t: ThreadId)
    requires Reachable(cap, s) && cap <= NO_ID && NoWrap(s) && PcOf(s, t).PopLinked?
    requires PcOf(s, t).cur.id < |s.next| && PcOf(s, t).next != s.next[PcOf(s, t).cur.id]
    ensures Apply(s, PopExchange(t)) == Goto(s, t, Allocating)
  {
    ReachableInv(cap, s);
    hide Reachable;
    assert AttemptOk(s, t);
    if s.head == PcOf(s, t).cur {
      MatchMeansStill(s, t);
    }
  }

  // A pop that succeeds takes an id nobody else has, and the bump counter only issues ids never issued before.
  lemma AllocationIsExclusive(cap: nat, s: State, step: Step)
    requires Reachable(cap, s) && cap <= NO_ID && NoWrap(s)
    requires step.PopExchange? || step.FetchAdd?
    requires PcOf(Apply(s, step), step.t).Owns?
    requires !PcOf(s, step.t).Owns?
    ensures var id := PcOf(Apply(s, step), step.t).id;
            && id < cap && id !in s.live && (forall u: ThreadId :: !Holds(PcOf(s, u), id))
            && (step.PopExchange? ==> id in s.stack) && (step.FetchAdd? ==> id == s.issued)
  {
    ReachableInv(cap, s);
    hide Reachable;
    var t := step.t;
    assert AttemptOk(s, t);
    if step.PopExchange? {
      MatchMeansStill(s, t);
      assert s.stack != [] && s.stack[0] == s.head.id;
      assert PlaceOk(s, s.head.id);
    } else {
      assert Overshoots(s) == {};
      assert PlaceOk(s, s.hw);
    }
  }

  // A caller told the plane is full came when every id had been issued.
  lemma FullMeansAllIssued(cap: nat, s: State, t: ThreadId)
    requires Reachable(cap, s) && cap <= NO_ID && PcOf(s, t).Overshot?
    ensures s.issued == cap
  {
    ReachableInv(cap, s);
    assert t in Overshoots(s);
  }

  // ---- The condition on deletes is exact, and needed ----

  // A delete runs to its end with nothing in between.
  function Deleted(s: State, t: ThreadId, id: nat): State {
    Apply(Apply(Apply(Apply(s, DeleteNode(t, id)), LoadFreeHead(t)), LinkNext(t)), PushExchange(t))
  }

  lemma DeletedFrees(s: State, t: ThreadId, id: nat)
    requires Inv(s) && (PcOf(s, t).Idle? || PcOf(s, t) == Published(id)) && id in s.live
    ensures var s' := Deleted(s, t, id);
            && s'.live == s.live - {id} && s'.stack == [id] + s.stack && s'.head.id == id
            && |s'.next| == |s.next| && |s'.places| == |s.places|
            && forall u: ThreadId :: u != t ==> PcOf(s', u) == Aged(PcOf(s, u))
  {
  }

  lemma RewriteLands(s: State, u: ThreadId, word: nat)
    ensures var (pc, s') := (PcOf(s, u), Apply(s, Rewrite(u, word)));
            && s'.stack == s.stack && s'.live == (if pc.Published? then s.live + {pc.id} else s.live)
            && s'.head == s.head && s'.places == (if pc.Published? then Put(s.places, pc.id, Live) else s.places)
            && s'.next == (if pc.Published? then Put(s.next, pc.id, word) else s.next)
            && forall x: ThreadId :: x != u ==> PcOf(s', x) == PcOf(s, x)
  {
  }

  ghost predicate FreeYetLive(s: State, id: nat) {
    id in s.live && id in s.stack
  }

  lemma Revives(s: State, id: nat, u: ThreadId, word: nat)
    requires id !in s.live && id in s.stack
    ensures FreeYetLive(Apply(s, Rewrite(u, word)), id) <==> PcOf(s, u) == Published(id)
  {
    RewriteLands(s, u, word);
    hide Apply;
  }

  lemma RewriteRevives(s: State, t: ThreadId, id: nat, u: ThreadId, word: nat)
    requires Inv(s) && (PcOf(s, t).Idle? || PcOf(s, t) == Published(id)) && id in s.live && u != t
    ensures FreeYetLive(Apply(Deleted(s, t, id), Rewrite(u, word)), id) <==> PcOf(s, u) == Published(id)
  {
    DeletedFrees(s, t, id);
    hide Inv, Deleted, Apply;
    var s0 := Deleted(s, t, id);
    assert PcOf(s0, u) == Aged(PcOf(s, u)) && id in s0.stack;
    Revives(s0, id, u, word);
    hide PcOf, FreeYetLive;
  }

  // A delete lands clear of every insert under way just when no insert's last write can then make the freed id live.
  lemma SparingIsExact(cap: nat, s: State, t: ThreadId, id: nat)
    requires Reachable(cap, s) && cap <= NO_ID
    requires (PcOf(s, t).Idle? || PcOf(s, t) == Published(id)) && id in s.live
    ensures SparesInserts(s, DeleteNode(t, id)) <==> forall u: ThreadId, word: nat ::
              u != t ==> !FreeYetLive(Apply(Deleted(s, t, id), Rewrite(u, word)), id)
  {
    ReachableInv(cap, s);
    hide Inv, PublishedOk, Reachable, Deleted, Apply, FreeYetLive, PcOf;
    forall u: ThreadId, word: nat | u != t
      ensures FreeYetLive(Apply(Deleted(s, t, id), Rewrite(u, word)), id) <==> PcOf(s, u) == Published(id) {
      RewriteRevives(s, t, id, u, word);
    }
    if u: ThreadId :| u != t && PcOf(s, u) == Published(id) {
      assert FreeYetLive(Apply(Deleted(s, t, id), Rewrite(u, 0)), id);
    }
  }

  // The next allocation of an idle thread, with nothing in between.
  function Allocated(s: State, t: ThreadId): State {
    Apply(Apply(Apply(Apply(s, StartAllocate(t)), LoadHead(t)), LoadNext(t)), PopExchange(t))
  }

  lemma PopsTop(s: State, t: ThreadId)
    requires PcOf(s, t).Idle? && s.head.id < |s.next| && s.head.id < |s.places| && s.head.id != NO_ID
    ensures var s' := Allocated(s, t);
            Holds(PcOf(s', t), s.head.id) && s'.live == s.live && s'.head.id == s.next[s.head.id]
  {
  }

  lemma FindsNone(s: State, t: ThreadId)
    requires PcOf(s, t).Idle? && s.head.id == NO_ID
    ensures Apply(s, StartAllocate(t)) == Goto(s, t, Allocating)
    ensures Apply(Goto(s, t, Allocating), LoadHead(t)) == Goto(s, t, Empty)
  {
    assert Goto(Goto(s, t, Allocating), t, Empty) == Goto(s, t, Empty);
  }

  lemma TakesNew(s: State, t: ThreadId)
    requires PcOf(s, t).Empty? && s.hw < |s.places|
    ensures Apply(s, FetchAdd(t)) ==
            Goto(s, t, Owns(s.hw)).(hw := s.hw + 1, issued := s.issued + 1, places := Put(s.places, s.hw, HeldBy(t)))
  {
  }

  lemma Writes(s: State, t: ThreadId, word: nat)
    requires PcOf(s, t).Owns?
    ensures Apply(s, WriteNode(t, word)) == Written(s, t, PcOf(s, t).id, word)
  {
  }

  const BLANK: State := State(Head(NO_ID, 0), 0, [0], {}, map[], [], 0, [Never])

  lemma NodeTaken() returns (s: State)
    ensures s == Apply(Apply(Apply(BLANK, StartAllocate(1)), LoadHead(1)), FetchAdd(1))
    ensures s == State(Head(NO_ID, 0), 1, [0], {}, map[1 := Owns(0)], [], 1, [HeldBy(1)])
    ensures NoWrap(BLANK) && NoWrap(Apply(BLANK, StartAllocate(1)))
    ensures NoWrap(Apply(Apply(BLANK, StartAllocate(1)), LoadHead(1)))
  {
    FindsNone(BLANK, 1);
    TakesNew(Goto(BLANK, 1, Empty), 1);
    s := Apply(Goto(BLANK, 1, Empty), FetchAdd(1));
    hide Apply;
    assert s == State(Head(NO_ID, 0), 1, [0], {}, map[1 := Owns(0)], [], 1, [HeldBy(1)]);
  }

  // Thread 1 has published node 0 and not returned.
  lemma NodeUnderWay() returns (s: State)
    ensures Reachable(1, s) && s == State(Head(NO_ID, 0), 1, [7], {0}, map[1 := Published(0)], [], 1, [Live])
  {
    assert Init(1) == BLANK;
    hide Apply, Init;
    var s3 := NodeTaken();
    Writes(s3, 1, 7);
    s := Apply(s3, WriteNode(1, 7));
    assert s == State(Head(NO_ID, 0), 1, [7], {0}, map[1 := Published(0)], [], 1, [Live]);
    assert NoWrap(s3);
    hide NoWrap;
    RunsFour(BLANK, StartAllocate(1), LoadHead(1), FetchAdd(1), WriteNode(1, 7));
  }

  lemma RunsFour(s: State, a: Step, b: Step, c: Step, d: Step)
    requires var (s1, s2) := (Apply(s, a), Apply(Apply(s, a), b));
             NoWrap(s) && NoWrap(s1) && NoWrap(s2) && NoWrap(Apply(s2, c))
    requires !a.DeleteNode? && !b.DeleteNode? && !c.DeleteNode? && !d.DeleteNode?
    ensures CarefulRun(s, [a, b, c, d]) && Run(s, [a, b, c, d]) == Apply(Apply(Apply(Apply(s, a), b), c), d)
  {
    var s1 := Apply(s, a);
    var s2 := Apply(s1, b);
    var s3 := Apply(s2, c);
    hide Apply, NoWrap;
    assert [a, b, c, d][1..] == [b, c, d] && [b, c, d][1..] == [c, d] && [c, d][1..] == [d];
    assert CarefulRun(s3, [d]) && Run(s3, [d]) == Apply(s3, d);
    assert CarefulRun(s2, [c, d]) && Run(s2, [c, d]) == Run(s3, [d]);
    assert CarefulRun(s1, [b, c, d]) && Run(s1, [b, c, d]) == Run(s2, [c, d]);
  }

  // It happens: node 0 is deleted by thread 2, thread 1's last write makes it live again, and then its id is handed to
  // thread 3, with whatever was written over the link as the new head.
  lemma LiveIdHandedOut(word: nat) returns (s: State)
    ensures Reachable(1, s) && !SparesInserts(s, DeleteNode(2, 0))
    ensures var s1 := Allocated(Apply(Deleted(s, 2, 0), Rewrite(1, word)), 3);
            0 in s1.live && Holds(PcOf(s1, 3), 0) && s1.head.id == word
  {
    s := NodeUnderWay();
    hide Deleted, Apply, Allocated;
    assert PcOf(s, 1) == Published(0);
    ReachableInv(1, s);
    hide Reachable;
    DeletedFrees(s, 2, 0);
    hide Inv;
    var s0 := Deleted(s, 2, 0);
    assert PcOf(s0, 1) == Published(0) && PcOf(s0, 3) == Idle;
    RewriteLands(s0, 1, word);
    PopsTop(Apply(s0, Rewrite(1, word)), 3);
  }
}
