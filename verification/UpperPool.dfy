/** The pool of upper entries (format.rs): a freelist threaded through the entries themselves. A free entry's link to
    the next one lies in the word that holds the degree of its level-1 list. Each call of the allocator is one step. */
module UpperPool {
  import opened Core

  const NO_UPPER: nat := 0xFFFF_FFFF
  const HALF: nat := 0x1_0000

  // `words[e]` is the word of entry e at U_LISTS: the low half is a degree, the whole a link while the entry is free.
  datatype Pool = Pool(head: nat, words: seq<nat>, issued: nat)

  function Degree(word: nat): nat {
    word % HALF
  }

  // A degree is stored over the low half only.
  function SetDegree(word: nat, degree: nat): nat {
    word / HALF * HALF + degree
  }

  lemma SetDegreeReads(word: nat, degree: nat)
    requires degree < HALF
    ensures Degree(SetDegree(word, degree)) == degree
    ensures SetDegree(word, degree) % 0x1_0000 == degree && SetDegree(word, degree) / 0x1_0000 == word / 0x1_0000
  {
  }

  function Bump(p: Pool): (Pool, Option<nat>) {
    if p.issued < |p.words| then (p.(issued := p.issued + 1), Some(p.issued)) else (p, None)
  }

  // allocate_upper: the head, whose word is the next head; a head out of range drops the chain.
  function Pop(p: Pool): (Pool, Option<nat>) {
    if p.head < |p.words| then (p.(head := p.words[p.head]), Some(p.head)) else Bump(p.(head := NO_UPPER))
  }

  // free_upper
  function Push(p: Pool, e: nat): Pool {
    if e < |p.words| then p.(head := e, words := p.words[e := p.head]) else p
  }

  // A level-1 list of the entry is stored.
  function Store(p: Pool, e: nat, degree: nat): Pool {
    if e < |p.words| then p.(words := p.words[e := SetDegree(p.words[e], degree)]) else p
  }

  function FirstOf(stack: seq<nat>): nat {
    if stack == [] then NO_UPPER else stack[0]
  }

  function Rest(stack: seq<nat>): seq<nat> {
    if stack == [] then [] else stack[1..]
  }

  // The links spell out the stack: issued entries, none twice, each word naming the next.
  ghost predicate Chain(p: Pool, stack: seq<nat>) {
    && p.issued <= |p.words| && |p.words| <= NO_UPPER && NoDup(stack) && p.head == FirstOf(stack)
    && forall i :: 0 <= i < |stack| ==> stack[i] < p.issued && p.words[stack[i]] == FirstOf(stack[i + 1..])
  }

  // A pop takes the top of the stack, or with nothing free the next entry never issued.
  lemma PopTakes(p: Pool, stack: seq<nat>)
    requires Chain(p, stack)
    ensures var (q, r) := Pop(p);
            && q.words == p.words && Chain(q, Rest(stack))
            && (stack != [] ==> r == Some(stack[0]) && q.issued == p.issued)
            && (stack == [] ==>
                  && r == (if p.issued < |p.words| then Some(p.issued) else None)
                  && q.issued == if p.issued < |p.words| then p.issued + 1 else p.issued)
  {
    if stack != [] {
      var rest := stack[1..];
      assert stack[0 + 1..] == rest;
      forall i | 0 <= i < |rest| ensures rest[i] < p.issued && p.words[rest[i]] == FirstOf(rest[i + 1..]) {
        assert rest[i] == stack[i + 1] && rest[i + 1..] == stack[i + 1 + 1..];
      }
    }
  }

  lemma RestMembers(stack: seq<nat>)
    requires NoDup(stack) && stack != []
    ensures forall e :: e in stack <==> e == stack[0] || e in Rest(stack)
    ensures stack[0] !in Rest(stack)
  {
    assert stack == [stack[0]] + Rest(stack);
  }

  lemma PushPuts(p: Pool, stack: seq<nat>, e: nat)
    requires Chain(p, stack) && e < p.issued && e !in stack
    ensures Chain(Push(p, e), [e] + stack)
  {
    var more, q := [e] + stack, Push(p, e);
    forall i | 0 <= i < |more| ensures more[i] < q.issued && q.words[more[i]] == FirstOf(more[i + 1..]) {
      if i == 0 {
        assert more[1..] == stack;
      } else {
        assert more[i] == stack[i - 1] && more[i + 1..] == stack[i - 1 + 1..];
      }
    }
  }

  // A degree stored in an entry in use changes no link.
  lemma StoreOutside(p: Pool, stack: seq<nat>, e: nat, degree: nat)
    requires Chain(p, stack) && e !in stack
    ensures Chain(Store(p, e, degree), stack)
  {
  }

  // Stored in a free entry, some degree always changes the link.
  lemma SomeDegreeShows(word: nat) returns (degree: nat)
    ensures degree <= 1 && SetDegree(word, degree) != word
  {
    degree := if Degree(word) == 0 then 1 else 0;
    SetDegreeReads(word, degree);
  }
}
