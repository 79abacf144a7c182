/** Bits of one 64-bit word of the visited bitmap. */
module Bits {

  // 1u64 << k, as k doublings.
  function Mask(k: nat): bv64
    requires k < 64
  {
    if k == 0 then 1 else Mask(k - 1) << 1
  }

  predicate Has(w: bv64, mask: bv64) {
    w & mask != 0
  }

  function With(w: bv64, mask: bv64): bv64 {
    w | mask
  }

  lemma ShiftDisjoint(a: bv64, b: bv64)
    ensures a & b == 0 ==> (a << 1) & (b << 1) == 0
    ensures 1 & (b << 1) == 0 && (a << 1) & 1 == 0
  {
  }

  lemma {:induction false} MasksDisjoint(j: nat, k: nat)
    requires j < 64 && k < 64 && j != k
    ensures Mask(j) & Mask(k) == 0
  {
    if j > 0 && k > 0 {
      MasksDisjoint(j - 1, k - 1);
      ShiftDisjoint(Mask(j - 1), Mask(k - 1));
    } else if j == 0 {
      ShiftDisjoint(0, Mask(k - 1));
    } else {
      ShiftDisjoint(Mask(j - 1), 0);
    }
  }

  lemma DoubleNonzero(m: bv64)
    ensures m << 1 != 0 ==> m != 0
  {
  }

  lemma TopMask()
    ensures Mask(63) == 0x8000_0000_0000_0000
  {
    assert Mask(8) == 0x100;
    assert Mask(16) == 0x1_0000;
    assert Mask(24) == 0x100_0000;
    assert Mask(32) == 0x1_0000_0000;
    assert Mask(40) == 0x100_0000_0000;
    assert Mask(48) == 0x1_0000_0000_0000;
    assert Mask(56) == 0x100_0000_0000_0000;
  }

  lemma {:induction false} MaskNonzero(k: nat)
    requires k < 64
    ensures Mask(k) != 0
    decreases 64 - k
  {
    if k == 63 {
      TopMask();
    } else {
      MaskNonzero(k + 1);
      DoubleNonzero(Mask(k));
    }
  }

  lemma HasOther(w: bv64, a: bv64, b: bv64)
    requires a & b == 0
    ensures Has(With(w, b), a) <==> Has(w, a)
  {
  }

  lemma HasSame(w: bv64, a: bv64)
    requires a != 0
    ensures Has(With(w, a), a)
  {
  }

  lemma ZeroHasNothing(mask: bv64)
    ensures !Has(0, mask)
  {
  }

  // Or-ing one bit in changes exactly that bit.
  lemma SetBit(w: bv64, j: nat, k: nat)
    requires j < 64 && k < 64
    ensures Has(With(w, Mask(k)), Mask(j)) <==> Has(w, Mask(j)) || j == k
  {
    hide Mask, Has, With;
    if j == k {
      MaskNonzero(k);
      HasSame(w, Mask(k));
    } else {
      MasksDisjoint(j, k);
      HasOther(w, Mask(j), Mask(k));
    }
  }
}

/** The per-thread visited set: a bitmap plus a bounded journal of the words a sweep set. */
module Scratch {
  import opened Core
  import opened Bits

  const TOUCHED_CAP: nat := 0x1_0000
  const GROW_SLACK_WORDS: nat := 1024

  ghost function Members(words: seq<bv64>): set<Id> {
    set id: Id | id < 64 * |words| && Has(words[id / 64], Mask(id % 64))
  }

  lemma MemberIff(words: seq<bv64>, id: Id)
    ensures id in Members(words) <==> id / 64 < |words| && Has(words[id / 64], Mask(id % 64))
  {
    hide Mask, Has;
  }

  lemma ZerosAreEmpty(words: seq<bv64>)
    requires forall w :: 0 <= w < |words| ==> words[w] == 0
    ensures Members(words) == {}
  {
    hide Mask, Has;
    forall id: Id | id < 64 * |words| ensures !Has(words[id / 64], Mask(id % 64)) {
      ZeroHasNothing(Mask(id % 64));
    }
  }

  // Appending zero words adds no member.
  lemma GrowKeepsMembers(words: seq<bv64>, more: seq<bv64>)
    requires forall w :: 0 <= w < |more| ==> more[w] == 0
    ensures Members(words + more) == Members(words)
  {
    hide Mask, Has;
    forall id: Id ensures id in Members(words + more) <==> id in Members(words) {
      MemberIff(words + more, id);
      MemberIff(words, id);
      if |words| <= id / 64 < |words + more| {
        assert (words + more)[id / 64] == more[id / 64 - |words|];
        ZeroHasNothing(Mask(id % 64));
      }
    }
  }

  // Setting the bit of `id` adds exactly `id`.
  lemma SetBitAddsMember(words: seq<bv64>, id: Id)
    requires id / 64 < |words|
    ensures Members(words[id / 64 := With(words[id / 64], Mask(id % 64))]) == Members(words) + {id}
  {
    hide Mask, Has, With;
    var after := words[id / 64 := With(words[id / 64], Mask(id % 64))];
    forall x: Id ensures x in Members(after) <==> x in Members(words) || x == id {
      MemberIff(after, x);
      MemberIff(words, x);
      if x / 64 == id / 64 {
        SetBit(words[id / 64], x % 64, id % 64);
      }
    }
  }

  // A visit past the bitmap grows it by the slack, measured from the id itself.
  function WordsAfterVisit(words: nat, id: Id): nat {
    if id / 64 < words then words else id / 64 + GROW_SLACK_WORDS
  }

  class SearchScratch {
    var visited: seq<bv64>
    var touched: seq<nat>
    var touchedOverflow: bool
    var capacity: nat

    // Without an overflow the journal names every nonzero word.
    ghost predicate Valid()
      reads this
    {
      && |touched| <= TOUCHED_CAP
      && (forall i :: 0 <= i < |touched| ==> touched[i] < |visited|)
      && (!touchedOverflow ==> forall w :: 0 <= w < |visited| && visited[w] != 0 ==> w in touched)
    }

    ghost function Contents(): set<Id>
      reads this
    {
      Members(visited)
    }

    constructor ()
      ensures Valid() && Contents() == {}
    {
      visited, touched, touchedOverflow, capacity := [], [], false, 0;
      new;
      ZerosAreEmpty(visited);
    }

    method Begin(capacity: nat)
      requires Valid()
      modifies this
      ensures Valid() && Contents() == {}
      ensures touched == [] && !touchedOverflow
      ensures this.capacity == capacity
      ensures |visited| == if old(|visited|) < (capacity + 63) / 64 then (capacity + 63) / 64 else old(|visited|)
    {
      this.capacity := capacity;
      Finish();
      var words := (capacity + 63) / 64;
      if |visited| < words {
        Grow(words);
      }
    }

    method Finish()
      requires Valid()
      modifies this
      ensures Valid() && Contents() == {}
      ensures touched == [] && !touchedOverflow
      ensures |visited| == old(|visited|) && forall w :: 0 <= w < |visited| ==> visited[w] == 0
      ensures capacity == old(capacity)
    {
      if touchedOverflow {
        visited := seq(|visited|, _ => 0);
        touchedOverflow := false;
      } else {
        var i := 0;
        while i < |touched|
          invariant 0 <= i <= |touched|
          invariant touched == old(touched) && !touchedOverflow && capacity == old(capacity)
          invariant |visited| == old(|visited|)
          invariant forall j :: 0 <= j < i ==> visited[touched[j]] == 0
          invariant forall w :: 0 <= w < |visited| ==> visited[w] == 0 || visited[w] == old(visited[w])
        {
          visited := visited[touched[i] := 0];
          i := i + 1;
        }
      }
      touched := [];
      ZerosAreEmpty(visited);
    }

    method Grow(words: nat)
      requires Valid() && |visited| <= words
      modifies `visited
      ensures Valid() && Contents() == old(Contents()) && |visited| == words
      ensures forall w :: 0 <= w < old(|visited|) ==> visited[w] == old(visited[w])
      ensures forall w :: old(|visited|) <= w < words ==> visited[w] == 0
    {
      var more: seq<bv64> := seq(words - |visited|, _ => 0);
      GrowKeepsMembers(visited, more);
      visited := visited + more;
    }

    method Visit(id: Id) returns (first: bool)
      requires Valid()
      modifies this
      ensures Valid()
      ensures first <==> id !in old(Contents())
      ensures Contents() == old(Contents()) + {id}
      ensures capacity == old(capacity)
      ensures |visited| == WordsAfterVisit(old(|visited|), id)
    {
      hide Mask, Has, With;
      var w := id / 64;
      if w >= |visited| {
        Grow(w + GROW_SLACK_WORDS);
      }
      var mask := Mask(id % 64);
      var word := visited[w];
      MemberIff(visited, id);
      if Has(word, mask) {
        return false;
      }
      if word == 0 {
        if |touched| < TOUCHED_CAP {
          touched := touched + [w];
        } else {
          touchedOverflow := true;
        }
      }
      SetBitAddsMember(visited, id);
      visited := visited[w := With(word, mask)];
      first := true;
    }
  }
}
