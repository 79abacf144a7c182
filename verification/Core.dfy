/** Values shared by the whole model: node ids, scored hits and the sets they form. */
module Core {

  datatype Option<+T> = None | Some(value: T)

  // NO_ID is the all-ones 32-bit word; a real id is below it (format.rs refuses larger planes).
  const NO_ID: nat := 0xFFFF_FFFF
  type Id = i: nat | i < NO_ID

  const MAX_UPPER_LEVELS: nat := 8
  const UPPER_CAP: nat := 64
  const KEY_CAP_MIN: nat := 8
  const MAX_KEY_LEN: nat := 65535

  // A hit of a search. Distances are exact values of an ordered field: f32 rounding is not modelled.
  datatype Scored = Scored(id: Id, dist: real)

  function Min(a: nat, b: nat): nat {
    if a < b then a else b
  }

  ghost function Ids(s: seq<Scored>): set<Id> {
    set i | 0 <= i < |s| :: s[i].id
  }

  function Elems<T>(s: seq<T>): set<T> {
    set x | x in s
  }

  lemma ElemsSnoc<T>(s: seq<T>, x: T)
    ensures Elems(s + [x]) == Elems(s) + {x}
    ensures forall y :: y in Elems(s) <==> y in s
  {
  }

  ghost predicate NoDup<T(!new)>(s: seq<T>) {
    forall i, j :: 0 <= i < j < |s| ==> s[i] != s[j]
  }

  lemma NoDupPrefix<T(!new)>(s: seq<T>, i: nat)
    requires NoDup(s) && i < |s|
    ensures s[i] !in s[..i]
  {
  }

  lemma NoDupSnoc(s: seq<Id>, x: Id)
    requires NoDup(s) && x !in s
    ensures NoDup(s + [x])
  {
  }

  ghost predicate DistinctIds(s: seq<Scored>) {
    forall i, j :: 0 <= i < j < |s| ==> s[i].id != s[j].id
  }

  ghost predicate SortedByDist(s: seq<Scored>) {
    forall i, j :: 0 <= i < j < |s| ==> s[i].dist <= s[j].dist
  }

  lemma SubsetSize<T>(a: set<T>, b: set<T>)
    requires a <= b
    ensures |a| <= |b|
    ensures |a| == |b| ==> a == b
  {
    assert b == a + (b - a);
    assert |b| == |a| + |b - a|;
    if |a| == |b| {
      assert b - a == {};
    }
  }

  lemma {:induction false} ElemsSize<T(!new)>(s: seq<T>)
    requires NoDup(s)
    ensures |Elems(s)| == |s|
  {
    if s != [] {
      var last := |s| - 1;
      ElemsSize(s[..last]);
      assert s == s[..last] + [s[last]];
      assert Elems(s) == Elems(s[..last]) + {s[last]};
      NoDupPrefix(s, last);
    }
  }

  lemma {:induction false} ElemsBound<T>(s: seq<T>)
    ensures |Elems(s)| <= |s|
  {
    if s != [] {
      var last := |s| - 1;
      ElemsBound(s[..last]);
      assert s == s[..last] + [s[last]];
      assert Elems(s) == Elems(s[..last]) + {s[last]};
    }
  }

  lemma SublistSize<T(!new)>(a: seq<T>, b: seq<T>)
    requires NoDup(a) && NoDup(b) && forall x :: x in a ==> x in b
    ensures |a| <= |b|
  {
    ElemsSize(a);
    ElemsSize(b);
    SubsetSize(Elems(a), Elems(b));
  }

  lemma IdsOne(h: Scored)
    ensures Ids([h]) == {h.id}
  {
    assert [h][0].id in Ids([h]);
  }

  lemma IdsConcat(a: seq<Scored>, b: seq<Scored>)
    ensures Ids(a + b) == Ids(a) + Ids(b)
  {
    forall x | x in Ids(a) + Ids(b) ensures x in Ids(a + b) {
      if x in Ids(a) {
        var i :| 0 <= i < |a| && a[i].id == x;
        assert (a + b)[i].id == x;
      } else {
        var i :| 0 <= i < |b| && b[i].id == x;
        assert (a + b)[|a| + i].id == x;
      }
    }
    forall x | x in Ids(a + b) ensures x in Ids(a) + Ids(b) {
      var i :| 0 <= i < |a + b| && (a + b)[i].id == x;
    }
  }

  lemma {:induction false} IdsSize(s: seq<Scored>)
    requires DistinctIds(s)
    ensures |Ids(s)| == |s|
  {
    if |s| > 0 {
      var last := |s| - 1;
      IdsSize(s[..last]);
      IdsConcat(s[..last], [s[last]]);
      assert s == s[..last] + [s[last]];
      IdsOne(s[last]);
      assert s[last].id !in Ids(s[..last]);
    } else {
      assert Ids(s) == {};
    }
  }

  // An element of least rank exists in every nonempty set of ids.
  lemma {:induction false} LeastExists(s: set<Id>, rank: Id -> real)
    requires s != {}
    ensures exists x :: x in s && forall y :: y in s ==> rank(x) <= rank(y)
    decreases |s|
  {
    var a :| a in s;
    if s != {a} {
      var rest := s - {a};
      LeastExists(rest, rank);
      var b :| b in rest && forall y :: y in rest ==> rank(b) <= rank(y);
      var least := if rank(a) <= rank(b) then a else b;
      assert forall y :: y in s ==> y == a || y in rest;
      assert least in s && forall y :: y in s ==> rank(least) <= rank(y);
    } else {
      assert forall y :: y in s ==> rank(a) <= rank(y);
    }
  }

  // An element of greatest rank exists in every nonempty set of ids.
  lemma GreatestExists(s: set<Id>, rank: Id -> real)
    requires s != {}
    ensures exists x :: x in s && forall y :: y in s ==> rank(y) <= rank(x)
  {
    var negated := (x: Id) => -rank(x);
    LeastExists(s, negated);
    var x :| x in s && forall y :: y in s ==> negated(x) <= negated(y);
    assert forall y :: y in s ==> rank(y) <= rank(x) by {
      forall y | y in s ensures rank(y) <= rank(x) { assert negated(x) <= negated(y); }
    }
  }
}
