/** Coverage pruning of an over-long adjacency list (prune_with_coverage). */
module Prune {
  import opened Core
  import opened Ranking

  // Stored-to-stored distance; None when either end is not live.
  type Between = (Id, Id) -> Option<real>

  const HUNT: nat := 16

  function RemoveAt<T>(s: seq<T>, i: nat): seq<T>
    requires i < |s|
  {
    s[..i] + s[i + 1..]
  }

  // The live members of a list with their distances from `base`, in list order.
  function ScoreLive(between: Between, base: Id, list: seq<Id>): (r: seq<Scored>)
    ensures forall h :: h in r ==> h.id in list && between(base, h.id) == Some(h.dist)
    ensures forall x :: x in list && between(base, x).Some? ==> exists h :: h in r && h.id == x
    ensures |r| <= |list|
  {
    if list == [] then []
    else
      var rest := ScoreLive(between, base, list[1..]);
      match between(base, list[0])
      case None => rest
      case Some(d) => assert ([Scored(list[0], d)] + rest)[0].id == list[0]; [Scored(list[0], d)] + rest
  }

  // Insertion after equal distances: the stable order of sort_by.
  function InsertByDist(s: seq<Scored>, h: Scored): seq<Scored> {
    if s == [] || h.dist < s[0].dist then [h] + s else [s[0]] + InsertByDist(s[1..], h)
  }

  lemma {:induction false} InsertMembers(s: seq<Scored>, h: Scored)
    ensures var r := InsertByDist(s, h);
            multiset(r) == multiset(s) + multiset{h} && |r| == |s| + 1
  {
    if s != [] && s[0].dist <= h.dist {
      InsertMembers(s[1..], h);
      assert s == [s[0]] + s[1..];
    }
  }

  lemma ConsSorted(x: Scored, r: seq<Scored>)
    requires SortedByDist(r) && forall h :: h in multiset(r) ==> x.dist <= h.dist
    ensures SortedByDist([x] + r)
  {
    assert forall i :: 0 <= i < |r| ==> r[i] in multiset(r);
  }

  lemma SortedTail(s: seq<Scored>)
    requires SortedByDist(s) && s != []
    ensures SortedByDist(s[1..]) && forall h :: h in multiset(s) ==> s[0].dist <= h.dist
    ensures multiset(s) == multiset{s[0]} + multiset(s[1..])
  {
    assert s == [s[0]] + s[1..];
  }

  lemma {:induction false} InsertSorts(s: seq<Scored>, h: Scored)
    requires SortedByDist(s)
    ensures SortedByDist(InsertByDist(s, h))
  {
    assert s == [] ==> InsertByDist(s, h) == [h];
    if s != [] {
      hide SortedByDist;
      SortedTail(s);
      if h.dist < s[0].dist {
        ConsSorted(h, s);
      } else {
        InsertSorts(s[1..], h);
        InsertMembers(s[1..], h);
        ConsSorted(s[0], InsertByDist(s[1..], h));
      }
    }
  }

  function SortByDist(s: seq<Scored>): seq<Scored> {
    if s == [] then [] else InsertByDist(SortByDist(s[..|s| - 1]), s[|s| - 1])
  }

  lemma {:induction false} SortSorts(s: seq<Scored>)
    ensures SortedByDist(SortByDist(s)) && multiset(SortByDist(s)) == multiset(s) && |SortByDist(s)| == |s|
  {
    if s != [] {
      var front := s[..|s| - 1];
      SortSorts(front);
      InsertSorts(SortByDist(front), s[|s| - 1]);
      InsertMembers(SortByDist(front), s[|s| - 1]);
      assert s == front + [s[|s| - 1]];
    }
  }

  // Position `i` is redundant: one of the nearest keepers is closer to it than `base` is.
  ghost predicate Covered(between: Between, s: seq<Scored>, i: nat)
    requires i < |s|
  {
    exists k :: 0 <= k < Keepers(|s|) && CoveredBy(between, s[i], s[k])
  }

  predicate CoveredBy(between: Between, e: Scored, k: Scored) {
    k.id != e.id && between(e.id, k.id).Some? && between(e.id, k.id).value < e.dist
  }

  function CheckFrom(len: nat): nat {
    if len < HUNT then 0 else len - HUNT
  }

  function Keepers(len: nat): nat {
    Min(HUNT, CheckFrom(len))
  }

  // The farthest redundant member of the last sixteen, else the farthest member.
  ghost predicate IsVictim(between: Between, s: seq<Scored>, v: nat) {
    && CheckFrom(|s|) <= v < |s|
    && (Covered(between, s, v) || v == |s| - 1)
    && (forall i :: CheckFrom(|s|) <= i < |s| && Covered(between, s, i) ==> i <= v && Covered(between, s, v))
  }

  // Evicting one victim after another until `cap` are left turns `all` into `kept`.
  ghost predicate EvictsTo(between: Between, all: seq<Scored>, kept: seq<Scored>, cap: nat)
    decreases |all|
  {
    if |all| <= cap then kept == all
    else exists v :: IsVictim(between, all, v) && EvictsTo(between, RemoveAt(all, v), kept, cap)
  }

  // The hunt looks at the farthest sixteen, and for keepers among the nearest sixteen of the others.
  lemma HuntsSixteen(len: nat)
    ensures len <= 16 ==> CheckFrom(len) == 0 == Keepers(len)
    ensures 16 < len <= 32 ==> CheckFrom(len) == len - 16 == Keepers(len)
    ensures len > 32 ==> CheckFrom(len) == len - 16 && Keepers(len) == 16
  {
  }

  method FindVictim(between: Between, s: seq<Scored>) returns (evict: nat)
    requires |s| > 0
    ensures IsVictim(between, s, evict)
  {
    var checkFrom := CheckFrom(|s|);
    var i := |s|;
    while i > checkFrom
      invariant checkFrom <= i <= |s|
      invariant forall j :: i <= j < |s| ==> !Covered(between, s, j)
    {
      i := i - 1;
      var k := 0;
      while k < Keepers(|s|)
        invariant 0 <= k <= Keepers(|s|)
        invariant forall j :: 0 <= j < k ==> !CoveredBy(between, s[i], s[j])
      {
        if CoveredBy(between, s[i], s[k]) {
          return i;
        }
        k := k + 1;
      }
    }
    evict := |s| - 1;
  }

  function IdsOf(s: seq<Scored>): (r: seq<Id>)
    ensures |r| == |s| && forall i :: 0 <= i < |s| ==> r[i] == s[i].id
  {
    seq(|s|, i requires 0 <= i < |s| => s[i].id)
  }

  method PruneWithCoverage(
    between: Between, base: Id, list: seq<Id>, cap: nat) returns (pruned: seq<Id>, kept: seq<Scored>)
    ensures pruned == IdsOf(kept)
    ensures EvictsTo(between, SortByDist(ScoreLive(between, base, list)), kept, cap)
  {
    var scored := SortByDist(ScoreLive(between, base, list));
    ghost var all := scored;
    while |scored| > cap
      invariant forall end :: EvictsTo(between, scored, end, cap) ==> EvictsTo(between, all, end, cap)
      decreases |scored|
    {
      var evict := FindVictim(between, scored);
      ghost var before := scored;
      scored := RemoveAt(scored, evict);
      assert forall end :: EvictsTo(between, scored, end, cap) ==> EvictsTo(between, before, end, cap);
    }
    kept := scored;
    pruned := IdsOf(scored);
  }

  lemma RemoveAtKeeps(s: seq<Scored>, v: nat)
    requires v < |s| && SortedByDist(s)
    ensures SortedByDist(RemoveAt(s, v)) && multiset(RemoveAt(s, v)) <= multiset(s)
    ensures forall i :: 0 <= i < v ==> RemoveAt(s, v)[i] == s[i]
  {
    assert s == s[..v] + [s[v]] + s[v + 1..];
  }

  // What survives: a sorted selection of exactly min(cap, live) members that always includes the
  // nearest cap - 15.
  lemma {:induction false} PruneKeeps(between: Between, all: seq<Scored>, kept: seq<Scored>, cap: nat)
    requires EvictsTo(between, all, kept, cap) && SortedByDist(all)
    ensures |kept| == Min(cap, |all|) <= cap && SortedByDist(kept)
    ensures multiset(kept) <= multiset(all)
    ensures forall i :: 0 <= i < |kept| && i + 16 <= cap ==> kept[i] == all[i]
    decreases |all|
  {
    if |all| > cap {
      var v: nat :| IsVictim(between, all, v) && EvictsTo(between, RemoveAt(all, v), kept, cap);
      RemoveAtKeeps(all, v);
      hide SortedByDist, RemoveAt, Covered;
      assert |RemoveAt(all, v)| == |all| - 1;
      PruneKeeps(between, RemoveAt(all, v), kept, cap);
    }
  }

  // One of the nearest sixteen, the farthest sixteen apart, reaches position `i` at less than its distance from the
  // list's owner.
  ghost predicate Redundant(between: Between, s: seq<Scored>, i: nat)
    requires i < |s|
  {
    exists k: nat :: k < 16 && k + 16 < |s| && Nearer(between, s[i], s[k])
  }

  predicate Nearer(between: Between, e: Scored, k: Scored) {
    k.id != e.id && match between(e.id, k.id) case Some(d) => d < e.dist case None => false
  }

  // What the hunt evicts: the farthest redundant one of the last sixteen, and the farthest of all if none of them is.
  lemma HuntsRedundant(between: Between, s: seq<Scored>, v: nat)
    requires v < |s|
    ensures IsVictim(between, s, v) <==>
              && |s| <= v + 16 && (Redundant(between, s, v) || v == |s| - 1)
              && forall i :: 0 <= i < |s| <= i + 16 && Redundant(between, s, i) ==> i <= v && Redundant(between, s, v)
  {
    HuntsSixteen(|s|);
    forall i | 0 <= i < |s| ensures Redundant(between, s, i) <==> Covered(between, s, i) {
      assert forall k :: 0 <= k < |s| ==> (Nearer(between, s[i], s[k]) <==> CoveredBy(between, s[i], s[k]));
    }
  }

  // The common case of one member too many: just that one goes, and nobody it could have been redundant to.
  lemma PruneOneOver(between: Between, all: seq<Scored>, kept: seq<Scored>, cap: nat) returns (v: nat)
    requires EvictsTo(between, all, kept, cap) && |all| == cap + 1
    ensures v < |all| <= v + 16 && kept == RemoveAt(all, v) && (Redundant(between, all, v) || v == cap)
    ensures forall i :: 0 <= i < |all| <= i + 16 && Redundant(between, all, i) ==> i <= v && Redundant(between, all, v)
    ensures forall k :: 0 <= k < 16 && k + 16 < |all| ==> kept[k] == all[k]
  {
    v :| IsVictim(between, all, v) && EvictsTo(between, RemoveAt(all, v), kept, cap);
    HuntsRedundant(between, all, v);
  }

  // No id is scored twice: a property of the multiset, so sorting and evicting keep it.
  ghost predicate OncePerId(hits: multiset<Scored>) {
    forall a: Scored, b: Scored :: a in hits && b in hits && a.id == b.id ==> a == b && hits[a] == 1
  }

  lemma {:induction false} ScoreLiveOnce(between: Between, base: Id, list: seq<Id>)
    requires NoDup(list)
    ensures OncePerId(multiset(ScoreLive(between, base, list)))
  {
    if list != [] {
      ScoreLiveOnce(between, base, list[1..]);
      var rest := ScoreLive(between, base, list[1..]);
      forall h: Scored | h in multiset(rest) ensures h.id != list[0] {
        assert h in rest;
      }
    }
  }

  lemma OnceMeansDistinct(s: seq<Scored>)
    requires OncePerId(multiset(s))
    ensures DistinctIds(s)
  {
    forall i, j | 0 <= i < j < |s| ensures s[i].id != s[j].id {
      assert s[i] in multiset(s) && s[j] in multiset(s);
      TwiceCounted(s, i, j);
    }
  }

  lemma TwiceCounted(s: seq<Scored>, i: nat, j: nat)
    requires i < j < |s|
    ensures s[i] == s[j] ==> multiset(s)[s[i]] >= 2
  {
    assert s == s[..j] + [s[j]] + s[j + 1..];
    assert s[i] in s[..j] && s[i] in multiset(s[..j]);
  }

  lemma IdsOfDistinct(s: seq<Scored>, from: seq<Scored>, list: seq<Id>)
    requires DistinctIds(s) && multiset(s) <= multiset(from) && forall h :: h in from ==> h.id in list
    ensures NoDup(IdsOf(s)) && forall x :: x in IdsOf(s) ==> x in list
  {
    forall i | 0 <= i < |s| ensures IdsOf(s)[i] in list {
      assert s[i] in multiset(s) && s[i] in multiset(from);
      assert s[i] in from;
    }
  }

  // Pruning a duplicate-free list gives a duplicate-free part of it, within the cap.
  lemma PruneListOk(between: Between, base: Id, list: seq<Id>, kept: seq<Scored>, cap: nat)
    requires NoDup(list) && EvictsTo(between, SortByDist(ScoreLive(between, base, list)), kept, cap)
    ensures NoDup(IdsOf(kept)) && |IdsOf(kept)| <= cap
    ensures forall x :: x in IdsOf(kept) ==> x in list
  {
    hide *;
    var live := ScoreLive(between, base, list);
    SortSorts(live);
    PruneKeeps(between, SortByDist(live), kept, cap);
    ScoreLiveOnce(between, base, list);
    OnceSmaller(multiset(live), multiset(kept));
    OnceMeansDistinct(kept);
    IdsOfDistinct(kept, live, list);
  }

  lemma OnceSmaller(all: multiset<Scored>, part: multiset<Scored>)
    requires OncePerId(all) && part <= all
    ensures OncePerId(part)
  {
    forall a: Scored, b: Scored | a in part && b in part && a.id == b.id ensures a == b && part[a] == 1 {
      assert a in all && b in all;
    }
  }
}
