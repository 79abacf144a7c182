/** What a brute-force scan would answer, and when a bounded result set agrees with it. */
module Ranking {
  import opened Core

  // `all` lists every member of `s` once, nearest first: the answer of an exhaustive scan.
  ghost predicate IsRanking(all: seq<Scored>, s: set<Id>, rank: Id -> real) {
    && Ids(all) == s
    && DistinctIds(all)
    && SortedByDist(all)
    && forall i :: 0 <= i < |all| ==> all[i].dist == rank(all[i].id)
  }

  // `kept` holds `ef` members of `from` (all of them when fewer), none farther than any left out.
  ghost predicate Nearest(kept: set<Id>, from: set<Id>, ef: nat, rank: Id -> real) {
    && kept <= from
    && |kept| <= ef
    && (|kept| < ef ==> kept == from)
    && forall x, y :: x in kept && y in from - kept ==> rank(x) <= rank(y)
  }

  lemma RankingSize(all: seq<Scored>, s: set<Id>, rank: Id -> real)
    requires IsRanking(all, s, rank)
    ensures |all| == |s|
  {
    IdsSize(all);
  }

  lemma RankingIds(all: seq<Scored>, s: set<Id>, rank: Id -> real)
    requires IsRanking(all, s, rank)
    ensures Ids(all) == s
  {
  }

  lemma EmptyRanking(rank: Id -> real)
    ensures IsRanking([], {}, rank)
  {
  }

  // One farther (or equally far) id extends a ranking at its end.
  lemma RankingSnoc(all: seq<Scored>, s: set<Id>, rank: Id -> real, x: Id)
    requires IsRanking(all, s, rank) && x !in s
    requires forall y :: y in s ==> rank(y) <= rank(x)
    ensures IsRanking(all + [Scored(x, rank(x))], s + {x}, rank)
  {
    var hit := Scored(x, rank(x));
    IdsConcat(all, [hit]);
    IdsOne(hit);
    forall i | 0 <= i < |all| ensures all[i].id != x && all[i].dist <= hit.dist {
      assert all[i].id in Ids(all);
    }
  }

  // Counting: in a ranking, the members strictly nearer than position i sit before i.
  lemma RankBound(a: seq<Scored>, b: seq<Scored>, s: set<Id>, rank: Id -> real, i: nat)
    requires IsRanking(a, s, rank) && IsRanking(b, s, rank)
    requires i < |a| && i < |b|
    ensures a[i].dist >= b[i].dist
  {
    if a[i].dist < b[i].dist {
      var prefix := a[..i + 1];
      IdsSize(prefix);
      IdsSize(b[..i]);
      forall x | x in Ids(prefix) ensures x in Ids(b[..i]) {
        var j :| 0 <= j < |prefix| && prefix[j].id == x;
        assert a[j].id == x && rank(x) <= a[i].dist;
        assert x in Ids(a);
        var p :| 0 <= p < |b| && b[p].id == x;
        assert p < i;
        assert b[..i][p].id == x;
      }
      SubsetSize(Ids(prefix), Ids(b[..i]));
      assert false;
    }
  }

  // The distances of a ranking are determined by the set: ties only permute ids.
  lemma RankingUnique(a: seq<Scored>, b: seq<Scored>, s: set<Id>, rank: Id -> real)
    requires IsRanking(a, s, rank) && IsRanking(b, s, rank)
    ensures |a| == |b|
    ensures forall i :: 0 <= i < |a| ==> a[i].dist == b[i].dist
  {
    IdsSize(a);
    IdsSize(b);
    forall i | 0 <= i < |a| ensures a[i].dist == b[i].dist {
      RankBound(a, b, s, rank, i);
      RankBound(b, a, s, rank, i);
    }
  }

  // Draining a heap into a vector and sorting it by distance.
  method SortedHits(s: set<Id>, rank: Id -> real) returns (out: seq<Scored>)
    ensures IsRanking(out, s, rank)
  {
    hide IsRanking;
    EmptyRanking(rank);
    out := [];
    var done: set<Id>, rest := {}, s;
    while rest != {}
      invariant done + rest == s && done !! rest
      invariant IsRanking(out, done, rank)
      invariant forall x, y :: x in done && y in rest ==> rank(x) <= rank(y)
      decreases |rest|
    {
      LeastExists(rest, rank);
      var x :| x in rest && forall y :: y in rest ==> rank(x) <= rank(y);
      RankingSnoc(out, done, rank, x);
      out := out + [Scored(x, rank(x))];
      done, rest := done + {x}, rest - {x};
    }
  }

  // Every finite set has a ranking that continues any ranking of its nearest members.
  lemma {:induction false} ExtendRanking(prefix: seq<Scored>, s: set<Id>, rest: set<Id>, rank: Id -> real)
    returns (all: seq<Scored>)
    requires IsRanking(prefix, s, rank) && s !! rest
    requires forall x, y :: x in s && y in rest ==> rank(x) <= rank(y)
    ensures IsRanking(all, s + rest, rank) && prefix <= all
    decreases |rest|
  {
    hide IsRanking;
    if rest == {} {
      all := prefix;
      assert s + rest == s;
    } else {
      LeastExists(rest, rank);
      var x :| x in rest && forall y :: y in rest ==> rank(x) <= rank(y);
      RankingSnoc(prefix, s, rank, x);
      all := ExtendRanking(prefix + [Scored(x, rank(x))], s + {x}, rest - {x}, rank);
      assert s + {x} + (rest - {x}) == s + rest;
    }
  }

  // Truncating the nearest `ef` of a set to k <= ef loses nothing of its k smallest distances.
  lemma NearestIsBruteForce(out: seq<Scored>, all: seq<Scored>, from: set<Id>, ef: nat, k: nat, rank: Id -> real)
    requires IsRanking(all, from, rank)
    requires IsRanking(out, Ids(out), rank) && Nearest(Ids(out), from, ef, rank)
    requires k <= ef
    ensures var hits := Truncate(out, k);
            && |hits| == Min(k, |all|)
            && (forall i :: 0 <= i < |hits| ==> hits[i].dist == all[i].dist)
  {
    hide IsRanking, Ids;
    RankingSize(out, Ids(out), rank);
    RankingSize(all, from, rank);
    SubsetSize(Ids(out), from);
    var whole := ExtendRanking(out, Ids(out), from - Ids(out), rank);
    assert Ids(out) + (from - Ids(out)) == from;
    RankingUnique(whole, all, from, rank);
  }

  // Vec::truncate.
  function Truncate<T>(s: seq<T>, k: nat): (r: seq<T>)
    ensures r <= s && |r| == Min(k, |s|)
  {
    if k < |s| then s[..k] else s
  }
}
