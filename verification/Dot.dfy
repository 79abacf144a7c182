/** The integer dot kernels as lane arithmetic (distance.rs), and the quantizer that feeds them. */
module Dot {

  const MAX_LEN: nat := 65535

  // Two's complement wrap-around of a register lane.
  function Wrap32(x: int): int {
    (x + 0x8000_0000) % 0x1_0000_0000 - 0x8000_0000
  }

  function Wrap64(x: int): int {
    (x + 0x8000_0000_0000_0000) % 0x1_0000_0000_0000_0000 - 0x8000_0000_0000_0000
  }

  predicate Fits32(x: int) {
    -0x8000_0000 <= x < 0x8000_0000
  }

  predicate Fits64(x: int) {
    -0x8000_0000_0000_0000 <= x < 0x8000_0000_0000_0000
  }

  // The plain sum of the first n products.
  function Sum(a: seq<int>, b: seq<int>, n: nat): int
    requires n <= |a| && n <= |b|
  {
    if n == 0 then 0 else Sum(a, b, n - 1) + a[n - 1] * b[n - 1]
  }

  // One madd lane before wrapping: two neighbouring products.
  function PairSum(a: seq<int>, b: seq<int>, p: nat): int
    requires 2 * p + 1 < |a| && 2 * p + 1 < |b|
  {
    a[2 * p] * b[2 * p] + a[2 * p + 1] * b[2 * p + 1]
  }

  function Madd(a: seq<int>, b: seq<int>, p: nat): int
    requires 2 * p + 1 < |a| && 2 * p + 1 < |b|
  {
    Wrap32(PairSum(a, b, p))
  }

  // The one pair a madd lane cannot hold: four operands of -32768.
  predicate Overflows(a: seq<int>, b: seq<int>, p: nat)
    requires 2 * p + 1 < |a| && 2 * p + 1 < |b|
  {
    a[2 * p] == b[2 * p] == -0x8000 && a[2 * p + 1] == b[2 * p + 1] == -0x8000
  }

  function OverflowCount(a: seq<int>, b: seq<int>, n: nat): nat
    requires 2 * n <= |a| && 2 * n <= |b|
  {
    if n == 0 then 0 else OverflowCount(a, b, n - 1) + if Overflows(a, b, n - 1) then 1 else 0
  }

  function MaddTotal(a: seq<int>, b: seq<int>, n: nat): int
    requires 2 * n <= |a| && 2 * n <= |b|
  {
    if n == 0 then 0 else MaddTotal(a, b, n - 1) + Madd(a, b, n - 1)
  }

  predicate Bounded(a: seq<int>, lo: int, hi: int) {
    forall i :: 0 <= i < |a| ==> lo <= a[i] <= hi
  }

  lemma ProductBound(x: int, y: int, m: int)
    requires -m <= x <= m && -m <= y <= m
    ensures -(m * m) <= x * y <= m * m
  {
    SquareBound(m - x, m + y);
    SquareBound(m + x, m - y);
    SquareBound(m - x, m - y);
    SquareBound(m + x, m + y);
    assert (m - x) * (m + y) == m * m + m * y - m * x - x * y;
    assert (m + x) * (m - y) == m * m - m * y + m * x - x * y;
    assert (m - x) * (m - y) == m * m - m * y - m * x + x * y;
    assert (m + x) * (m + y) == m * m + m * y + m * x + x * y;
  }

  lemma SquareBound(x: int, y: int)
    requires x >= 0 && y >= 0
    ensures x * y >= 0
  {
  }

  // Below the extreme magnitude a product stays strictly below the extreme square.
  lemma ProductTop(x: int, y: int)
    requires -0x8000 <= x < 0x8000 && -0x8000 <= y < 0x8000
    ensures -0x4000_0000 < x * y <= 0x4000_0000
    ensures x * y == 0x4000_0000 <==> x == y == -0x8000
  {
    if x == -0x8000 {
      assert x * y == -0x8000 * y;
    } else if y == -0x8000 {
      assert x * y == -0x8000 * x;
    } else {
      ProductBound(x, y, 0x7FFF);
    }
  }

  // A madd lane is exact but for the all-extreme pair, which it turns into its negative.
  lemma MaddLane(a: seq<int>, b: seq<int>, p: nat)
    requires 2 * p + 1 < |a| && 2 * p + 1 < |b| && Bounded(a, -0x8000, 0x7FFF) && Bounded(b, -0x8000, 0x7FFF)
    ensures Madd(a, b, p) == PairSum(a, b, p) - (if Overflows(a, b, p) then 0x1_0000_0000 else 0)
    ensures Fits32(Madd(a, b, p))
    ensures Overflows(a, b, p) <==> !Fits32(PairSum(a, b, p))
  {
    ProductTop(a[2 * p], b[2 * p]);
    ProductTop(a[2 * p + 1], b[2 * p + 1]);
  }

  lemma {:induction false} MaddTotalIsSum(a: seq<int>, b: seq<int>, n: nat)
    requires 2 * n <= |a| && 2 * n <= |b| && Bounded(a, -0x8000, 0x7FFF) && Bounded(b, -0x8000, 0x7FFF)
    ensures MaddTotal(a, b, n) == Sum(a, b, 2 * n) - 0x1_0000_0000 * OverflowCount(a, b, n)
  {
    if n > 0 {
      MaddTotalIsSum(a, b, n - 1);
      MaddLane(a, b, n - 1);
      assert Sum(a, b, 2 * n) == Sum(a, b, 2 * n - 2) + PairSum(a, b, n - 1);
    }
  }

  lemma {:induction false} SumBound(a: seq<int>, b: seq<int>, n: nat, m: int)
    requires m >= 0 && n <= |a| && n <= |b| && Bounded(a, -m, m) && Bounded(b, -m, m)
    ensures -(n * (m * m)) <= Sum(a, b, n) <= n * (m * m)
  {
    if n > 0 {
      SumBound(a, b, n - 1, m);
      ProductBound(a[n - 1], b[n - 1], m);
      assert n * (m * m) == (n - 1) * (m * m) + m * m;
    }
  }

  lemma {:induction false} NoOverflowBelow(a: seq<int>, b: seq<int>, n: nat)
    requires 2 * n <= |a| && 2 * n <= |b| && Bounded(a, -0x7FFF, 0x7FFF)
    ensures OverflowCount(a, b, n) == 0
  {
    if n > 0 {
      NoOverflowBelow(a, b, n - 1);
      assert -0x7FFF <= a[2 * (n - 1)];
    }
  }

  // ---- The int16 kernel ----

  type Lanes4 = s: seq<int> | |s| == 4 witness [0, 0, 0, 0]
  type Lanes8 = s: seq<int> | |s| == 8 witness [0, 0, 0, 0, 0, 0, 0, 0]

  function Total4(acc: Lanes4): int {
    acc[0] + acc[1] + acc[2] + acc[3]
  }

  function Total8(acc: Lanes8): int {
    acc[0] + acc[1] + acc[2] + acc[3] + acc[4] + acc[5] + acc[6] + acc[7]
  }

  // Widen four madd lanes to 64 bits and add them.
  function AddWidened(acc: Lanes4, a: seq<int>, b: seq<int>, p: nat): Lanes4
    requires 2 * (p + 4) <= |a| && 2 * (p + 4) <= |b|
  {
    [Wrap64(acc[0] + Madd(a, b, p)), Wrap64(acc[1] + Madd(a, b, p + 1)),
     Wrap64(acc[2] + Madd(a, b, p + 2)), Wrap64(acc[3] + Madd(a, b, p + 3))]
  }

  predicate LanesWithin(acc: seq<int>, bound: int) {
    forall j :: 0 <= j < |acc| ==> -bound <= acc[j] <= bound
  }

  lemma WrapFits(x: int)
    ensures Fits64(x) ==> Wrap64(x) == x
    ensures Fits32(x) ==> Wrap32(x) == x
  {
  }

  // One lane step wraps nowhere and widens the bound by one 32-bit lane.
  lemma LaneAdd(x: int, y: int, n: nat)
    requires -(n * 0x8000_0000) <= x <= n * 0x8000_0000 && Fits32(y) && n <= 2 * MAX_LEN
    ensures Wrap64(x + y) == x + y && -((n + 1) * 0x8000_0000) <= x + y <= (n + 1) * 0x8000_0000
  {
  }

  lemma MaddFour(a: seq<int>, b: seq<int>, p: nat)
    requires 2 * (p + 4) <= |a| && 2 * (p + 4) <= |b|
    ensures MaddTotal(a, b, p + 4) - MaddTotal(a, b, p) ==
            Madd(a, b, p) + Madd(a, b, p + 1) + Madd(a, b, p + 2) + Madd(a, b, p + 3)
  {
    hide Madd;
    assert MaddTotal(a, b, p + 2) == MaddTotal(a, b, p) + Madd(a, b, p) + Madd(a, b, p + 1);
    assert MaddTotal(a, b, p + 4) == MaddTotal(a, b, p + 2) + Madd(a, b, p + 2) + Madd(a, b, p + 3);
  }

  lemma AddWidenedTotal(acc: Lanes4, a: seq<int>, b: seq<int>, p: nat, n: nat)
    requires 2 * (p + 4) <= |a| && 2 * (p + 4) <= |b| && Bounded(a, -0x8000, 0x7FFF) && Bounded(b, -0x8000, 0x7FFF)
    requires LanesWithin(acc, n * 0x8000_0000) && n <= 2 * MAX_LEN
    ensures LanesWithin(AddWidened(acc, a, b, p), (n + 1) * 0x8000_0000)
    ensures Total4(AddWidened(acc, a, b, p)) == Total4(acc) + (MaddTotal(a, b, p + 4) - MaddTotal(a, b, p))
  {
    hide Madd, MaddTotal, Wrap64, Wrap32, Bounded, Fits32, Overflows, PairSum;
    MaddFour(a, b, p);
    MaddLane(a, b, p);
    MaddLane(a, b, p + 1);
    MaddLane(a, b, p + 2);
    MaddLane(a, b, p + 3);
    LaneAdd(acc[0], Madd(a, b, p), n);
    LaneAdd(acc[1], Madd(a, b, p + 1), n);
    LaneAdd(acc[2], Madd(a, b, p + 2), n);
    LaneAdd(acc[3], Madd(a, b, p + 3), n);
  }

  lemma EmptyTotals(a: seq<int>, b: seq<int>)
    ensures Total4([0, 0, 0, 0]) == MaddTotal(a, b, 0) && LanesWithin([0, 0, 0, 0], 0)
  {
  }

  // Partial sums are far inside 64 bits.
  lemma SumFits(a: seq<int>, b: seq<int>, n: nat)
    requires n <= |a| && n <= |b| && n <= MAX_LEN && Bounded(a, -0x8000, 0x7FFF) && Bounded(b, -0x8000, 0x7FFF)
    ensures -0xFFFF_4000_0000 <= Sum(a, b, n) <= 0xFFFF_4000_0000
  {
    SumBound(a, b, n, 0x8000);
    assert n * (0x8000 * 0x8000) <= 0xFFFF * 0x4000_0000;
  }

  // The exact scalar sum of the elements from `start` on; no 64-bit step wraps.
  method DotI16Scalar(a: seq<int>, b: seq<int>, start: nat) returns (dot: int)
    requires start <= |a| == |b| <= MAX_LEN && Bounded(a, -0x8000, 0x7FFF) && Bounded(b, -0x8000, 0x7FFF)
    ensures dot == Sum(a, b, |a|) - Sum(a, b, start) && -0x1_FFFE_8000_0000 <= dot <= 0x1_FFFE_8000_0000
  {
    dot := 0;
    var i := start;
    SumFits(a, b, start);
    while i < |a|
      invariant start <= i <= |a|
      invariant dot == Sum(a, b, i) - Sum(a, b, start) && -0x1_FFFE_8000_0000 <= dot <= 0x1_FFFE_8000_0000
    {
      SumFits(a, b, i + 1);
      SumNext(a, b, i);
      WrapFits(dot + a[i] * b[i]);
      dot := Wrap64(dot + a[i] * b[i]);
      i := i + 1;
    }
  }

  lemma SumNext(a: seq<int>, b: seq<int>, i: nat)
    requires i < |a| && i < |b|
    ensures Sum(a, b, i + 1) == Sum(a, b, i) + a[i] * b[i]
  {
  }

  // Folding the four lanes wraps nowhere.
  lemma LaneFold(acc: Lanes4, n: nat)
    requires LanesWithin(acc, n * 0x8000_0000) && n <= 2 * MAX_LEN
    ensures Wrap64(Wrap64(acc[0] + acc[2]) + Wrap64(acc[1] + acc[3])) == Total4(acc)
    ensures -0x4_0000_0000_0000 <= Total4(acc) <= 0x4_0000_0000_0000
  {
    hide Wrap64;
    assert n * 0x8000_0000 <= 0xFFFF_0000_0000;
    SmallFits(acc[0], acc[2]);
    SmallFits(acc[1], acc[3]);
    SmallFits(acc[0] + acc[2], acc[1] + acc[3]);
  }

  // dot_i16_i16_avx2, up to the final rounding to f32. It is exact but for 2^32 lost per all-extreme pair
  // among those the chunks cover; no 64-bit lane ever wraps.
  method DotI16Avx2(a: seq<int>, b: seq<int>) returns (dot: int)
    requires |a| == |b| <= MAX_LEN && Bounded(a, -0x8000, 0x7FFF) && Bounded(b, -0x8000, 0x7FFF)
    ensures dot == Sum(a, b, |a|) - 0x1_0000_0000 * OverflowCount(a, b, |a| / 16 * 8)
    ensures dot == Sum(a, b, |a|) <==> OverflowCount(a, b, |a| / 16 * 8) == 0
  {
    hide *;
    var chunks := |a| / 16;
    var acc := ChunkLanes(a, b, chunks);
    LaneFold(acc, 2 * chunks);
    dot := Wrap64(Wrap64(acc[0] + acc[2]) + Wrap64(acc[1] + acc[3]));
    MaddTotalIsSum(a, b, 8 * chunks);
    dot := AddTail(a, b, 16 * chunks, dot);
  }

  // The chunk loop: 16 elements a turn, into four 64-bit lanes.
  method ChunkLanes(a: seq<int>, b: seq<int>, chunks: nat) returns (acc: Lanes4)
    requires 16 * chunks <= |a| == |b| <= MAX_LEN && Bounded(a, -0x8000, 0x7FFF) && Bounded(b, -0x8000, 0x7FFF)
    ensures LanesWithin(acc, 2 * chunks * 0x8000_0000) && Total4(acc) == MaddTotal(a, b, 8 * chunks)
  {
    acc := [0, 0, 0, 0];
    var c := 0;
    hide *;
    EmptyTotals(a, b);
    while c < chunks
      invariant 0 <= c <= chunks && 16 * chunks <= |a| == |b| <= MAX_LEN
      invariant LanesWithin(acc, 2 * c * 0x8000_0000)
      invariant Total4(acc) == MaddTotal(a, b, 8 * c)
    {
      AddWidenedTotal(acc, a, b, 8 * c, 2 * c);
      acc := AddWidened(acc, a, b, 8 * c);
      AddWidenedTotal(acc, a, b, 8 * c + 4, 2 * c + 1);
      acc := AddWidened(acc, a, b, 8 * c + 4);
      c := c + 1;
    }
  }

  // The elements past the last whole chunk, by the scalar loop.
  method AddTail(a: seq<int>, b: seq<int>, start: nat, dot0: int) returns (dot: int)
    requires start <= |a| == |b| <= MAX_LEN && Bounded(a, -0x8000, 0x7FFF) && Bounded(b, -0x8000, 0x7FFF)
    requires -0x4_0000_0000_0000 <= dot0 <= 0x4_0000_0000_0000
    ensures dot == dot0 + Sum(a, b, |a|) - Sum(a, b, start)
  {
    hide *;
    var tail := DotI16Scalar(a, b, start);
    SmallFits(dot0, tail);
    dot := Wrap64(dot0 + tail);
  }

  lemma SmallFits(x: int, y: int)
    requires -0x4_0000_0000_0000 <= x <= 0x4_0000_0000_0000 && -0x4_0000_0000_0000 <= y <= 0x4_0000_0000_0000
    ensures Wrap64(x + y) == x + y
  {
  }

  // On stored vectors, which never hold -32768, the kernel is the plain sum.
  method DotI16Stored(a: seq<int>, b: seq<int>) returns (dot: int)
    requires |a| == |b| <= MAX_LEN && Bounded(a, -0x7FFF, 0x7FFF) && Bounded(b, -0x7FFF, 0x7FFF)
    ensures dot == Sum(a, b, |a|)
  {
    dot := DotI16Avx2(a, b);
    NoOverflowBelow(a, b, |a| / 16 * 8);
  }

  // The bound is tight: one pair of -32768 operands on each side already loses 2^32.
  lemma ExtremePairOverflows(a: seq<int>, b: seq<int>)
    requires |a| == |b| == 16 && (forall i :: 0 <= i < 16 ==> a[i] == b[i] == if i < 2 then -0x8000 else 0)
    ensures OverflowCount(a, b, |a| / 16 * 8) == 1
  {
    assert OverflowCount(a, b, 1) == 1;
    forall n | 1 <= n <= 8 ensures OverflowCount(a, b, n) == 1 {
      OverflowRest(a, b, n);
    }
  }

  lemma {:induction false} OverflowRest(a: seq<int>, b: seq<int>, n: nat)
    requires |a| == |b| == 16 && (forall i :: 0 <= i < 16 ==> a[i] == b[i] == if i < 2 then -0x8000 else 0)
             && 1 <= n <= 8
    ensures OverflowCount(a, b, n) == 1
  {
    if n > 1 {
      OverflowRest(a, b, n - 1);
      assert a[2 * (n - 1)] == 0;
    } else {
      assert OverflowCount(a, b, 0) == 0;
    }
  }

  // ---- The int8 kernel ----

  function AddMadds(acc: Lanes8, a: seq<int>, b: seq<int>, p: nat): Lanes8
    requires 2 * (p + 8) <= |a| && 2 * (p + 8) <= |b|
  {
    [Wrap32(acc[0] + Madd(a, b, p)), Wrap32(acc[1] + Madd(a, b, p + 1)),
     Wrap32(acc[2] + Madd(a, b, p + 2)), Wrap32(acc[3] + Madd(a, b, p + 3)),
     Wrap32(acc[4] + Madd(a, b, p + 4)), Wrap32(acc[5] + Madd(a, b, p + 5)),
     Wrap32(acc[6] + Madd(a, b, p + 6)), Wrap32(acc[7] + Madd(a, b, p + 7))]
  }

  // A lane of int8 products, -128 included, is small and exact.
  lemma MaddLaneI8(a: seq<int>, b: seq<int>, p: nat)
    requires 2 * p + 1 < |a| && 2 * p + 1 < |b| && Bounded(a, -0x80, 0x7F) && Bounded(b, -0x80, 0x7F)
    ensures Madd(a, b, p) == PairSum(a, b, p) && -0x8000 <= Madd(a, b, p) <= 0x8000
  {
    ProductBound(a[2 * p], b[2 * p], 0x80);
    ProductBound(a[2 * p + 1], b[2 * p + 1], 0x80);
  }

  lemma LaneAddI8(x: int, y: int, n: nat)
    requires -(n * 0x8000) <= x <= n * 0x8000 && -0x8000 <= y <= 0x8000 && n <= MAX_LEN / 16
    ensures Wrap32(x + y) == x + y && -((n + 1) * 0x8000) <= x + y <= (n + 1) * 0x8000
  {
  }

  lemma AddMaddsTotal(acc: Lanes8, a: seq<int>, b: seq<int>, p: nat, n: nat)
    requires 2 * (p + 8) <= |a| && 2 * (p + 8) <= |b| && Bounded(a, -0x80, 0x7F) && Bounded(b, -0x80, 0x7F)
    requires LanesWithin(acc, n * 0x8000) && n <= MAX_LEN / 16
    ensures LanesWithin(AddMadds(acc, a, b, p), (n + 1) * 0x8000)
    ensures Total8(AddMadds(acc, a, b, p)) == Total8(acc) + (MaddTotal(a, b, p + 8) - MaddTotal(a, b, p))
  {
    hide Madd, MaddTotal, Wrap32, Bounded, PairSum;
    MaddFour(a, b, p);
    MaddFour(a, b, p + 4);
    var acc' := AddMadds(acc, a, b, p);
    forall l | 0 <= l < 8
      ensures acc'[l] == acc[l] + Madd(a, b, p + l) && -((n + 1) * 0x8000) <= acc'[l] <= (n + 1) * 0x8000 {
      MaddLaneI8(a, b, p + l);
      LaneAddI8(acc[l], Madd(a, b, p + l), n);
    }
  }

  lemma {:induction false} MaddTotalIsSumI8(a: seq<int>, b: seq<int>, n: nat)
    requires 2 * n <= |a| && 2 * n <= |b| && Bounded(a, -0x80, 0x7F) && Bounded(b, -0x80, 0x7F)
    ensures MaddTotal(a, b, n) == Sum(a, b, 2 * n)
  {
    if n > 0 {
      MaddTotalIsSumI8(a, b, n - 1);
      MaddLaneI8(a, b, n - 1);
      assert Sum(a, b, 2 * n) == Sum(a, b, 2 * n - 2) + PairSum(a, b, n - 1);
    }
  }

  lemma SumFitsI8(a: seq<int>, b: seq<int>, n: nat)
    requires n <= |a| && n <= |b| && n <= MAX_LEN && Bounded(a, -0x80, 0x7F) && Bounded(b, -0x80, 0x7F)
    ensures Fits32(Sum(a, b, n))
  {
    SumBound(a, b, n, 0x80);
    assert n * (0x80 * 0x80) <= 0xFFFF * 0x4000;
  }

  // The horizontal fold: halves, then quarters, then the last two lanes.
  function FoldLanes(acc: Lanes8): int {
    var s0, s1, s2, s3 :=
      Wrap32(acc[0] + acc[4]), Wrap32(acc[1] + acc[5]), Wrap32(acc[2] + acc[6]), Wrap32(acc[3] + acc[7]);
    var t0, t1 := Wrap32(s0 + s2), Wrap32(s1 + s3);
    Wrap32(t0 + t1)
  }

  lemma FoldAdd(x: int, y: int)
    requires -0x2000_0000 <= x <= 0x2000_0000 && -0x2000_0000 <= y <= 0x2000_0000
    ensures Wrap32(x + y) == x + y
  {
  }

  lemma FoldIsTotal(acc: Lanes8, n: nat)
    requires LanesWithin(acc, n * 0x8000) && n <= MAX_LEN / 16
    ensures FoldLanes(acc) == Total8(acc)
  {
    hide Wrap32;
    assert n * 0x8000 <= 0x800_0000;
    FoldAdd(acc[0], acc[4]);
    FoldAdd(acc[1], acc[5]);
    FoldAdd(acc[2], acc[6]);
    FoldAdd(acc[3], acc[7]);
    FoldAdd(acc[0] + acc[4], acc[2] + acc[6]);
    FoldAdd(acc[1] + acc[5], acc[3] + acc[7]);
    FoldAdd(acc[0] + acc[4] + (acc[2] + acc[6]), acc[1] + acc[5] + (acc[3] + acc[7]));
  }

  // dot_i8_i8_avx2 is the plain sum, -128 operands included: no 32-bit lane, fold or tail step wraps.
  method DotI8Avx2(a: seq<int>, b: seq<int>) returns (dot: int)
    requires |a| == |b| <= MAX_LEN && Bounded(a, -0x80, 0x7F) && Bounded(b, -0x80, 0x7F)
    ensures dot == Sum(a, b, |a|) && Fits32(dot)
  {
    hide *;
    var chunks := |a| / 16;
    var acc := ChunkLanesI8(a, b, chunks);
    FoldIsTotal(acc, chunks);
    dot := FoldLanes(acc);
    MaddTotalIsSumI8(a, b, 8 * chunks);
    dot := DotI8Scalar(a, b, chunks * 16, dot);
  }

  method ChunkLanesI8(a: seq<int>, b: seq<int>, chunks: nat) returns (acc: Lanes8)
    requires 16 * chunks <= |a| == |b| <= MAX_LEN && Bounded(a, -0x80, 0x7F) && Bounded(b, -0x80, 0x7F)
    ensures LanesWithin(acc, chunks * 0x8000) && Total8(acc) == MaddTotal(a, b, 8 * chunks)
  {
    acc := [0, 0, 0, 0, 0, 0, 0, 0];
    var c := 0;
    EmptyTotals8(a, b);
    hide *;
    while c < chunks
      invariant 0 <= c <= chunks
      invariant LanesWithin(acc, c * 0x8000)
      invariant Total8(acc) == MaddTotal(a, b, 8 * c)
    {
      AddMaddsTotal(acc, a, b, 8 * c, c);
      acc := AddMadds(acc, a, b, 8 * c);
      c := c + 1;
    }
  }

  // The scalar loop in 32 bits: dot_i8_i8_scalar from 0, the chunked kernel's tail from its last whole chunk.
  method DotI8Scalar(a: seq<int>, b: seq<int>, start: nat, dot0: int) returns (dot: int)
    requires start <= |a| == |b| <= MAX_LEN && Bounded(a, -0x80, 0x7F) && Bounded(b, -0x80, 0x7F)
    requires dot0 == Sum(a, b, start)
    ensures dot == Sum(a, b, |a|) && Fits32(dot)
  {
    dot := dot0;
    var i := start;
    hide *;
    SumFitsI8(a, b, i);
    while i < |a|
      invariant start <= i <= |a|
      invariant dot == Sum(a, b, i) && Fits32(dot)
    {
      SumFitsI8(a, b, i + 1);
      SumNext(a, b, i);
      WrapFits(dot + a[i] * b[i]);
      dot := Wrap32(dot + a[i] * b[i]);
      i := i + 1;
    }
  }

  lemma EmptyTotals8(a: seq<int>, b: seq<int>)
    ensures Total8([0, 0, 0, 0, 0, 0, 0, 0]) == MaddTotal(a, b, 0) && LanesWithin([0, 0, 0, 0, 0, 0, 0, 0], 0)
  {
  }

  // ---- Quantization, over exact reals ----

  function Abs(x: real): real {
    if x >= 0.0 then x else -x
  }

  // Round half away from zero.
  function Round(x: real): int {
    if x >= 0.0 then (x + 0.5).Floor else -((-x + 0.5).Floor)
  }

  function Clamp(x: int, limit: int): int {
    if x > limit then limit else if x < -limit then -limit else x
  }

  lemma RoundNear(x: real)
    ensures -0.5 <= x - Round(x) as real <= 0.5
  {
  }

  // The largest magnitude, as fold computes it.
  method MaxAbs(v: seq<real>) returns (m: real)
    ensures m >= 0.0 && forall i :: 0 <= i < |v| ==> Abs(v[i]) <= m
    ensures m > 0.0 ==> exists i :: 0 <= i < |v| && Abs(v[i]) == m
  {
    m := 0.0;
    var i := 0;
    while i < |v|
      invariant 0 <= i <= |v| && m >= 0.0
      invariant forall j :: 0 <= j < i ==> Abs(v[j]) <= m
      invariant m > 0.0 ==> exists j :: 0 <= j < i && Abs(v[j]) == m
    {
      if Abs(v[i]) > m {
        m := Abs(v[i]);
      }
      i := i + 1;
    }
  }

  // quantize: the scale sends the largest component to the limit; every component lands within half a scale
  // step of its value and never past the limit, so int16 output never holds -32768.
  method Quantize(v: seq<real>, limit: int) returns (q: seq<int>, scale: real)
    requires limit > 0
    ensures |q| == |v| && scale > 0.0
    ensures forall i :: 0 <= i < |v| ==> Quantized(v[i], q[i], limit, scale)
    ensures Bounded(q, -limit, limit)
    ensures if AllZero(v) then scale == 1.0 else exists i :: 0 <= i < |v| && Abs(v[i]) == Scaled(limit as real, scale)
  {
    var maxAbs := MaxAbs(v);
    TopIsLimit(v, maxAbs, limit);
    scale := if maxAbs == 0.0 then 1.0 else maxAbs / limit as real;
    ScaleFits(maxAbs, limit, scale);
    q := [];
    var i := 0;
    hide *;
    while i < |v|
      invariant 0 <= i <= |v| && |q| == i
      invariant forall j :: 0 <= j < i ==> Quantized(v[j], q[j], limit, scale)
    {
      UnscaleInverse(v[i], scale);
      QuantizeOne(v[i], Unscale(v[i], scale), limit, scale);
      q := q + [Clamp(Round(Unscale(v[i], scale)), limit)];
      i := i + 1;
    }
    AllWithinLimit(v, q, limit, scale);
  }

  predicate AllZero(v: seq<real>) {
    forall i :: 0 <= i < |v| ==> v[i] == 0.0
  }

  // The scale takes the limit to the largest magnitude.
  lemma TopIsLimit(v: seq<real>, maxAbs: real, limit: int)
    requires limit > 0 && maxAbs >= 0.0 && forall i :: 0 <= i < |v| ==> Abs(v[i]) <= maxAbs
    requires maxAbs > 0.0 ==> exists i :: 0 <= i < |v| && Abs(v[i]) == maxAbs
    ensures AllZero(v) <==> maxAbs == 0.0
    ensures maxAbs > 0.0 ==> exists i :: 0 <= i < |v| && Abs(v[i]) == Scaled(limit as real, maxAbs / limit as real)
  {
    if maxAbs > 0.0 {
      assert Scaled(limit as real, maxAbs / limit as real) == maxAbs;
      var i :| 0 <= i < |v| && Abs(v[i]) == maxAbs;
      assert v[i] != 0.0;
    }
  }

  function Unscale(v: real, scale: real): real
    requires scale > 0.0
  {
    v * (1.0 / scale)
  }

  lemma UnscaleInverse(v: real, scale: real)
    requires scale > 0.0
    ensures Scaled(Unscale(v, scale), scale) == v
  {
  }

  lemma AllWithinLimit(v: seq<real>, q: seq<int>, limit: int, scale: real)
    requires |q| == |v| && forall i :: 0 <= i < |v| ==> Quantized(v[i], q[i], limit, scale)
    ensures Bounded(q, -limit, limit)
  {
    forall j | 0 <= j < |q| ensures -limit <= q[j] <= limit {
      assert Quantized(v[j], q[j], limit, scale);
      WithinLimit(v[j], q[j], limit, scale);
    }
  }

  lemma WithinLimit(v: real, q: int, limit: int, scale: real)
    requires Quantized(v, q, limit, scale)
    ensures -limit <= q <= limit
  {
  }

  lemma ScaleFits(maxAbs: real, limit: int, scale: real)
    requires limit > 0 && maxAbs >= 0.0 && scale == if maxAbs == 0.0 then 1.0 else maxAbs / limit as real
    ensures scale > 0.0 && maxAbs <= Scaled(limit as real, scale)
  {
  }

  // A code's value: the code times the scale.
  function Scaled(x: real, scale: real): real {
    x * scale
  }

  predicate Quantized(v: real, q: int, limit: int, scale: real) {
    && -limit <= q <= limit && Abs(v - Scaled(q as real, scale)) <= scale / 2.0
    && (Abs(v) == Scaled(limit as real, scale) ==> q == if v > 0.0 then limit else -limit)
  }

  lemma QuantizeOne(v: real, x: real, limit: int, scale: real)
    requires limit > 0 && scale > 0.0 && Abs(v) <= Scaled(limit as real, scale) && Scaled(x, scale) == v
    ensures Quantized(v, Clamp(Round(x), limit), limit, scale)
  {
    ScaledOrder(v, x, limit as real, scale);
    Rounded(x, limit);
    StepError(v, x, Round(x) as real, scale);
    hide Scaled, Round;
  }

  // Rounding stays within the limit, is off by half at most, and leaves the limit itself alone.
  lemma Rounded(x: real, limit: int)
    requires limit > 0 && -(limit as real) <= x <= limit as real
    ensures Clamp(Round(x), limit) == Round(x) && -limit <= Round(x) <= limit
    ensures -0.5 <= x - Round(x) as real <= 0.5
    ensures x == limit as real ==> Round(x) == limit
    ensures x == -(limit as real) ==> Round(x) == -limit
  {
    RoundNear(x);
    var q := Round(x);
    hide Round;
    assert q as real <= limit as real + 0.5 && q as real >= -(limit as real) - 0.5;
  }

  // Dividing by the scale keeps order with the limits.
  lemma ScaledOrder(v: real, x: real, top: real, scale: real)
    requires scale > 0.0 && top > 0.0 && Scaled(x, scale) == v && Abs(v) <= Scaled(top, scale)
    ensures -top <= x <= top
    ensures Abs(v) == Scaled(top, scale) ==> x == if v > 0.0 then top else -top
  {
    ScaledLess(x, top, scale);
    ScaledLess(top, x, scale);
    ScaledLess(x, -top, scale);
    ScaledLess(-top, x, scale);
    ScaledSign(top, scale);
    hide Scaled;
  }

  lemma ScaledLess(x: real, y: real, scale: real)
    requires scale > 0.0
    ensures x < y ==> Scaled(x, scale) < Scaled(y, scale)
  {
    if x < y {
      Positive(y - x, scale);
      Expand(y, x, scale);
    }
  }

  lemma ScaledSign(x: real, scale: real)
    requires x > 0.0 && scale > 0.0
    ensures Scaled(-x, scale) == -Scaled(x, scale) && Scaled(x, scale) > 0.0
  {
    Expand(0.0, x, scale);
    Positive(x, scale);
  }

  lemma Expand(x: real, y: real, scale: real)
    ensures (x - y) * scale == x * scale - y * scale
    ensures -y * scale == -(y * scale)
  {
  }

  lemma StepError(v: real, x: real, q: real, scale: real)
    requires scale > 0.0 && Scaled(x, scale) == v && -0.5 <= x - q <= 0.5
    ensures Abs(v - Scaled(q, scale)) <= scale / 2.0
  {
    HalfStep(x - q, scale);
    Expand(x, q, scale);
  }

  lemma Positive(x: real, y: real)
    requires x > 0.0 && y > 0.0
    ensures x * y > 0.0
  {
  }

  lemma NonNegative(x: real, y: real)
    requires x >= 0.0 && y >= 0.0
    ensures x * y >= 0.0
  {
  }

  lemma HalfStep(e: real, scale: real)
    requires -0.5 <= e <= 0.5 && scale > 0.0
    ensures Abs(e * scale) <= scale / 2.0
  {
    NonNegative(0.5 - e, scale);
    NonNegative(0.5 + e, scale);
    Expand(0.5, e, scale);
    Expand(0.5, -e, scale);
    Expand(0.0, e, scale);
  }

  // int16_bytes_in_domain: the stored bytes hold no -32768.
  function FromLe(low: int, high: int): int
    requires 0 <= low < 256 && 0 <= high < 256
  {
    var u := low + 256 * high;
    if u < 0x8000 then u else u - 0x1_0000
  }

  function LowByte(x: int): int {
    x % 256
  }

  function HighByte(x: int): int {
    (x / 256) % 256
  }

  lemma LeRoundTrip(x: int)
    requires -0x8000 <= x < 0x8000
    ensures FromLe(LowByte(x), HighByte(x)) == x
  {
  }

  function Bytes(q: seq<int>): seq<int> {
    seq(2 * |q|, i requires 0 <= i < 2 * |q| => if i % 2 == 0 then LowByte(q[i / 2]) else HighByte(q[i / 2]))
  }

  method BytesInDomain(bytes: seq<int>) returns (ok: bool)
    requires forall i :: 0 <= i < |bytes| ==> 0 <= bytes[i] < 256
    ensures ok <==> forall k :: 0 <= k < |bytes| / 2 ==> FromLe(bytes[2 * k], bytes[2 * k + 1]) != -0x8000
  {
    var k := 0;
    while k < |bytes| / 2
      invariant 0 <= k <= |bytes| / 2
      invariant forall j :: 0 <= j < k ==> FromLe(bytes[2 * j], bytes[2 * j + 1]) != -0x8000
    {
      if FromLe(bytes[2 * k], bytes[2 * k + 1]) == -0x8000 {
        return false;
      }
      k := k + 1;
    }
    return true;
  }

  // What the quantizer stores passes the domain check, and the kernel reads back the very values quantized.
  lemma StoredBytesInDomain(q: seq<int>)
    requires Bounded(q, -0x7FFF, 0x7FFF)
    ensures forall k :: 0 <= k < |q| ==> FromLe(Bytes(q)[2 * k], Bytes(q)[2 * k + 1]) == q[k] != -0x8000
  {
    forall k | 0 <= k < |q| ensures FromLe(Bytes(q)[2 * k], Bytes(q)[2 * k + 1]) == q[k] {
      LeRoundTrip(q[k]);
    }
  }
}
