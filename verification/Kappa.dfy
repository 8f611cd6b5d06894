/**
 * Cohen's kappa (`cohenKappa` and `ordinalCohenKappa`, evals/sprint-b-bench.ts).
 *
 * The source counts a confusion matrix and its marginals. `KappaOf` is a reference
 * definition that has no matrix: one minus the ratio between the mean squared
 * distance of the paired ratings and the mean squared distance over *all* pairs
 * of one rating by each judge. Both methods are proved to compute it, so both
 * inherit the range, the symmetry and the exact condition for a perfect score.
 */
module Kappa {
  import opened Wrappers
  import opened Arithmetic

  // ---- The reference definition ------------------------------------------------

  /** Sum of (a[k] - b[k])^2 over the paired ratings. */
  function PairedDistance(a: seq<int>, b: seq<int>): int
    requires |a| == |b|
  {
    if a == [] then 0
    else
      var m := |a| - 1;
      PairedDistance(a[..m], b[..m]) + (a[m] - b[m]) * (a[m] - b[m])
  }

  /** Sum of (x - b[l])^2 over all ratings of `b`. */
  function PointDistance(x: int, b: seq<int>): int {
    if b == [] then 0
    else
      var m := |b| - 1;
      PointDistance(x, b[..m]) + (x - b[m]) * (x - b[m])
  }

  /** Sum of (a[k] - b[l])^2 over all pairs of ratings. */
  function CrossDistance(a: seq<int>, b: seq<int>): int {
    if a == [] then 0
    else CrossDistance(a[..|a| - 1], b) + PointDistance(a[|a| - 1], b)
  }

  function KappaOf(a: seq<int>, b: seq<int>): real
    requires |a| == |b|
  {
    KappaRatio(|a|, PairedDistance(a, b), CrossDistance(a, b))
  }

  function KappaRatio(n: int, paired: int, cross: int): real {
    if cross == 0 then 1.0 else 1.0 - Scale(n, paired) as real / cross as real
  }

  function Scale(n: int, x: int): int {
    n * x
  }

  // ---- Range, symmetry and perfect agreement -----------------------------------

  function Sum(a: seq<int>): int {
    if a == [] then 0 else Sum(a[..|a| - 1]) + a[|a| - 1]
  }

  function SumOfSquares(a: seq<int>): int {
    if a == [] then 0 else SumOfSquares(a[..|a| - 1]) + a[|a| - 1] * a[|a| - 1]
  }

  function Added(a: seq<int>, b: seq<int>): seq<int>
    requires |a| == |b|
  {
    seq(|a|, k requires 0 <= k < |a| => a[k] + b[k])
  }

  lemma {:induction false} PointDistanceExpand(x: int, b: seq<int>)
    ensures PointDistance(x, b) == |b| * x * x + SumOfSquares(b) - 2 * x * Sum(b)
    ensures PointDistance(x, b) >= 0
    ensures PointDistance(x, b) == 0 <==> forall l | 0 <= l < |b| :: b[l] == x
  {
    if b != [] {
      var m := |b| - 1;
      PointDistanceExpand(x, b[..m]);
      PointStep(m, x, b[m], Sum(b[..m]), SumOfSquares(b[..m]));
      assert (forall l | 0 <= l < |b| :: b[l] == x) <==> (forall l | 0 <= l < m :: b[..m][l] == x) && b[m] == x;
    }
  }

  lemma PointStep(m: int, x: int, y: int, s: int, q: int)
    ensures (m + 1) * x * x + (q + y * y) - 2 * x * (s + y) == (m * x * x + q - 2 * x * s) + (x - y) * (x - y)
    ensures (x - y) * (x - y) >= 0
    ensures (x - y) * (x - y) == 0 <==> x == y
  {
  }

  /** The squared distances between n and m values, from their sums and sums of squares. */
  function Spread(n: int, sa: int, qa: int, m: int, sb: int, qb: int): int {
    n * qb + m * qa - 2 * (sa * sb)
  }

  lemma {:induction false} CrossDistanceExpand(a: seq<int>, b: seq<int>)
    ensures CrossDistance(a, b) == Spread(|a|, Sum(a), SumOfSquares(a), |b|, Sum(b), SumOfSquares(b))
    ensures CrossDistance(a, b) >= 0
    ensures CrossDistance(a, b) == 0 <==> forall k, l | 0 <= k < |a| && 0 <= l < |b| :: a[k] == b[l]
  {
    if a != [] {
      var m := |a| - 1;
      var t, x := a[..m], a[m];
      CrossDistanceExpand(t, b);
      PointDistanceExpand(x, b);
      CrossStep(m, |b|, Sum(t), SumOfSquares(t), x, Sum(b), SumOfSquares(b));
      assert (forall k, l | 0 <= k < |a| && 0 <= l < |b| :: a[k] == b[l])
        <==> (forall k, l | 0 <= k < m && 0 <= l < |b| :: t[k] == b[l]) && (forall l | 0 <= l < |b| :: b[l] == x);
    }
  }

  lemma CrossStep(m: int, nb: int, st: int, qt: int, x: int, sb: int, qb: int)
    ensures Spread(m + 1, st + x, qt + x * x, nb, sb, qb)
      == Spread(m, st, qt, nb, sb, qb) + (nb * x * x + qb - 2 * x * sb)
  {
  }

  lemma {:induction false} PairedDistanceExpand(a: seq<int>, b: seq<int>)
    requires |a| == |b|
    ensures PairedDistance(a, b) == 2 * SumOfSquares(a) + 2 * SumOfSquares(b) - SumOfSquares(Added(a, b))
    ensures Sum(Added(a, b)) == Sum(a) + Sum(b)
    ensures PairedDistance(a, b) == PairedDistance(b, a) >= 0
    ensures PairedDistance(a, b) == 0 <==> a == b
  {
    if a != [] {
      var m := |a| - 1;
      PairedDistanceExpand(a[..m], b[..m]);
      assert Added(a, b)[..m] == Added(a[..m], b[..m]);
      PairStep(a[m], b[m]);
      assert a == b <==> a[..m] == b[..m] && a[m] == b[m] by {
        assert a == a[..m] + [a[m]] && b == b[..m] + [b[m]];
      }
    }
  }

  lemma PairStep(x: int, y: int)
    ensures (x - y) * (x - y) == (y - x) * (y - x) == 2 * (x * x) + 2 * (y * y) - (x + y) * (x + y)
    ensures (x - y) * (x - y) >= 0
    ensures (x - y) * (x - y) == 0 <==> x == y
  {
  }

  /**
   * The paired distance, scaled to all pairs, is at most twice the cross distance, and reaches
   * it exactly when the added ratings are constant and the sums agree.
   */
  lemma {:induction false} DistanceBound(a: seq<int>, b: seq<int>)
    requires |a| == |b|
    ensures 0 <= Scale(|a|, PairedDistance(a, b)) <= 2 * CrossDistance(a, b)
    ensures Scale(|a|, PairedDistance(a, b)) == 2 * CrossDistance(a, b) <==> Sum(a) == Sum(b) && ConstantSum(a, b)
  {
    var c := Added(a, b);
    var paired, cross, crossC := PairedDistance(a, b), CrossDistance(a, b), CrossDistance(c, c);
    assert cross == Spread(|a|, Sum(a), SumOfSquares(a), |a|, Sum(b), SumOfSquares(b)) by {
      CrossDistanceExpand(a, b);
    }
    PairedDistanceExpand(a, b);
    AddedSpread(a, b);
    BoundStep(|a|, Sum(a), Sum(b), Sum(c), SumOfSquares(a), SumOfSquares(b), SumOfSquares(c), paired, cross, crossC);
  }

  ghost predicate ConstantSum(a: seq<int>, b: seq<int>)
    requires |a| == |b|
  {
    forall k, l | 0 <= k < |a| && 0 <= l < |a| :: a[k] + b[k] == a[l] + b[l]
  }

  lemma {:induction false} AddedSpread(a: seq<int>, b: seq<int>)
    requires |a| == |b|
    ensures var c := Added(a, b);
      && CrossDistance(c, c) == Spread(|a|, Sum(c), SumOfSquares(c), |a|, Sum(c), SumOfSquares(c)) >= 0
      && (CrossDistance(c, c) == 0 <==> ConstantSum(a, b))
  {
    var c := Added(a, b);
    CrossDistanceExpand(c, c);
    assert forall k | 0 <= k < |a| :: c[k] == a[k] + b[k];
  }

  lemma BoundStep(n: nat, sa: int, sb: int, sc: int, qa: int, qb: int, qc: int, paired: int, cross: int, crossC: int)
    requires paired == 2 * qa + 2 * qb - qc && paired >= 0 && cross == Spread(n, sa, qa, n, sb, qb)
    requires crossC == Spread(n, sc, qc, n, sc, qc) && crossC >= 0 && sc == sa + sb
    ensures 0 <= Scale(n, paired) <= 2 * cross
    ensures Scale(n, paired) == 2 * cross <==> crossC == 0 && sa == sb
  {
    var gap := (sa - sb) * (sa - sb);
    SquareIsZero(sa - sb);
    assert n * (2 * qa + 2 * qb - qc) == 2 * (n * qa) + 2 * (n * qb) - n * qc;
    assert (sa + sb) * (sa + sb) == 4 * (sa * sb) + gap;
    assert 2 * (2 * cross - Scale(n, paired)) == crossC + 2 * gap;
  }

  lemma SquareIsZero(d: int)
    ensures d * d >= 0
    ensures d * d == 0 <==> d == 0
  {
  }

  /** What the bound says about the ratio, and when the ratio is at either end. */
  lemma RatioBounds(n: int, paired: int, cross: int)
    requires 0 <= Scale(n, paired) <= 2 * cross
    ensures -1.0 <= KappaRatio(n, paired, cross) <= 1.0
    ensures KappaRatio(n, paired, cross) == 1.0 <==> Scale(n, paired) == 0
    ensures KappaRatio(n, paired, cross) == -1.0 <==> cross != 0 && Scale(n, paired) == 2 * cross
  {
    if cross != 0 {
      QuotientOrder(Scale(n, paired) as real, cross as real, 0.0);
      QuotientOrder(Scale(n, paired) as real, cross as real, 2.0);
    }
  }

  lemma {:induction false} KappaRangeAndSymmetry(a: seq<int>, b: seq<int>)
    requires |a| == |b|
    ensures -1.0 <= KappaOf(a, b) <= 1.0
    ensures KappaOf(a, b) == KappaOf(b, a)
  {
    DistanceBound(a, b);
    RatioBounds(|a|, PairedDistance(a, b), CrossDistance(a, b));
    CrossIsSymmetric(a, b);
    PairedDistanceExpand(a, b);
  }

  lemma {:induction false} CrossIsSymmetric(a: seq<int>, b: seq<int>)
    requires |a| == |b|
    ensures CrossDistance(a, b) == CrossDistance(b, a)
  {
    CrossDistanceExpand(a, b);
    CrossDistanceExpand(b, a);
    SymmetricFormula(|a|, Sum(a), Sum(b), SumOfSquares(a), SumOfSquares(b));
  }

  lemma SymmetricFormula(n: int, sa: int, sb: int, qa: int, qb: int)
    ensures Spread(n, sa, qa, n, sb, qb) == Spread(n, sb, qb, n, sa, qa)
  {
  }

  /** Kappa is 1 exactly when the judges give every item the same rating. */
  lemma {:induction false} KappaPerfect(a: seq<int>, b: seq<int>)
    requires |a| == |b| > 0
    ensures KappaOf(a, b) == 1.0 <==> a == b
  {
    DistanceBound(a, b);
    RatioBounds(|a|, PairedDistance(a, b), CrossDistance(a, b));
    PairedDistanceExpand(a, b);
    ScaleIsZero(|a|, PairedDistance(a, b));
  }

  lemma ScaleIsZero(n: int, x: int)
    requires n > 0
    ensures Scale(n, x) == 0 <==> x == 0
  {
  }

  /**
   * Kappa is -1 exactly when every item gets the same two ratings added up, both judges give
   * the same sum of ratings, and not all ratings are one and the same.
   */
  lemma {:induction false} KappaOpposite(a: seq<int>, b: seq<int>)
    requires |a| == |b|
    ensures KappaOf(a, b) == -1.0 <==>
      && Sum(a) == Sum(b) && ConstantSum(a, b)
      && !(forall k, l | 0 <= k < |a| && 0 <= l < |b| :: a[k] == b[l])
  {
    ZeroDenominator(a, b);
    DistanceBound(a, b);
    RatioBounds(|a|, PairedDistance(a, b), CrossDistance(a, b));
  }

  /**
   * The early `return 1`: the denominator vanishes exactly when every rating of both
   * judges is one and the same, and then there is no disagreement to divide.
   */
  lemma {:induction false} ZeroDenominator(a: seq<int>, b: seq<int>)
    requires |a| == |b|
    ensures CrossDistance(a, b) == 0 <==> forall k, l | 0 <= k < |a| && 0 <= l < |b| :: a[k] == b[l]
    ensures CrossDistance(a, b) == 0 ==> PairedDistance(a, b) == 0
  {
    CrossDistanceExpand(a, b);
    PairedDistanceExpand(a, b);
  }

  // ---- Confusion counts -----------------------------------------------------------

  function Count(a: seq<int>, i: int): nat {
    if a == [] then 0 else Count(a[..|a| - 1], i) + if a[|a| - 1] == i then 1 else 0
  }

  function PairCount(a: seq<int>, b: seq<int>, i: int, j: int): nat
    requires |a| == |b|
  {
    if a == [] then 0
    else
      var m := |a| - 1;
      PairCount(a[..m], b[..m], i, j) + if a[m] == i && b[m] == j then 1 else 0
  }

  predicate Ratings(a: seq<int>) {
    forall k | 0 <= k < |a| :: 0 <= a[k] < 3
  }

  lemma {:induction false} Marginals(a: seq<int>, b: seq<int>, i: int)
    requires |a| == |b| && Ratings(a) && Ratings(b)
    ensures PairCount(a, b, i, 0) + PairCount(a, b, i, 1) + PairCount(a, b, i, 2) == Count(a, i)
    ensures PairCount(a, b, 0, i) + PairCount(a, b, 1, i) + PairCount(a, b, 2, i) == Count(b, i)
    ensures Count(a, 0) + Count(a, 1) + Count(a, 2) == |a|
  {
    if a != [] {
      var m := |a| - 1;
      Marginals(a[..m], b[..m], i);
    }
  }

  lemma {:induction false} PairedDistanceByCounts(a: seq<int>, b: seq<int>)
    requires |a| == |b| && Ratings(a) && Ratings(b)
    ensures PairedDistance(a, b)
         == PairCount(a, b, 0, 1) + PairCount(a, b, 1, 0) + PairCount(a, b, 1, 2) + PairCount(a, b, 2, 1)
            + 4 * PairCount(a, b, 0, 2) + 4 * PairCount(a, b, 2, 0)
  {
    if a != [] {
      var m := |a| - 1;
      PairedDistanceByCounts(a[..m], b[..m]);
    }
  }

  lemma {:induction false} PointDistanceByCounts(x: int, b: seq<int>)
    requires Ratings(b) && 0 <= x < 3
    ensures PointDistance(x, b) == PointOf(x, Count(b, 0), Count(b, 1), Count(b, 2))
  {
    if b != [] {
      PointDistanceByCounts(x, b[..|b| - 1]);
    }
  }

  /** The cross distance of judges with the given numbers of ratings 0, 1 and 2. */
  function CrossOf(a0: int, a1: int, a2: int, b0: int, b1: int, b2: int): int {
    a0 * (b1 + 4 * b2) + a1 * (b0 + b2) + a2 * (b1 + 4 * b0)
  }

  function PointOf(x: int, b0: int, b1: int, b2: int): int {
    if x == 0 then b1 + 4 * b2 else if x == 1 then b0 + b2 else b1 + 4 * b0
  }

  function Hit(x: int, i: int): int {
    if x == i then 1 else 0
  }

  lemma CrossOfStep(x: int, a0: int, a1: int, a2: int, b0: int, b1: int, b2: int)
    requires 0 <= x < 3
    ensures CrossOf(a0 + Hit(x, 0), a1 + Hit(x, 1), a2 + Hit(x, 2), b0, b1, b2)
      == CrossOf(a0, a1, a2, b0, b1, b2) + PointOf(x, b0, b1, b2)
  {
  }

  lemma {:induction false} CrossDistanceByCounts(a: seq<int>, b: seq<int>)
    requires Ratings(a) && Ratings(b)
    ensures CrossDistance(a, b)
         == CrossOf(Count(a, 0), Count(a, 1), Count(a, 2), Count(b, 0), Count(b, 1), Count(b, 2))
  {
    if a != [] {
      var t, x := a[..|a| - 1], a[|a| - 1];
      CrossDistanceByCounts(t, b);
      PointDistanceByCounts(x, b);
      CrossOfStep(x, Count(t, 0), Count(t, 1), Count(t, 2), Count(b, 0), Count(b, 1), Count(b, 2));
      assert forall i :: Count(a, i) == Count(t, i) + Hit(x, i);
    }
  }

  // ---- The matrix algorithm ---------------------------------------------------------

  function Bin(v: real, t0: real, t1: real): int {
    if v < t0 then 0 else if v < t1 then 1 else 2
  }

  function Bins(scores: seq<real>, t0: real, t1: real): seq<int>
  {
    seq(|scores|, k requires 0 <= k < |scores| => Bin(scores[k], t0, t1))
  }

  // ---- Which bin a score falls in ------------------------------------------------------

  /** The level of a score: how many of the cuts it reaches. */
  function Level(v: real, cuts: seq<real>): nat {
    if cuts == [] then 0 else Level(v, cuts[..|cuts| - 1]) + if v >= cuts[|cuts| - 1] then 1 else 0
  }

  function Levels(scores: seq<real>, cuts: seq<real>): seq<int>
  {
    seq(|scores|, k requires 0 <= k < |scores| => Level(scores[k], cuts))
  }

  lemma {:induction false} OneCut(v: real, t: real)
    ensures Level(v, [t]) == if v >= t then 1 else 0
  {
    assert [t][..0] == [];
    assert Level(v, []) == 0;
  }

  /** The bin of a score is its level, unless the thresholds are swapped and the score lies between them. */
  lemma {:induction false} BinIsLevelExactly(v: real, t0: real, t1: real)
    ensures Bin(v, t0, t1) == Level(v, [t0, t1]) <==> !(t1 <= v < t0)
  {
    assert [t0, t1][..1] == [t0];
    OneCut(v, t0);
  }

  /** A higher score never falls in a lower bin, whatever the thresholds. */
  lemma BinRises(v: real, w: real, t0: real, t1: real)
    requires v <= w
    ensures 0 <= Bin(v, t0, t1) <= Bin(w, t0, t1) <= 2
  {
  }

  lemma BinsAreLevels(scores: seq<real>, t0: real, t1: real)
    requires t0 <= t1
    ensures Bins(scores, t0, t1) == Levels(scores, [t0, t1])
  {
    forall k | 0 <= k < |scores|
      ensures Bin(scores[k], t0, t1) == Level(scores[k], [t0, t1])
    {
      BinIsLevelExactly(scores[k], t0, t1);
    }
  }

  lemma BitsAreLevels(scores: seq<real>)
    ensures Bits(scores) == Levels(scores, [0.5])
  {
    forall k | 0 <= k < |scores|
      ensures Bits(scores)[k] == Level(scores[k], [0.5])
    {
      OneCut(scores[k], 0.5);
    }
  }

  /** How many cuts lie between two scores: one reaches them and the other does not. */
  function CutsBetween(v: real, w: real, cuts: seq<real>): nat {
    if cuts == [] then 0
    else
      var t := cuts[|cuts| - 1];
      CutsBetween(v, w, cuts[..|cuts| - 1]) + if (v >= t) != (w >= t) then 1 else 0
  }

  lemma {:induction false} LevelGap(v: real, w: real, cuts: seq<real>)
    ensures v <= w ==> Level(w, cuts) - Level(v, cuts) == CutsBetween(v, w, cuts)
    ensures w <= v ==> Level(v, cuts) - Level(w, cuts) == CutsBetween(v, w, cuts)
  {
    if cuts != [] {
      LevelGap(v, w, cuts[..|cuts| - 1]);
    }
  }

  function SquaredCutsBetween(a: seq<real>, b: seq<real>, cuts: seq<real>): int
    requires |a| == |b|
  {
    if a == [] then 0
    else
      var m := |a| - 1;
      SquaredCutsBetween(a[..m], b[..m], cuts) + CutsBetween(a[m], b[m], cuts) * CutsBetween(a[m], b[m], cuts)
  }

  /** The observed disagreement weighs each item by the square of the cuts between its two scores. */
  lemma {:induction false} DisagreementIsCutsBetween(a: seq<real>, b: seq<real>, cuts: seq<real>)
    requires |a| == |b|
    ensures PairedDistance(Levels(a, cuts), Levels(b, cuts)) == SquaredCutsBetween(a, b, cuts)
  {
    if a != [] {
      var m := |a| - 1;
      DisagreementIsCutsBetween(a[..m], b[..m], cuts);
      assert Levels(a, cuts)[..m] == Levels(a[..m], cuts) && Levels(b, cuts)[..m] == Levels(b[..m], cuts);
      LevelGap(a[m], b[m], cuts);
      SquareOfGap(Level(a[m], cuts), Level(b[m], cuts), CutsBetween(a[m], b[m], cuts));
    }
  }

  lemma SquareOfGap(x: int, y: int, d: int)
    requires x - y == d || y - x == d
    ensures (x - y) * (x - y) == d * d
  {
  }

  /** A count weighted by the disagreement (i - j)^2 / (k - 1)^2 of its cell, with k = 3 bins. */
  function Weighted(i: int, j: int, x: real): real {
    if i == j then 0.0 else if i - j == 2 || j - i == 2 then x else x / 4.0
  }

  lemma WeightedIsQuadratic(i: int, j: int, dw: real, x: real)
    requires 0 <= i < 3 && 0 <= j < 3 && dw == ((i - j) * (i - j)) as real / 4.0
    ensures dw * x == Weighted(i, j, x)
  {
    var d := i - j;
    assert d == -2 || d == -1 || d == 0 || d == 1 || d == 2;
  }

  /** Sum of `f` over the cells before (i, j), row by row. */
  ghost function CellSum(f: (int, int) -> real, i: nat, j: nat): real
    decreases i, j
  {
    if j > 0 then CellSum(f, i, j - 1) + f(i, j - 1)
    else if i > 0 then CellSum(f, i - 1, 3)
    else 0.0
  }

  lemma CellSumRow(f: (int, int) -> real, i: nat)
    ensures CellSum(f, i + 1, 0) == CellSum(f, i, 0) + f(i, 0) + f(i, 1) + f(i, 2)
  {
    assert CellSum(f, i, 1) == CellSum(f, i, 0) + f(i, 0);
    assert CellSum(f, i, 2) == CellSum(f, i, 1) + f(i, 1);
  }

  lemma NineCells(f: (int, int) -> real)
    ensures CellSum(f, 3, 0)
         == f(0, 0) + f(0, 1) + f(0, 2) + f(1, 0) + f(1, 1) + f(1, 2) + f(2, 0) + f(2, 1) + f(2, 2)
  {
    CellSumRow(f, 0);
    CellSumRow(f, 1);
    CellSumRow(f, 2);
  }

  /** Only the six off-diagonal cells contribute: a quarter next to the diagonal, all in the corners. */
  lemma WeightedCells(f: (int, int) -> real, g: (int, int) -> real)
    requires forall i, j | 0 <= i < 3 && 0 <= j < 3 :: f(i, j) == Weighted(i, j, g(i, j))
    ensures 4.0 * CellSum(f, 3, 0) == g(0, 1) + g(1, 0) + g(1, 2) + g(2, 1) + 4.0 * g(0, 2) + 4.0 * g(2, 0)
  {
    NineCells(f);
  }

  /** Expected counts, multiplied by the number of items, are products of marginals. */
  lemma ExpectedTotal(n: int, a0: int, a1: int, a2: int, b0: int, b1: int, b2: int,
                      den: real, cross: int)
    requires n > 0
    requires 4.0 * den == SharesOf(n, a0, a1, a2, b0, b1, b2)
    requires cross == CrossOf(a0, a1, a2, b0, b1, b2)
    ensures 4.0 * n as real * den == cross as real
  {
    var r := n as real;
    var e01, e02, e10 := Share(n, a0, b1), Share(n, a0, b2), Share(n, a1, b0);
    var e12, e20, e21 := Share(n, a1, b2), Share(n, a2, b0), Share(n, a2, b1);
    assert 4.0 * r * den == r * (e01 + e10 + e12 + e21 + 4.0 * e02 + 4.0 * e20);
    assert r * (e01 + e10 + e12 + e21 + 4.0 * e02 + 4.0 * e20)
        == r * e01 + r * e10 + r * e12 + r * e21 + 4.0 * (r * e02) + 4.0 * (r * e20);
    assert CrossOf(a0, a1, a2, b0, b1, b2) == a0 * b1 + 4 * (a0 * b2) + a1 * b0 + a1 * b2 + 4 * (a2 * b0) + a2 * b1;
  }

  /** Expected count of the cell with the given marginals. */
  function Share(n: int, row: int, col: int): real
    requires n > 0
  {
    (row * col) as real / n as real
  }

  /** Four times the weighted sum of the expected counts. */
  function SharesOf(n: int, a0: int, a1: int, a2: int, b0: int, b1: int, b2: int): real
    requires n > 0
  {
    Share(n, a0, b1) + Share(n, a1, b0) + Share(n, a1, b2) + Share(n, a2, b1)
    + 4.0 * Share(n, a0, b2) + 4.0 * Share(n, a2, b0)
  }

  ghost function ObservedCells(a: seq<int>, b: seq<int>): (int, int) -> real
    requires |a| == |b|
  {
    (i, j) => Weighted(i, j, PairCount(a, b, i, j) as real)
  }

  ghost function ExpectedCells(a: seq<int>, b: seq<int>): (int, int) -> real
    requires |a| > 0
  {
    (i, j) => Weighted(i, j, Share(|a|, Count(a, i), Count(b, j)))
  }

  lemma {:induction false} ObservedTotal(a: seq<int>, b: seq<int>)
    requires |a| == |b| && Ratings(a) && Ratings(b)
    ensures 4.0 * CellSum(ObservedCells(a, b), 3, 0) == PairedDistance(a, b) as real
  {
    WeightedCells(ObservedCells(a, b), (i, j) => PairCount(a, b, i, j) as real);
    PairedDistanceByCounts(a, b);
  }

  lemma {:induction false} ExpectedShares(a: seq<int>, b: seq<int>)
    requires |a| == |b| > 0
    ensures 4.0 * CellSum(ExpectedCells(a, b), 3, 0)
         == SharesOf(|a|, Count(a, 0), Count(a, 1), Count(a, 2), Count(b, 0), Count(b, 1), Count(b, 2))
  {
    WeightedCells(ExpectedCells(a, b), (i, j) => Share(|a|, Count(a, i), Count(b, j)));
  }

  /** From the two weighted sums to the reference definition. */
  lemma {:induction false} RatioOfSums(a: seq<int>, b: seq<int>, num: real, den: real)
    requires |a| == |b| > 0 && Ratings(a) && Ratings(b)
    requires 4.0 * num == PairedDistance(a, b) as real
    requires 4.0 * den
          == SharesOf(|a|, Count(a, 0), Count(a, 1), Count(a, 2), Count(b, 0), Count(b, 1), Count(b, 2))
    ensures KappaOf(a, b) == if den == 0.0 then 1.0 else 1.0 - num / den
  {
    var n := |a|;
    assert 4.0 * n as real * den == CrossDistance(a, b) as real by {
      CrossDistanceByCounts(a, b);
      ExpectedTotal(n, Count(a, 0), Count(a, 1), Count(a, 2), Count(b, 0), Count(b, 1), Count(b, 2),
                    den, CrossDistance(a, b));
    }
    ScaledRatio(n, PairedDistance(a, b), CrossDistance(a, b), num, den);
  }

  lemma ScaledRatio(n: int, paired: int, cross: int, num: real, den: real)
    requires n > 0
    requires 4.0 * num == paired as real
    requires 4.0 * n as real * den == cross as real
    ensures KappaRatio(n, paired, cross) == if den == 0.0 then 1.0 else 1.0 - num / den
  {
    var r := n as real;
    SignOfProduct(4.0 * r, den);
    assert (4.0 * r) * den == den * (4.0 * r);
    if cross != 0 {
      var q := num / den;
      assert q * den == num;
      assert q * (den * (4.0 * r)) == (q * den) * (4.0 * r) == r * (4.0 * num);
      assert Scale(n, paired) as real == r * paired as real;
      DivideBack(Scale(n, paired) as real, q, cross as real);
    }
  }

  lemma DivideBack(p: real, q: real, d: real)
    requires d != 0.0 && p == q * d
    ensures p / d == q
  {
  }

  /** The observed matrix: one count per pair of bins. */
  method ObservedMatrix(bA: seq<int>, bB: seq<int>) returns (O: array2<int>)
    requires |bA| == |bB| && Ratings(bA) && Ratings(bB)
    ensures fresh(O) && O.Length0 == O.Length1 == 3
    ensures forall i, j | 0 <= i < 3 && 0 <= j < 3 :: O[i, j] == PairCount(bA, bB, i, j)
  {
    var n := |bA|;
    O := new int[3, 3]((i, j) => 0);
    for idx := 0 to n
      invariant forall i, j | 0 <= i < 3 && 0 <= j < 3 :: O[i, j] == PairCount(bA[..idx], bB[..idx], i, j)
    {
      assert bA[..idx + 1][..idx] == bA[..idx] && bB[..idx + 1][..idx] == bB[..idx];
      O[bA[idx], bB[idx]] := O[bA[idx], bB[idx]] + 1;
    }
    assert bA[..n] == bA && bB[..n] == bB;
  }

  method Weigh(i: int, j: int, dw: real, x: real) returns (r: real)
    requires 0 <= i < 3 && 0 <= j < 3 && dw == ((i - j) * (i - j)) as real / 4.0
    ensures r == Weighted(i, j, x)
  {
    WeightedIsQuadratic(i, j, dw, x);
    return dw * x;
  }

  /** The two weighted sums over the cells, from the matrix `O` and its marginals. */
  method WeightedSums(O: array2<int>, row: seq<int>, col: seq<int>, n: nat,
                      ghost fo: (int, int) -> real, ghost fe: (int, int) -> real)
    returns (numerator: real, denominator: real)
    requires n > 0 && |row| == |col| == 3 && O.Length0 == O.Length1 == 3
    requires forall i, j | 0 <= i < 3 && 0 <= j < 3 :: fo(i, j) == Weighted(i, j, O[i, j] as real)
    requires forall i, j | 0 <= i < 3 && 0 <= j < 3 :: fe(i, j) == Weighted(i, j, Share(n, row[i], col[j]))
    ensures numerator == CellSum(fo, 3, 0) && denominator == CellSum(fe, 3, 0)
  {
    numerator, denominator := 0.0, 0.0;
    for i := 0 to 3
      invariant numerator == CellSum(fo, i, 0) && denominator == CellSum(fe, i, 0)
    {
      for j := 0 to 3
        invariant numerator == CellSum(fo, i, j) && denominator == CellSum(fe, i, j)
      {
        var dw := ((i - j) * (i - j)) as real / 4.0;
        var eij := Share(n, row[i], col[j]);
        var weightedO := Weigh(i, j, dw, O[i, j] as real);
        var weightedE := Weigh(i, j, dw, eij);
        numerator := numerator + weightedO;
        denominator := denominator + weightedE;
      }
    }
  }

  /** The confusion matrix, its marginals, and the two weighted sums over its cells. */
  method MatrixSums(bA: seq<int>, bB: seq<int>) returns (numerator: real, denominator: real)
    requires |bA| == |bB| > 0 && Ratings(bA) && Ratings(bB)
    ensures KappaOf(bA, bB) == if denominator == 0.0 then 1.0 else 1.0 - numerator / denominator
  {
    var n := |bA|;
    var O := ObservedMatrix(bA, bB);
    var rowMarginal := [O[0, 0] + O[0, 1] + O[0, 2], O[1, 0] + O[1, 1] + O[1, 2], O[2, 0] + O[2, 1] + O[2, 2]];
    var colMarginal := [O[0, 0] + O[1, 0] + O[2, 0], O[0, 1] + O[1, 1] + O[2, 1], O[0, 2] + O[1, 2] + O[2, 2]];
    Marginals(bA, bB, 0);
    Marginals(bA, bB, 1);
    Marginals(bA, bB, 2);
    ghost var fo, fe := ObservedCells(bA, bB), ExpectedCells(bA, bB);
    assert forall i | 0 <= i < 3 :: rowMarginal[i] == Count(bA, i) && colMarginal[i] == Count(bB, i);
    assert forall i, j | 0 <= i < 3 && 0 <= j < 3 :: fo(i, j) == Weighted(i, j, O[i, j] as real);
    assert forall i, j | 0 <= i < 3 && 0 <= j < 3 :: fe(i, j) == Weighted(i, j, Share(n, rowMarginal[i], colMarginal[j]));
    numerator, denominator := WeightedSums(O, rowMarginal, colMarginal, n, fo, fe);
    ObservedTotal(bA, bB);
    ExpectedShares(bA, bB);
    RatioOfSums(bA, bB, numerator, denominator);
  }

  method OrdinalCohenKappa(scoresA: seq<real>, scoresB: seq<real>, t0: real, t1: real) returns (r: Number)
    ensures r == if |scoresA| != |scoresB| || |scoresA| == 0 then NaN
                 else Num(KappaOf(Bins(scoresA, t0, t1), Bins(scoresB, t0, t1)))
    ensures t0 <= t1 && |scoresA| == |scoresB| > 0 ==>
      r == Num(KappaOf(Levels(scoresA, [t0, t1]), Levels(scoresB, [t0, t1])))
  {
    if t0 <= t1 {
      BinsAreLevels(scoresA, t0, t1);
      BinsAreLevels(scoresB, t0, t1);
    }
    if |scoresA| != |scoresB| || |scoresA| == 0 {
      return NaN;
    }
    var bA, bB := Bins(scoresA, t0, t1), Bins(scoresB, t0, t1);
    var numerator, denominator := MatrixSums(bA, bB);
    if denominator == 0.0 {
      return Num(1.0);
    }
    r := Num(1.0 - numerator / denominator);
  }

  // ---- The binary statistic -----------------------------------------------------------

  function Bits(scores: seq<real>): seq<int>
  {
    seq(|scores|, k requires 0 <= k < |scores| => if scores[k] >= 0.5 then 1 else 0)
  }

  lemma {:induction false} BitCounts(a: seq<int>, b: seq<int>)
    requires |a| == |b|
    requires forall k | 0 <= k < |a| :: 0 <= a[k] <= 1 && 0 <= b[k] <= 1
    ensures PairedDistance(a, b) == |a| - PairCount(a, b, 0, 0) - PairCount(a, b, 1, 1)
    ensures Count(a, 0) == |a| - Count(a, 1) && Count(b, 0) == |b| - Count(b, 1)
    ensures Count(a, 2) == 0 && Count(b, 2) == 0
  {
    if a != [] {
      var m := |a| - 1;
      BitCounts(a[..m], b[..m]);
    }
  }

  /** Agreement expected by chance when the judges give 1 to `a1` and `b1` of `n` items. */
  function ChanceAgreement(n: int, a1: int, b1: int): real
    requires n > 0
  {
    (a1 as real / n as real) * (b1 as real / n as real) + ((n - a1) as real / n as real) * ((n - b1) as real / n as real)
  }

  /** Kappa from the agreement shares, once chance disagreement is the cross distance. */
  lemma BinaryRatio(n: int, agree: int, pE: real, paired: int, cross: int)
    requires n > 0 && paired == n - agree && (1.0 - pE) * (n as real * n as real) == cross as real
    ensures KappaRatio(n, paired, cross)
         == if 1.0 - pE == 0.0 then 1.0 else (agree as real / n as real - pE) / (1.0 - pE)
  {
    var r, d := n as real, 1.0 - pE;
    ShareComplement(n, agree);
    ShareComplement(n, paired);
    SignOfProduct(r * r, d);
    if cross != 0 {
      var p := paired as real / r;
      assert agree as real / r - pE == d - p;
      OneMinusQuotient(p, d);
      ScaleQuotient(p / d, p, d, r, paired as real, cross as real);
      assert Scale(n, paired) as real == r * paired as real;
    }
  }

  lemma BinaryShares(n: int, agree: int, a1: int, b1: int, paired: int, cross: int)
    requires n > 0 && paired == n - agree && cross == CrossOf(n - a1, a1, 0, n - b1, b1, 0)
    ensures KappaRatio(n, paired, cross) == BinaryKappaOf(n, agree, a1, b1)
  {
    ChanceDisagreement(n, a1, b1, ChanceAgreement(n, a1, b1), cross);
    BinaryRatio(n, agree, ChanceAgreement(n, a1, b1), paired, cross);
  }

  /** The source's (pO - pE) / (1 - pE) from the three counters. */
  function BinaryKappaOf(n: int, agree: int, a1: int, b1: int): real
    requires n > 0
  {
    var pO := agree as real / n as real;
    var pE := ChanceAgreement(n, a1, b1);
    if 1.0 - pE == 0.0 then 1.0 else (pO - pE) / (1.0 - pE)
  }

  lemma {:induction false} BinaryCross(a: seq<int>, b: seq<int>)
    requires |a| == |b| > 0 && Ratings(a) && Ratings(b)
    requires forall k | 0 <= k < |a| :: 0 <= a[k] <= 1 && 0 <= b[k] <= 1
    ensures CrossDistance(a, b) == CrossOf(|a| - Count(a, 1), Count(a, 1), 0, |a| - Count(b, 1), Count(b, 1), 0)
  {
    BitCounts(a, b);
    CrossDistanceByCounts(a, b);
  }

  lemma {:induction false} BinaryKappa(a: seq<int>, b: seq<int>, agree: int)
    requires |a| == |b| > 0 && Ratings(a) && Ratings(b)
    requires forall k | 0 <= k < |a| :: 0 <= a[k] <= 1 && 0 <= b[k] <= 1
    requires agree == PairCount(a, b, 0, 0) + PairCount(a, b, 1, 1)
    ensures KappaOf(a, b) == BinaryKappaOf(|a|, agree, Count(a, 1), Count(b, 1))
  {
    BitCounts(a, b);
    BinaryCross(a, b);
    BinaryShares(|a|, agree, Count(a, 1), Count(b, 1), PairedDistance(a, b), CrossDistance(a, b));
  }

  lemma ShareComplement(n: int, k: int)
    requires n > 0
    ensures (n - k) as real / n as real == 1.0 - k as real / n as real
    ensures (k as real / n as real) * n as real == k as real
  {
    var q := k as real / n as real;
    assert (1.0 - q) * n as real == n as real - k as real;
    DivideBack((n - k) as real, 1.0 - q, n as real);
  }

  lemma ChanceDisagreement(n: int, a1: int, b1: int, pE: real, cross: int)
    requires n > 0 && cross == CrossOf(n - a1, a1, 0, n - b1, b1, 0)
    requires pE == ChanceAgreement(n, a1, b1)
    ensures (1.0 - pE) * (n as real * n as real) == cross as real
  {
    var x, y := a1 as real / n as real, b1 as real / n as real;
    ShareComplement(n, a1);
    ShareComplement(n, b1);
    assert 1.0 - (x * y + (1.0 - x) * (1.0 - y)) == x * (1.0 - y) + (1.0 - x) * y;
    CrossOfShares(n, a1, b1, x, y);
    assert CrossOf(n - a1, a1, 0, n - b1, b1, 0) == (n - a1) * b1 + a1 * (n - b1);
  }

  lemma OneMinusQuotient(p: real, d: real)
    requires d != 0.0
    ensures (d - p) / d == 1.0 - p / d && (p / d) * d == p
  {
    var q := p / d;
    assert (1.0 - q) * d == d - p;
    DivideBack(d - p, 1.0 - q, d);
  }

  lemma ScaleQuotient(k: real, p: real, d: real, r: real, paired: real, cross: real)
    requires k * d == p && p * r == paired && d * (r * r) == cross && cross != 0.0
    ensures (r * paired) / cross == k
  {
    assert k * cross == k * (d * (r * r)) == (k * d) * (r * r) == (p * r) * r == r * paired;
    DivideBack(r * paired, k, cross);
  }

  lemma CrossOfShares(n: int, a1: int, b1: int, x: real, y: real)
    requires x * n as real == a1 as real && y * n as real == b1 as real
    ensures (x * (1.0 - y) + (1.0 - x) * y) * (n as real * n as real) == ((n - a1) * b1 + a1 * (n - b1)) as real
  {
    var r := n as real;
    assert (x * (1.0 - y) + (1.0 - x) * y) * (r * r) == (x * r) * (r - y * r) + (r - x * r) * (y * r);
    assert (a1 * (n - b1)) as real == a1 as real * (r - b1 as real);
    assert ((n - a1) * b1) as real == (r - a1 as real) * b1 as real;
  }

  method CohenKappa(judgeA: seq<real>, judgeB: seq<real>) returns (r: Number)
    ensures r == if |judgeA| != |judgeB| || |judgeA| == 0 then NaN
                 else Num(KappaOf(Bits(judgeA), Bits(judgeB)))
    ensures |judgeA| == |judgeB| > 0 ==> r == Num(KappaOf(Levels(judgeA, [0.5]), Levels(judgeB, [0.5])))
  {
    BitsAreLevels(judgeA);
    BitsAreLevels(judgeB);
    if |judgeA| != |judgeB| || |judgeA| == 0 {
      return NaN;
    }
    var n := |judgeA|;
    var bA, bB := Bits(judgeA), Bits(judgeB);
    var agree, a1, b1 := 0, 0, 0;
    for i := 0 to n
      invariant agree == PairCount(bA[..i], bB[..i], 0, 0) + PairCount(bA[..i], bB[..i], 1, 1)
      invariant a1 == Count(bA[..i], 1) && b1 == Count(bB[..i], 1)
    {
      assert bA[..i + 1][..i] == bA[..i] && bB[..i + 1][..i] == bB[..i];
      if bA[i] == bB[i] { agree := agree + 1; }
      if bA[i] == 1 { a1 := a1 + 1; }
      if bB[i] == 1 { b1 := b1 + 1; }
    }
    assert bA[..n] == bA && bB[..n] == bB;
    BinaryKappa(bA, bB, agree);
    r := Num(BinaryKappaOf(n, agree, a1, b1));
  }
}
