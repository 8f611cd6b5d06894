/**
 * Spearman's rho (`spearman`, evals/sprint-b-bench.ts), computed from rank
 * differences, and the laws of ranks behind it: the sum of the ranks, the bound
 * on the sum of their squares, and the range of rho. Arithmetic is exact.
 */
module Spearman {
  import opened Ranking
  import opened Wrappers
  import opened Arithmetic

  // ---- Sums of balances -------------------------------------------------------

  function Sgn(x: real, y: real): int {
    if x > y then 1 else if x < y then -1 else 0
  }

  /** Sum over `u` of the balances in `v`. */
  function SumBalance(u: seq<real>, v: seq<real>): int {
    if u == [] then 0
    else SumBalance(u[..|u| - 1], v) + Balance(v, u[|u| - 1])
  }

  /** Sum over `u` of the squared balances in `v`. */
  function SumSquares(u: seq<real>, v: seq<real>): int {
    if u == [] then 0
    else SumSquares(u[..|u| - 1], v) + Balance(v, u[|u| - 1]) * Balance(v, u[|u| - 1])
  }

  /** Sum over `u` of the balance in `v` times the side of `y` the element is on. */
  function SidedBalance(u: seq<real>, v: seq<real>, y: real): int {
    if u == [] then 0
    else SidedBalance(u[..|u| - 1], v, y) + Balance(v, u[|u| - 1]) * Sgn(u[|u| - 1], y)
  }

  function CrossSides(u: seq<real>, z: real, y: real): int {
    if u == [] then 0
    else CrossSides(u[..|u| - 1], z, y) + Sgn(u[|u| - 1], z) * Sgn(u[|u| - 1], y)
  }

  lemma BalanceSnoc(v: seq<real>, y: real, x: real)
    ensures Balance(v + [y], x) == Balance(v, x) + Sgn(x, y)
  {
    assert (v + [y])[..|v|] == v;
  }

  /** Adding `y` to the reference list shifts each sum by the sides of `y`. */
  lemma {:induction false} SumsSnoc(u: seq<real>, v: seq<real>, y: real)
    ensures SumBalance(u, v + [y]) == SumBalance(u, v) - Balance(u, y)
    ensures SumSquares(u, v + [y])
         == SumSquares(u, v) + 2 * SidedBalance(u, v, y) + Below(u, y) + Above(u, y)
  {
    if u != [] {
      var t, x := u[..|u| - 1], u[|u| - 1];
      SumsSnoc(t, v, y);
      BalanceSnoc(v, y, x);
      SquareOfShift(Balance(v, x), Sgn(x, y));
    }
  }

  lemma SquareOfShift(b: int, s: int)
    requires -1 <= s <= 1
    ensures (b + s) * (b + s) == b * b + 2 * (b * s) + (if s == 0 then 0 else 1)
  {
  }

  lemma {:induction false} SidedSnoc(u: seq<real>, v: seq<real>, z: real, y: real)
    ensures SidedBalance(u, v + [z], y) == SidedBalance(u, v, y) + CrossSides(u, z, y)
  {
    if u != [] {
      SidedSnoc(u[..|u| - 1], v, z, y);
      BalanceSnoc(v, z, u[|u| - 1]);
    }
  }

  lemma {:induction false} CrossSidesClosedForm(u: seq<real>, z: real, y: real)
    ensures CrossSides(u, z, y) + Balance(u, z) * Sgn(z, y)
         == if z == y then Below(u, y) + Above(u, y)
            else if z > y then |u| - Above(u, y) + Below(u, y)
            else |u| - Below(u, y) + Above(u, y)
  {
    if u != [] {
      CrossSidesClosedForm(u[..|u| - 1], z, y);
    }
  }

  /** Within the values above (or below) `y`, the mutual comparisons cancel out. */
  lemma {:induction false} SidedClosedForm(v: seq<real>, y: real)
    ensures SidedBalance(v, v, y)
         == Above(v, y) * (|v| - Above(v, y)) + Below(v, y) * (|v| - Below(v, y))
  {
    if v != [] {
      var u, z := v[..|v| - 1], v[|v| - 1];
      assert v == u + [z];
      SidedClosedForm(u, y);
      SidedSnoc(u, u, z, y);
      CrossSidesClosedForm(u, z, y);
      BalanceSnoc(u, z, z);
      SidedStep(|u|, Below(u, y), Above(u, y));
    }
  }

  /** The products of `SidedClosedForm` after one more element on the given side. */
  lemma SidedStep(n: int, l: int, g: int)
    ensures g * (n + 1 - g) + l * (n + 1 - l) == g * (n - g) + l * (n - l) + g + l
    ensures (g + 1) * (n - g) + l * (n + 1 - l) == g * (n - g) + l * (n - l) + n - g + l
    ensures g * (n + 1 - g) + (l + 1) * (n - l) == g * (n - g) + l * (n - l) + n - l + g
  {
  }

  // ---- Laws of ranks ----------------------------------------------------------

  ghost predicate Untied(values: seq<real>) {
    forall i, j | 0 <= i < j < |values| :: values[i] != values[j]
  }

  lemma {:induction false} TiesAreOccurrences(values: seq<real>, x: real)
    ensures Ties(values, x) == 0 <==> x !in values
  {
    if values != [] {
      TiesAreOccurrences(values[..|values| - 1], x);
      assert values == values[..|values| - 1] + [values[|values| - 1]];
    }
  }

  lemma {:induction false} BalancesSumToZero(v: seq<real>)
    ensures SumBalance(v, v) == 0
  {
    if v != [] {
      var u, y := v[..|v| - 1], v[|v| - 1];
      assert v == u + [y];
      BalancesSumToZero(u);
      SumsSnoc(u, u, y);
      BalanceSnoc(u, y, y);
    }
  }

  lemma UntiedSnoc(u: seq<real>, y: real)
    ensures Untied(u + [y]) <==> Untied(u) && y !in u
  {
    var v := u + [y];
    if Untied(v) {
      forall i, j | 0 <= i < j < |u|
        ensures u[i] != u[j]
      {
        assert v[i] != v[j];
      }
      forall i | 0 <= i < |u|
        ensures u[i] != y
      {
        assert v[i] != v[|u|];
      }
    }
  }

  /** The squared balances reach n(n^2 - 1)/3 exactly when no two values are equal. */
  lemma {:induction false} SquaresBound(v: seq<real>)
    ensures 3 * SumSquares(v, v) <= |v| * |v| * |v| - |v|
    ensures 3 * SumSquares(v, v) == |v| * |v| * |v| - |v| <==> Untied(v)
  {
    if v != [] {
      var u, y := v[..|v| - 1], v[|v| - 1];
      assert v == u + [y];
      SquaresBound(u);
      SlackGrows(u, y);
      SquarePlus(Ties(u, y));
      TiesAreOccurrences(u, y);
      UntiedSnoc(u, y);
    }
  }

  /** One more value widens the gap to the bound by its ties alone. */
  lemma {:induction false} SlackGrows(u: seq<real>, y: real)
    ensures var v, e := u + [y], Ties(u, y);
      |v| * |v| * |v| - |v| - 3 * SumSquares(v, v) == |u| * |u| * |u| - |u| - 3 * SumSquares(u, u) + 3 * (e * e + e)
  {
    var v := u + [y];
    assert v[..|u|] == u;
    SumsSnoc(u, u, y);
    SidedClosedForm(u, y);
    BalanceSnoc(u, y, y);
    CountsPartition(u, y);
    assert |v| == Below(u, y) + Ties(u, y) + Above(u, y) + 1;
    SquaresStep(Below(u, y), Ties(u, y), Above(u, y), SumSquares(u, u), SumSquares(v, v));
  }

  lemma SquarePlus(e: nat)
    ensures e * e + e >= 0
    ensures e * e + e == 0 <==> e == 0
  {
  }

  lemma SquaresStep(l: nat, e: nat, g: nat, before: int, after: int)
    requires var n := l + e + g;
      after == before + 2 * (g * (n - g) + l * (n - l)) + l + g + (l - g) * (l - g)
    ensures var n := l + e + g;
      (n + 1) * (n + 1) * (n + 1) - (n + 1) - 3 * after == n * n * n - n - 3 * before + 3 * (e * e + e)
  {
  }

  /** The sum of the ranks of all the values. */
  function RankSum(u: seq<real>, v: seq<real>): real {
    if u == [] then 0.0 else RankSum(u[..|u| - 1], v) + MidRank(v, u[|u| - 1])
  }

  function RankSquareSum(u: seq<real>, v: seq<real>): real {
    if u == [] then 0.0
    else RankSquareSum(u[..|u| - 1], v) + RealSquare(MidRank(v, u[|u| - 1]))
  }

  function RealSquare(r: real): real {
    r * r
  }

  lemma {:induction false} RankSumFromBalances(u: seq<real>, v: seq<real>)
    ensures 2.0 * RankSum(u, v) == (|u| * (|v| + 1) + SumBalance(u, v)) as real
  {
    if u != [] {
      RankSumFromBalances(u[..|u| - 1], v);
      RankIsBalance(v, u[|u| - 1]);
      RankSumsStep(|u| - 1, |v| + 1, Balance(v, u[|u| - 1]), SumBalance(u[..|u| - 1], v), 0);
    }
  }

  function SquaresFromBalances(k: int, m: int, sum: int, squares: int): int {
    k * m * m + 2 * m * sum + squares
  }

  /** The squares of the doubled ranks, on integers. */
  function DoubledSquares(u: seq<real>, v: seq<real>): int {
    if u == [] then 0
    else DoubledSquares(u[..|u| - 1], v) + Square(|v| + 1 + Balance(v, u[|u| - 1]))
  }

  function Square(k: int): int {
    k * k
  }

  lemma {:induction false} RankSquaresAreDoubled(u: seq<real>, v: seq<real>)
    ensures 4.0 * RankSquareSum(u, v) == DoubledSquares(u, v) as real
  {
    if u != [] {
      var t, x := u[..|u| - 1], u[|u| - 1];
      RankSquaresAreDoubled(t, v);
      RankIsBalance(v, x);
      AddDoubled(RankSquareSum(t, v), MidRank(v, x), RankSquareSum(u, v),
                 DoubledSquares(t, v), |v| + 1 + Balance(v, x), DoubledSquares(u, v));
    }
  }

  lemma AddDoubled(total: real, r: real, total': real, doubled: int, k: int, doubled': int)
    requires 4.0 * total == doubled as real && 2.0 * r == k as real
    requires total' == total + RealSquare(r) && doubled' == doubled + Square(k)
    ensures 4.0 * total' == doubled' as real
  {
    SquareOfHalf(r, k);
  }

  lemma {:induction false} DoubledSquaresExpand(u: seq<real>, v: seq<real>)
    ensures DoubledSquares(u, v) == SquaresFromBalances(|u|, |v| + 1, SumBalance(u, v), SumSquares(u, v))
  {
    if u != [] {
      var t, x := u[..|u| - 1], u[|u| - 1];
      DoubledSquaresExpand(t, v);
      RankSumsStep(|t|, |v| + 1, Balance(v, x), SumBalance(t, v), SumSquares(t, v));
    }
  }

  lemma {:induction false} RankSquaresFromBalances(u: seq<real>, v: seq<real>)
    ensures 4.0 * RankSquareSum(u, v)
         == SquaresFromBalances(|u|, |v| + 1, SumBalance(u, v), SumSquares(u, v)) as real
  {
    RankSquaresAreDoubled(u, v);
    DoubledSquaresExpand(u, v);
  }

  lemma RankSumsStep(k: int, m: int, b: int, sum: int, squares: int)
    ensures (k + 1) * m + (sum + b) == (k * m + sum) + (m + b)
    ensures SquaresFromBalances(k + 1, m, sum + b, squares + b * b)
         == SquaresFromBalances(k, m, sum, squares) + (m + b) * (m + b)
  {
  }

  lemma SquareOfHalf(r: real, k: int)
    requires 2.0 * r == k as real
    ensures 4.0 * (r * r) == Square(k) as real
  {
    assert 4.0 * (r * r) == (2.0 * r) * (2.0 * r);
  }

  /** Ranks sum to n(n+1)/2, ties or not; their squares reach n(n+1)(2n+1)/6 only without ties. */
  lemma {:induction false} RankSums(v: seq<real>)
    ensures 2.0 * RankSum(v, v) == (|v| * (|v| + 1)) as real
    ensures 6.0 * RankSquareSum(v, v) <= (|v| * (|v| + 1) * (2 * |v| + 1)) as real
    ensures 6.0 * RankSquareSum(v, v) == (|v| * (|v| + 1) * (2 * |v| + 1)) as real <==> Untied(v)
  {
    var n, q := |v|, SumSquares(v, v);
    RankSumFromBalances(v, v);
    RankSquaresFromBalances(v, v);
    BalancesSumToZero(v);
    SquaresBound(v);
    assert 12.0 * RankSquareSum(v, v) == (3 * (n * (n + 1) * (n + 1) + q)) as real;
    assert 2 * (n * (n + 1) * (2 * n + 1)) - 3 * (n * (n + 1) * (n + 1)) == n * n * n - n;
  }

  /** Equal values share a rank and a smaller value has a strictly smaller rank. */
  lemma RanksFollowOrder(values: seq<real>, i: nat, j: nat)
    requires i < |values| && j < |values|
    ensures values[i] < values[j] <==> MidRank(values, values[i]) < MidRank(values, values[j])
    ensures values[i] == values[j] <==> MidRank(values, values[i]) == MidRank(values, values[j])
  {
    TiesAreOccurrences(values, values[i]);
    TiesAreOccurrences(values, values[j]);
    if values[i] < values[j] {
      BelowAdds(values, values[i], values[j]);
    } else if values[j] < values[i] {
      BelowAdds(values, values[j], values[i]);
    }
  }

  lemma {:induction false} BelowAdds(values: seq<real>, x: real, y: real)
    requires x < y
    ensures Below(values, y) >= Below(values, x) + Ties(values, x)
  {
    if values != [] {
      BelowAdds(values[..|values| - 1], x, y);
    }
  }

  // ---- Rho ----------------------------------------------------------------------

  /** Sum of squared differences of the first `k` balances of `x` and `y`. */
  function SquaredGaps(x: seq<real>, y: seq<real>, k: nat): int
    requires k <= |x| && k <= |y|
  {
    if k == 0 then 0
    else
      var gap := Balance(x, x[k - 1]) - Balance(y, y[k - 1]);
      SquaredGaps(x, y, k - 1) + gap * gap
  }

  /** Sum of products of the first `k` balances: n - 1 times four times their covariance. */
  function CoBalance(x: seq<real>, y: seq<real>, k: nat): int
    requires k <= |x| && k <= |y|
  {
    if k == 0 then 0
    else CoBalance(x, y, k - 1) + Balance(x, x[k - 1]) * Balance(y, y[k - 1])
  }

  function Cubic(n: nat): int { n * n * n - n }

  /** Rho from the balances, twice the centred ranks. */
  function Rho(x: seq<real>, y: seq<real>): real
    requires |x| == |y| >= 2
  {
    CubicPositive(|x|);
    1.0 - (3 * SquaredGaps(x, y, |x|)) as real / (2 * Cubic(|x|)) as real
  }

  lemma CubicPositive(n: nat)
    requires n >= 2
    ensures Cubic(n) > 0 && Cubic(n) == n * (n * n - 1)
  {
  }

  method SpearmanRho(x: seq<real>, y: seq<real>) returns (r: Number)
    ensures r == if |x| != |y| || |x| < 2 then NaN else Num(Rho(x, y))
  {
    if |x| != |y| || |x| < 2 {
      return NaN;
    }
    var n := |x|;
    var rx := RankArray(x);
    var ry := RankArray(y);
    var sumD2 := 0.0;
    for i := 0 to n
      invariant forall k | 0 <= k < n :: rx[k] == MidRank(x, x[k]) && ry[k] == MidRank(y, y[k])
      invariant 4.0 * sumD2 == SquaredGaps(x, y, i) as real
    {
      var d := rx[i] - ry[i];
      assert 2.0 * d == 2.0 * MidRank(x, x[i]) - 2.0 * MidRank(y, y[i]);
      RankIsBalance(x, x[i]);
      RankIsBalance(y, y[i]);
      SquareOfHalf(d, Balance(x, x[i]) - Balance(y, y[i]));
      sumD2 := sumD2 + d * d;
    }
    CubicPositive(n);
    assert (6.0 * sumD2) == (3 * SquaredGaps(x, y, n)) as real / 2.0;
    ScaledQuotient((3 * SquaredGaps(x, y, n)) as real, Cubic(n) as real);
    r := Num(1.0 - (6.0 * sumD2) / (n * (n * n - 1)) as real);
  }

  lemma ScaledQuotient(a: real, b: real)
    requires b > 0.0
    ensures (a / 2.0) / b == a / (2.0 * b)
  {
  }

  lemma {:induction false} GapsExpand(x: seq<real>, y: seq<real>, k: nat)
    requires k <= |x| && k <= |y|
    ensures SquaredGaps(x, y, k)
         == SumSquares(x[..k], x) + SumSquares(y[..k], y) - 2 * CoBalance(x, y, k)
    ensures 0 <= SquaredGaps(x, y, k) <= 2 * (SumSquares(x[..k], x) + SumSquares(y[..k], y))
    ensures SquaredGaps(x, y, k) == SquaredGaps(y, x, k)
  {
    if k > 0 {
      var a, b := Balance(x, x[k - 1]), Balance(y, y[k - 1]);
      GapsExpand(x, y, k - 1);
      SumSquaresSnoc(x, x, k);
      SumSquaresSnoc(y, y, k);
      GapStep(a, b);
    }
  }

  lemma {:induction false} SumSquaresSnoc(u: seq<real>, v: seq<real>, k: nat)
    requires 0 < k <= |u|
    ensures SumSquares(u[..k], v) == SumSquares(u[..k - 1], v) + Balance(v, u[k - 1]) * Balance(v, u[k - 1])
  {
    assert u[..k][..k - 1] == u[..k - 1];
  }

  lemma GapStep(a: int, b: int)
    ensures (a - b) * (a - b) == (b - a) * (b - a) == a * a + b * b - 2 * (a * b)
    ensures 0 <= (a - b) * (a - b) <= 2 * (a * a + b * b)
  {
    assert 0 <= (a + b) * (a + b) == a * a + b * b + 2 * (a * b);
  }

  /** Rho lies in [-1, 1] and does not depend on the order of its arguments, ties included. */
  lemma RhoRangeAndSymmetry(x: seq<real>, y: seq<real>)
    requires |x| == |y| >= 2
    ensures -1.0 <= Rho(x, y) <= 1.0
    ensures Rho(x, y) == Rho(y, x)
  {
    var n := |x|;
    CubicPositive(n);
    GapsExpand(x, y, n);
    assert x[..n] == x && y[..n] == y;
    SquaresBound(x);
    SquaresBound(y);
    QuotientOrder((3 * SquaredGaps(x, y, n)) as real, (2 * Cubic(n)) as real, 0.0);
    QuotientOrder((3 * SquaredGaps(x, y, n)) as real, (2 * Cubic(n)) as real, 2.0);
  }

  lemma {:induction false} GapsVanish(x: seq<real>, y: seq<real>, k: nat)
    requires k <= |x| && k <= |y|
    ensures SquaredGaps(x, y, k) >= 0
    ensures SquaredGaps(x, y, k) == 0
       <==> forall i | 0 <= i < k :: Balance(x, x[i]) == Balance(y, y[i])
  {
    if k > 0 {
      GapsVanish(x, y, k - 1);
      var gap := Balance(x, x[k - 1]) - Balance(y, y[k - 1]);
      assert gap != 0 ==> gap * gap > 0;
    }
  }

  /** Rho is 1 exactly when the two lists order the items the same way. */
  lemma PerfectRho(x: seq<real>, y: seq<real>)
    requires |x| == |y| >= 2
    ensures Rho(x, y) == 1.0
       <==> forall i, j | 0 <= i < |x| && 0 <= j < |x| :: x[i] < x[j] <==> y[i] < y[j]
  {
    var n := |x|;
    RhoAtTheEnds(x, y);
    GapsVanish(x, y, n);
    if forall i | 0 <= i < n :: Balance(x, x[i]) == Balance(y, y[i]) {
      forall i, j | 0 <= i < n && 0 <= j < n
        ensures x[i] < x[j] <==> y[i] < y[j]
      {
        RanksFollowOrder(x, i, j);
        RanksFollowOrder(y, i, j);
        RankIsBalance(x, x[i]);
        RankIsBalance(x, x[j]);
        RankIsBalance(y, y[i]);
        RankIsBalance(y, y[j]);
      }
    }
    if forall i, j | 0 <= i < n && 0 <= j < n :: x[i] < x[j] <==> y[i] < y[j] {
      forall i | 0 <= i < n
        ensures Balance(x, x[i]) == Balance(y, y[i])
      {
        SameOrderSameCounts(x, y, i, n);
      }
    }
  }

  lemma {:induction false} SameOrderSameCounts(x: seq<real>, y: seq<real>, i: nat, k: nat)
    requires |x| == |y| && i < |x| && k <= |x|
    requires forall i, j | 0 <= i < |x| && 0 <= j < |x| :: x[i] < x[j] <==> y[i] < y[j]
    ensures Below(x[..k], x[i]) == Below(y[..k], y[i])
    ensures Above(x[..k], x[i]) == Above(y[..k], y[i])
    ensures k == |x| ==> Balance(x, x[i]) == Balance(y, y[i])
  {
    if k > 0 {
      SameOrderSameCounts(x, y, i, k - 1);
      assert x[..k][..k - 1] == x[..k - 1] && y[..k][..k - 1] == y[..k - 1];
    }
    if k == |x| {
      assert x[..k] == x && y[..k] == y;
    }
  }

  function Negated(y: seq<real>): seq<real> {
    seq(|y|, i requires 0 <= i < |y| => -y[i])
  }

  /** Negating the values turns every balance around. */
  lemma {:induction false} NegatedBalance(y: seq<real>, x: real)
    ensures Below(Negated(y), -x) == Above(y, x) && Above(Negated(y), -x) == Below(y, x)
    ensures Balance(Negated(y), -x) == -Balance(y, x)
  {
    if y != [] {
      NegatedBalance(y[..|y| - 1], x);
      assert Negated(y)[..|y| - 1] == Negated(y[..|y| - 1]);
    }
  }

  /** The gaps to a list and to its negation share a fixed sum. */
  lemma {:induction false} GapsOfNegated(x: seq<real>, y: seq<real>, k: nat)
    requires k <= |x| && k <= |y|
    ensures SquaredGaps(x, y, k) + SquaredGaps(x, Negated(y), k)
      == 2 * (SumSquares(x[..k], x) + SumSquares(y[..k], y))
  {
    if k > 0 {
      var a, b := Balance(x, x[k - 1]), Balance(y, y[k - 1]);
      GapsOfNegated(x, y, k - 1);
      NegatedBalance(y, y[k - 1]);
      assert Negated(y)[k - 1] == -y[k - 1];
      SumSquaresSnoc(x, x, k);
      SumSquaresSnoc(y, y, k);
      Parallelogram(a, b);
    }
  }

  lemma Parallelogram(a: int, b: int)
    ensures (a - b) * (a - b) + (a - -b) * (a - -b) == 2 * (a * a + b * b)
  {
  }

  lemma {:induction false} RhoAtTheEnds(x: seq<real>, y: seq<real>)
    requires |x| == |y| >= 2
    ensures Rho(x, y) == 1.0 <==> SquaredGaps(x, y, |x|) == 0
    ensures Rho(x, y) == -1.0 <==> 3 * SquaredGaps(x, y, |x|) == 4 * Cubic(|x|)
  {
    var a, b := (3 * SquaredGaps(x, y, |x|)) as real, (2 * Cubic(|x|)) as real;
    CubicPositive(|x|);
    QuotientOrder(a, b, 0.0);
    QuotientOrder(a, b, 2.0);
  }

  /** Rho is -1 exactly when neither list has ties and one orders the items the other way round. */
  lemma OppositeRho(x: seq<real>, y: seq<real>)
    requires |x| == |y| >= 2
    ensures Rho(x, y) == -1.0 <==>
      && Untied(x) && Untied(y)
      && forall i, j | 0 <= i < |x| && 0 <= j < |x| :: x[i] < x[j] <==> y[j] < y[i]
  {
    var n, z := |x|, Negated(y);
    RhoAtTheEnds(x, y);
    RhoAtTheEnds(x, z);
    GapsOfNegated(x, y, n);
    assert x[..n] == x && y[..n] == y;
    GapsVanish(x, z, n);
    BoundsAtCubic(x, y);
    PerfectRho(x, z);
    assert forall i | 0 <= i < n :: z[i] == -y[i];
    assert (forall i, j | 0 <= i < n && 0 <= j < n :: x[i] < x[j] <==> z[i] < z[j])
      <==> (forall i, j | 0 <= i < n && 0 <= j < n :: x[i] < x[j] <==> y[j] < y[i]);
  }

  lemma {:induction false} BoundsAtCubic(x: seq<real>, y: seq<real>)
    requires |x| == |y|
    ensures 3 * (SumSquares(x, x) + SumSquares(y, y)) <= 2 * Cubic(|x|)
    ensures 3 * (SumSquares(x, x) + SumSquares(y, y)) == 2 * Cubic(|x|) <==> Untied(x) && Untied(y)
  {
    SquaresBound(x);
    SquaresBound(y);
  }

  /**
   * The documentation of `spearman` promises NaN at zero variance. The code tests
   * only the lengths: a constant `x` always scores at least 1/2, and exactly 1/2
   * when `y` has no ties.
   */
  lemma ZeroVarianceIsNotNaN(x: seq<real>, y: seq<real>)
    requires |x| == |y| >= 2
    requires forall i | 0 <= i < |x| :: x[i] == x[0]
    ensures 0.5 <= Rho(x, y) <= 1.0
    ensures Rho(x, y) == 0.5 <==> Untied(y)
  {
    var n := |x|;
    CubicPositive(n);
    GapsExpand(x, y, n);
    assert x[..n] == x && y[..n] == y;
    ConstantBalances(x, y, n, x[0]);
    SquaresBound(y);
    QuotientOrder((3 * SquaredGaps(x, y, n)) as real, (2 * Cubic(n)) as real, 0.0);
    QuotientOrder((3 * SquaredGaps(x, y, n)) as real, (2 * Cubic(n)) as real, 0.5);
    QuotientOrder((3 * SquaredGaps(x, y, n)) as real, (2 * Cubic(n)) as real, 2.0);
  }

  lemma {:induction false} ConstantBalances(x: seq<real>, y: seq<real>, k: nat, c: real)
    requires k <= |x| == |y|
    requires forall i | 0 <= i < |x| :: x[i] == c
    ensures Balance(x, c) == 0
    ensures SumSquares(x[..k], x) == 0 && CoBalance(x, y, k) == 0
  {
    ConstantCounts(x, c);
    if k > 0 {
      ConstantBalances(x, y, k - 1, c);
      assert x[..k][..k - 1] == x[..k - 1];
    }
  }

  lemma {:induction false} ConstantCounts(x: seq<real>, c: real)
    requires forall i | 0 <= i < |x| :: x[i] == c
    ensures Below(x, c) == 0 && Above(x, c) == 0
  {
    if x != [] {
      ConstantCounts(x[..|x| - 1], c);
    }
  }

  /**
   * The rank-difference formula is Pearson's correlation of the ranks, normalised by
   * the untied variance, plus an excess that is zero exactly when neither list has ties.
   */
  lemma {:induction false} RhoVersusPearson(x: seq<real>, y: seq<real>)
    requires |x| == |y| >= 2
    ensures Cubic(|x|) > 0
    ensures Rho(x, y) >= (3 * CoBalance(x, y, |x|)) as real / Cubic(|x|) as real
    ensures Rho(x, y) == (3 * CoBalance(x, y, |x|)) as real / Cubic(|x|) as real
       <==> Untied(x) && Untied(y)
  {
    var n := |x|;
    CubicPositive(n);
    GapsExpand(x, y, n);
    assert x[..n] == x && y[..n] == y;
    SquaresBound(x);
    SquaresBound(y);
    PearsonStep(Cubic(n), 3 * SquaredGaps(x, y, n), 3 * CoBalance(x, y, n),
                3 * SumSquares(x, x), 3 * SumSquares(y, y));
  }

  lemma PearsonStep(c: int, gaps: int, co: int, qx: int, qy: int)
    requires c > 0 && qx <= c && qy <= c && gaps == qx + qy - 2 * co
    ensures 1.0 - gaps as real / (2 * c) as real >= co as real / c as real
    ensures 1.0 - gaps as real / (2 * c) as real == co as real / c as real <==> qx == c && qy == c
  {
    var d := (2 * c) as real;
    var g, p := gaps as real / d, co as real / c as real;
    assert g * d == gaps as real;
    assert p * c as real == co as real;
    var t := 1.0 - g - p;
    assert t * d == d - gaps as real - 2.0 * co as real == (2 * c - qx - qy) as real;
    SignOfProduct(d, t);
  }

}
