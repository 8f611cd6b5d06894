/**
 * Semantic stall detection (`cosine`, `meanPairwiseCosine` and `SemanticCoherenceTracker`,
 * src/budget/semantic-coherence.ts). Arithmetic is exact and the square root is a parameter
 * with the property that defines it.
 */
module Coherence {
  import opened Wrappers
  import opened Arithmetic

  type Vector = seq<real>

  ghost predicate IsSqrt(sqrt: real -> real) {
    forall x | x >= 0.0 :: sqrt(x) >= 0.0 && sqrt(x) * sqrt(x) == x
  }

  // ---- Cosine ----------------------------------------------------------------------------

  function Dot(a: Vector, b: Vector): real
    requires |a| == |b|
  {
    if a == [] then 0.0
    else Dot(a[..|a| - 1], b[..|a| - 1]) + a[|a| - 1] * b[|a| - 1]
  }

  function CosineOf(sqrt: real -> real, a: Vector, b: Vector): real
    requires |a| == |b|
  {
    Quotient(Dot(a, b), sqrt(Dot(a, a)), sqrt(Dot(b, b)))
  }

  function Quotient(dot: real, p: real, q: real): real {
    if p * q == 0.0 then 0.0 else dot / (p * q)
  }

  /** Sum of (x*a[i] - y*b[i])^2: zero exactly when the two scaled vectors coincide. */
  function Residual(a: Vector, b: Vector, x: real, y: real): real
    requires |a| == |b|
  {
    if a == [] then 0.0
    else Residual(a[..|a| - 1], b[..|a| - 1], x, y) + SquaredGap(x, a[|a| - 1], y, b[|a| - 1])
  }

  function SquaredGap(x: real, p: real, y: real, q: real): real {
    (x * p - y * q) * (x * p - y * q)
  }

  function Quadratic(x: real, y: real, aa: real, ab: real, bb: real): real {
    (x * x) * aa - 2.0 * (x * y) * ab + (y * y) * bb
  }

  lemma QuadraticStep(p: real, q: real, x: real, y: real, aa: real, ab: real, bb: real)
    ensures Quadratic(x, y, aa, ab, bb) + SquaredGap(x, p, y, q)
      == Quadratic(x, y, aa + p * p, ab + p * q, bb + q * q)
  {
    var gap := x * p - y * q;
    assert gap * gap == (x * x) * (p * p) - 2.0 * (x * y) * (p * q) + (y * y) * (q * q);
  }

  lemma SquareSign(g: real)
    ensures g * g >= 0.0
    ensures g * g == 0.0 <==> g == 0.0
  {
    if g > 0.0 {
      SignOfProduct(g, g);
    } else if g < 0.0 {
      var h := -g;
      SignOfProduct(h, h);
      assert h * h == g * g;
    }
  }

  lemma {:induction false} ResidualExpand(a: Vector, b: Vector, x: real, y: real)
    requires |a| == |b|
    ensures Residual(a, b, x, y) == Quadratic(x, y, Dot(a, a), Dot(a, b), Dot(b, b))
  {
    if a == [] {
      assert Quadratic(x, y, 0.0, 0.0, 0.0) == 0.0;
    } else {
      var m := |a| - 1;
      var s, t := a[..m], b[..m];
      assert Residual(a, b, x, y)
        == Quadratic(x, y, Dot(s, s) + a[m] * a[m], Dot(s, t) + a[m] * b[m], Dot(t, t) + b[m] * b[m]) by {
        ResidualExpand(s, t, x, y);
        QuadraticStep(a[m], b[m], x, y, Dot(s, s), Dot(s, t), Dot(t, t));
      }
    }
  }

  lemma {:induction false} ResidualSign(a: Vector, b: Vector, x: real, y: real)
    requires |a| == |b|
    ensures Residual(a, b, x, y) >= 0.0
    ensures Residual(a, b, x, y) == 0.0 <==> Parallel(a, b, x, y)
  {
    if a != [] {
      var m := |a| - 1;
      var s, t := a[..m], b[..m];
      ResidualSign(s, t, x, y);
      SquareSign(x * a[m] - y * b[m]);
      assert Parallel(a, b, x, y) <==> Parallel(s, t, x, y) && Scaled(x, a[m]) == Scaled(y, b[m]);
    }
  }

  function Scaled(x: real, v: real): real {
    x * v
  }

  ghost predicate Parallel(a: Vector, b: Vector, x: real, y: real)
    requires |a| == |b|
  {
    forall i | 0 <= i < |a| :: Scaled(x, a[i]) == Scaled(y, b[i])
  }

  lemma {:induction false} DotFacts(a: Vector, b: Vector)
    requires |a| == |b|
    ensures Dot(a, b) == Dot(b, a) && Dot(a, a) >= 0.0
  {
    if a != [] {
      DotFacts(a[..|a| - 1], b[..|a| - 1]);
    }
  }

  /** From the expanded residuals, with p and q the lengths, to the quotient's range. */
  lemma CosineStep(p: real, q: real, aa: real, bb: real, d: real, minus: real, plus: real)
    requires p > 0.0 && q > 0.0 && p * p == aa && q * q == bb
    requires minus == Quadratic(q, p, aa, d, bb) && minus >= 0.0
    requires plus == Quadratic(q, -p, aa, d, bb) && plus >= 0.0
    ensures p * q > 0.0
    ensures -1.0 <= d / (p * q) <= 1.0
    ensures d / (p * q) == 1.0 <==> minus == 0.0
  {
    SignOfProduct(p, q);
    var m := p * q;
    assert (-p * -p) == aa;
    assert (q * q) * (p * p) == (p * q) * (p * q) == (p * p) * (q * q);
    assert (q * p) * d == m * d && (q * -p) * d == -(m * d);
    QuotientStep(m, d, minus, plus);
  }

  lemma QuotientStep(m: real, d: real, minus: real, plus: real)
    requires m > 0.0
    requires minus == 2.0 * (m * m) - 2.0 * (m * d) && minus >= 0.0
    requires plus == 2.0 * (m * m) + 2.0 * (m * d) && plus >= 0.0
    ensures -1.0 <= d / m <= 1.0
    ensures d / m == 1.0 <==> minus == 0.0
  {
    assert m * (m - d) == m * m - m * d;
    assert m * (m + d) == m * m + m * d;
    SignOfProduct(m, m - d);
    SignOfProduct(m, m + d);
    var r := d / m;
    assert r * m == d;
    SignOfProduct(m, 1.0 - r);
    SignOfProduct(m, 1.0 + r);
  }

  /**
   * Cosine similarity lies in [-1, 1] in every dimension and is symmetric; between vectors
   * of non-zero length it is 1 exactly when they point the same way.
   */
  lemma {:induction false} CosineRange(sqrt: real -> real, a: Vector, b: Vector)
    requires IsSqrt(sqrt) && |a| == |b|
    ensures -1.0 <= CosineOf(sqrt, a, b) <= 1.0
    ensures CosineOf(sqrt, a, b) == CosineOf(sqrt, b, a)
    ensures var p, q := sqrt(Dot(a, a)), sqrt(Dot(b, b));
      p > 0.0 && q > 0.0 ==> (CosineOf(sqrt, a, b) == 1.0 <==> Parallel(a, b, q, p))
  {
    DotFacts(a, b);
    DotFacts(b, a);
    var p, q := sqrt(Dot(a, a)), sqrt(Dot(b, b));
    assert p >= 0.0 && p * p == Dot(a, a) && q >= 0.0 && q * q == Dot(b, b);
    RangeFromLengths(a, b, p, q);
  }

  lemma {:induction false} RangeFromLengths(a: Vector, b: Vector, p: real, q: real)
    requires |a| == |b| && p >= 0.0 && q >= 0.0 && p * p == Dot(a, a) && q * q == Dot(b, b)
    ensures Quotient(Dot(a, b), p, q) == Quotient(Dot(b, a), q, p)
    ensures -1.0 <= Quotient(Dot(a, b), p, q) <= 1.0
    ensures p > 0.0 && q > 0.0 ==> (Quotient(Dot(a, b), p, q) == 1.0 <==> Parallel(a, b, q, p))
  {
    ProductOfRoots(p, q);
    DotFacts(a, b);
    if p > 0.0 && q > 0.0 {
      NonZeroLengths(a, b, p, q);
    } else {
      assert p * q == 0.0;
    }
  }

  lemma ProductOfRoots(p: real, q: real)
    requires p >= 0.0 && q >= 0.0
    ensures p * q == q * p
    ensures p * q == 0.0 <==> p == 0.0 || q == 0.0
  {
    if p > 0.0 {
      SignOfProduct(p, q);
    }
  }

  lemma {:induction false} NonZeroLengths(a: Vector, b: Vector, p: real, q: real)
    requires |a| == |b| && p > 0.0 && q > 0.0 && p * p == Dot(a, a) && q * q == Dot(b, b)
    ensures -1.0 <= Quotient(Dot(a, b), p, q) <= 1.0
    ensures Quotient(Dot(a, b), p, q) == 1.0 <==> Parallel(a, b, q, p)
  {
    ResidualExpand(a, b, q, p);
    ResidualExpand(a, b, q, -p);
    ResidualSign(a, b, q, p);
    ResidualSign(a, b, q, -p);
    CosineStep(p, q, Dot(a, a), Dot(b, b), Dot(a, b), Residual(a, b, q, p), Residual(a, b, q, -p));
  }

  /** A vector of length zero has a zero product with every other. */
  lemma {:induction false} ZeroLengthZeroDot(a: Vector, b: Vector)
    requires |a| == |b| && Dot(a, a) == 0.0
    ensures Dot(a, b) == 0.0
  {
    if a != [] {
      var m := |a| - 1;
      var s, t := a[..m], b[..m];
      DotFacts(s, s);
      SquareSign(a[m]);
      assert Dot(a, a) == Dot(s, s) + a[m] * a[m];
      assert a[m] == 0.0;
      ZeroLengthZeroDot(s, t);
    }
  }

  /** Cosine times both lengths is the dot product, also for vectors of length zero. */
  lemma {:induction false} CosineScales(sqrt: real -> real, a: Vector, b: Vector)
    requires IsSqrt(sqrt) && |a| == |b|
    ensures CosineOf(sqrt, a, b) * (sqrt(Dot(a, a)) * sqrt(Dot(b, b))) == Dot(a, b)
    ensures CosineOf(sqrt, a, b) == 0.0 <==> Dot(a, b) == 0.0
  {
    DotFacts(a, b);
    DotFacts(b, a);
    var p, q := sqrt(Dot(a, a)), sqrt(Dot(b, b));
    assert p >= 0.0 && p * p == Dot(a, a) && q >= 0.0 && q * q == Dot(b, b);
    if p == 0.0 {
      ZeroLengthZeroDot(a, b);
    } else if q == 0.0 {
      ZeroLengthZeroDot(b, a);
    }
    ProductOfRoots(p, q);
    QuotientScales(Dot(a, b), p, q);
  }

  lemma QuotientScales(d: real, p: real, q: real)
    requires p * q == 0.0 ==> d == 0.0
    ensures Quotient(d, p, q) * (p * q) == d
    ensures Quotient(d, p, q) == 0.0 <==> d == 0.0
  {
    QuotientByProduct(d, p, q, p * q);
    DividedScales(d, p * q);
  }

  lemma DividedScales(d: real, m: real)
    requires m == 0.0 ==> d == 0.0
    ensures var r := if m == 0.0 then 0.0 else d / m;
      r * m == d && (r == 0.0 <==> d == 0.0)
  {
  }

  /** The loop: the dot product and both squared norms in one pass. */
  method DotAndNorms(a: Vector, b: Vector) returns (dot: real, normA: real, normB: real)
    requires |a| == |b|
    ensures dot == Dot(a, b) && normA == Dot(a, a) && normB == Dot(b, b)
  {
    dot, normA, normB := 0.0, 0.0, 0.0;
    for i := 0 to |a|
      invariant dot == Dot(a[..i], b[..i]) && normA == Dot(a[..i], a[..i]) && normB == Dot(b[..i], b[..i])
    {
      assert a[..i + 1][..i] == a[..i] && b[..i + 1][..i] == b[..i];
      var ai, bi := a[i], b[i];
      dot := dot + ai * bi;
      normA := normA + ai * ai;
      normB := normB + bi * bi;
    }
    assert a[..|a|] == a && b[..|b|] == b;
  }

  lemma QuotientByProduct(dot: real, p: real, q: real, denom: real)
    requires denom == p * q
    ensures Quotient(dot, p, q) == if denom == 0.0 then 0.0 else dot / denom
  {
  }

  method Cosine(sqrt: real -> real, a: Vector, b: Vector) returns (r: real)
    requires IsSqrt(sqrt) && |a| == |b|
    ensures r == CosineOf(sqrt, a, b) && -1.0 <= r <= 1.0
  {
    var dot, normA, normB := DotAndNorms(a, b);
    var denom := sqrt(normA) * sqrt(normB);
    r := if denom == 0.0 then 0.0 else dot / denom;
    QuotientByProduct(dot, sqrt(normA), sqrt(normB), denom);
    CosineRange(sqrt, a, b);
  }

  // ---- Mean over all pairs ------------------------------------------------------------------

  ghost predicate SameDimension(vs: seq<Vector>) {
    forall i, j | 0 <= i < |vs| && 0 <= j < |vs| :: |vs[i]| == |vs[j]|
  }

  /** Sum over j < k of the cosines of vs[j] and v. */
  function SumAgainst(sqrt: real -> real, vs: seq<Vector>, v: Vector): real
    requires forall i | 0 <= i < |vs| :: |vs[i]| == |v|
  {
    if vs == [] then 0.0
    else SumAgainst(sqrt, vs[..|vs| - 1], v) + CosineOf(sqrt, vs[|vs| - 1], v)
  }

  /** Sum over all unordered pairs, adding one vector at a time. */
  function PairSum(sqrt: real -> real, vs: seq<Vector>): real
    requires SameDimension(vs)
  {
    if vs == [] then 0.0
    else PairSum(sqrt, vs[..|vs| - 1]) + SumAgainst(sqrt, vs[..|vs| - 1], vs[|vs| - 1])
  }

  /** The number of unordered pairs among n. */
  function Pairs(n: nat): nat {
    if n == 0 then 0 else Pairs(n - 1) + (n - 1)
  }

  function MeanPairwise(sqrt: real -> real, vs: seq<Vector>): real
    requires SameDimension(vs)
  {
    if |vs| < 2 then 0.0 else PairsPositive(|vs|); PairSum(sqrt, vs) / Pairs(|vs|) as real
  }

  lemma {:induction false} PairsPositive(n: nat)
    requires n >= 2
    ensures Pairs(n) > 0
  {
    assert Pairs(n) == Pairs(n - 1) + (n - 1);
  }

  lemma PairsStep(n: nat)
    ensures Pairs(n + 1) == Pairs(n) + n
  {
    assert (n + 1) * n == n * (n - 1) + 2 * n;
  }

  lemma {:induction false} SumAgainstRange(sqrt: real -> real, vs: seq<Vector>, v: Vector)
    requires IsSqrt(sqrt) && forall i | 0 <= i < |vs| :: |vs[i]| == |v|
    ensures -(|vs| as real) <= SumAgainst(sqrt, vs, v) <= |vs| as real
  {
    if vs != [] {
      SumAgainstRange(sqrt, vs[..|vs| - 1], v);
      CosineRange(sqrt, vs[|vs| - 1], v);
    }
  }

  lemma {:induction false} PairSumRange(sqrt: real -> real, vs: seq<Vector>)
    requires IsSqrt(sqrt) && SameDimension(vs)
    ensures -(Pairs(|vs|) as real) <= PairSum(sqrt, vs) <= Pairs(|vs|) as real
  {
    if vs != [] {
      var m := |vs| - 1;
      PairSumRange(sqrt, vs[..m]);
      SumAgainstRange(sqrt, vs[..m], vs[m]);
      PairsStep(m);
    }
  }

  /** The mean over the n(n - 1)/2 pairs lies in [-1, 1]. */
  lemma MeanPairwiseRange(sqrt: real -> real, vs: seq<Vector>)
    requires IsSqrt(sqrt) && SameDimension(vs)
    ensures -1.0 <= MeanPairwise(sqrt, vs) <= 1.0
  {
    if |vs| >= 2 {
      PairSumRange(sqrt, vs);
      PairsPositive(|vs|);
      QuotientOrder(PairSum(sqrt, vs), Pairs(|vs|) as real, -1.0);
      QuotientOrder(PairSum(sqrt, vs), Pairs(|vs|) as real, 1.0);
    }
  }

  lemma {:induction false} SumAgainstIsFull(sqrt: real -> real, vs: seq<Vector>, v: Vector)
    requires IsSqrt(sqrt) && forall i | 0 <= i < |vs| :: |vs[i]| == |v|
    ensures SumAgainst(sqrt, vs, v) == |vs| as real <==> forall i | 0 <= i < |vs| :: CosineOf(sqrt, vs[i], v) == 1.0
  {
    if vs != [] {
      var m := |vs| - 1;
      SumAgainstIsFull(sqrt, vs[..m], v);
      SumAgainstRange(sqrt, vs[..m], v);
      CosineRange(sqrt, vs[m], v);
    }
  }

  /** Every two vectors have cosine 1. */
  ghost predicate AllAligned(sqrt: real -> real, vs: seq<Vector>)
    requires SameDimension(vs)
  {
    forall i, j | 0 <= i < j < |vs| :: CosineOf(sqrt, vs[i], vs[j]) == 1.0
  }

  lemma {:induction false} PairSumIsFull(sqrt: real -> real, vs: seq<Vector>)
    requires IsSqrt(sqrt) && SameDimension(vs)
    ensures PairSum(sqrt, vs) == Pairs(|vs|) as real <==> AllAligned(sqrt, vs)
  {
    if vs != [] {
      var m := |vs| - 1;
      var front := vs[..m];
      PairSumIsFull(sqrt, front);
      PairSumRange(sqrt, front);
      SumAgainstRange(sqrt, front, vs[m]);
      SumAgainstIsFull(sqrt, front, vs[m]);
      PairsStep(m);
      assert AllAligned(sqrt, vs) <==>
        AllAligned(sqrt, front) && forall i | 0 <= i < m :: CosineOf(sqrt, front[i], vs[m]) == 1.0;
    }
  }

  /** The mean is 1 exactly when there are two embeddings at least and all of them are aligned. */
  lemma MeanIsOneExactly(sqrt: real -> real, vs: seq<Vector>)
    requires IsSqrt(sqrt) && SameDimension(vs)
    ensures MeanPairwise(sqrt, vs) == 1.0 <==> |vs| >= 2 && AllAligned(sqrt, vs)
    ensures |vs| < 2 ==> MeanPairwise(sqrt, vs) == 0.0
  {
    if |vs| >= 2 {
      PairSumIsFull(sqrt, vs);
      PairsPositive(|vs|);
      QuotientOrder(PairSum(sqrt, vs), Pairs(|vs|) as real, 1.0);
    }
  }

  /** The source's order: row i against the later vectors up to k. */
  function RowSum(sqrt: real -> real, vs: seq<Vector>, i: nat, k: nat): real
    requires SameDimension(vs) && i < k <= |vs|
  {
    if k == i + 1 then 0.0 else RowSum(sqrt, vs, i, k - 1) + CosineOf(sqrt, vs[i], vs[k - 1])
  }

  function Rows(sqrt: real -> real, vs: seq<Vector>, i: nat, k: nat): real
    requires SameDimension(vs) && i <= k <= |vs|
  {
    if i == 0 then 0.0 else Rows(sqrt, vs, i - 1, k) + RowSum(sqrt, vs, i - 1, k)
  }

  lemma {:induction false} RowsGrow(sqrt: real -> real, vs: seq<Vector>, i: nat, k: nat)
    requires SameDimension(vs) && i <= k < |vs|
    ensures Rows(sqrt, vs, i, k + 1) == Rows(sqrt, vs, i, k) + SumAgainst(sqrt, vs[..i], vs[k])
  {
    if i > 0 {
      RowsGrow(sqrt, vs, i - 1, k);
      assert vs[..i][..i - 1] == vs[..i - 1];
    }
  }

  /** Summing row by row visits every unordered pair once. */
  lemma {:induction false} RowsArePairs(sqrt: real -> real, vs: seq<Vector>, k: nat)
    requires SameDimension(vs) && k <= |vs|
    ensures Rows(sqrt, vs, k, k) == PairSum(sqrt, vs[..k])
  {
    if k > 0 {
      RowsArePairs(sqrt, vs, k - 1);
      RowsGrow(sqrt, vs, k - 1, k - 1);
      assert vs[..k][..k - 1] == vs[..k - 1];
    }
  }

  method MeanPairwiseCosine(sqrt: real -> real, vectors: seq<Vector>) returns (r: real)
    requires IsSqrt(sqrt) && SameDimension(vectors)
    ensures r == MeanPairwise(sqrt, vectors) && -1.0 <= r <= 1.0
  {
    MeanPairwiseRange(sqrt, vectors);
    var n := |vectors|;
    if n < 2 {
      return 0.0;
    }
    var sum, count := 0.0, 0;
    for i := 0 to n - 1
      invariant sum == Rows(sqrt, vectors, i, n)
      invariant count == Pairs(n) - Pairs(n - i)
    {
      ghost var before := count;
      for j := i + 1 to n
        invariant sum == Rows(sqrt, vectors, i, n) + RowSum(sqrt, vectors, i, j)
        invariant count == before + (j - i - 1)
      {
        var c := Cosine(sqrt, vectors[i], vectors[j]);
        sum := sum + c;
        count := count + 1;
      }
    }
    assert RowSum(sqrt, vectors, n - 1, n) == 0.0;
    RowsArePairs(sqrt, vectors, n);
    assert vectors[..n] == vectors;
    PairsPositive(n);
    return sum / count as real;
  }

  lemma {:induction false} PairsEven(n: nat)
    ensures n * (n - 1) == 2 * Pairs(n)
  {
    if n > 0 {
      PairsEven(n - 1);
      assert n * (n - 1) == (n - 1) * (n - 2) + 2 * (n - 1);
    }
  }

  // ---- The tracker ---------------------------------------------------------------------------

  function Last<T>(s: seq<T>, k: int): seq<T> {
    if k <= 0 then [] else if |s| <= k then s else s[|s| - k..]
  }

  lemma LastStep<T>(s: seq<T>, x: T, k: int)
    requires k >= 1
    ensures Last(s + [x], k) == (if |Last(s, k)| >= k then Last(s, k)[1..] else Last(s, k)) + [x]
  {
  }

  lemma LastSameDimension(vs: seq<Vector>, k: int, d: nat)
    requires forall i | 0 <= i < |vs| :: |vs[i]| == d
    ensures SameDimension(Last(vs, k))
  {
  }

  datatype TrackerError = WindowTooSmall | ThresholdOutOfRange | EmptyVector | DimensionMismatch(expected: nat, got: nat)

  datatype Verdict = Verdict(isSemanticStall: bool, meanCosine: real, windowSize: nat)

  class SemanticCoherenceTracker {
    const sqrt: real -> real
    const windowSize: int
    const threshold: real
    var buffer: seq<Vector>
    var expectedDim: Option<nat>
    /** The embeddings accepted since the last reset. */
    ghost var accepted: seq<Vector>

    ghost predicate Valid()
      reads this
    {
      && IsSqrt(sqrt) && windowSize >= 2 && 0.0 < threshold <= 1.0
      && buffer == Last(accepted, windowSize)
      && (forall i | 0 <= i < |accepted| :: expectedDim == Some(|accepted[i]|))
      && (expectedDim == None ==> accepted == [])
    }

    constructor (sqrt: real -> real, windowSize: int, threshold: real)
      requires IsSqrt(sqrt) && windowSize >= 2 && 0.0 < threshold <= 1.0
      ensures Valid() && accepted == [] && expectedDim == None
      ensures this.sqrt == sqrt && this.windowSize == windowSize && this.threshold == threshold
    {
      this.sqrt, this.windowSize, this.threshold := sqrt, windowSize, threshold;
      buffer, expectedDim, accepted := [], None, [];
    }

    /** Drop the oldest embedding when the ring is full, then add the new one. */
    method Shift(vec: Vector)
      requires Valid() && expectedDim == Some(|vec|)
      modifies this`buffer, this`accepted
      ensures Valid() && accepted == old(accepted) + [vec]
      ensures buffer == Last(accepted, windowSize) && SameDimension(buffer)
    {
      if |buffer| >= windowSize {
        buffer := buffer[1..];
      }
      buffer := buffer + [vec];
      LastStep(accepted, vec, windowSize);
      LastSameDimension(accepted + [vec], windowSize, |vec|);
      accepted := accepted + [vec];
    }

    /** One observation, from the embedding on. */
    method Observe(vec: Vector) returns (r: Result<Verdict, TrackerError>)
      requires Valid()
      modifies this`buffer, this`expectedDim, this`accepted
      ensures Valid()
      ensures r.Err? ==> accepted == old(accepted) && buffer == old(buffer) && expectedDim == old(expectedDim)
      ensures r == Err(EmptyVector) <==> vec == []
      ensures vec != [] ==> (r.Err? <==> old(expectedDim) != None && old(expectedDim).value != |vec|)
      ensures r.Ok? ==> accepted == old(accepted) + [vec] && SameDimension(Last(accepted, windowSize))
      ensures r.Ok? ==> r.value.meanCosine == MeanPairwise(sqrt, Last(accepted, windowSize))
      ensures r.Ok? ==> r.value.windowSize == |buffer|
      ensures r.Ok? ==> (r.value.isSemanticStall <==>
        |Last(accepted, windowSize)| >= 3 && MeanPairwise(sqrt, Last(accepted, windowSize)) >= threshold)
    {
      if |vec| == 0 {
        return Err(EmptyVector);
      }
      if expectedDim == None {
        expectedDim := Some(|vec|);
      } else if |vec| != expectedDim.value {
        return Err(DimensionMismatch(expectedDim.value, |vec|));
      }
      Shift(vec);
      var meanCosine := MeanPairwiseCosine(sqrt, buffer);
      return Ok(Verdict(|buffer| >= 3 && meanCosine >= threshold, meanCosine, |buffer|));
    }

    method Reset()
      requires Valid()
      modifies this
      ensures Valid() && accepted == [] && expectedDim == None
    {
      buffer, expectedDim, accepted := [], None, [];
    }
  }

  /** The constructor's checks. */
  method CreateTracker(sqrt: real -> real, windowSize: int, threshold: real)
    returns (r: Result<SemanticCoherenceTracker, TrackerError>)
    requires IsSqrt(sqrt)
    ensures r.Ok? ==> fresh(r.value) && r.value.Valid() && r.value.accepted == []
    ensures r == Err(WindowTooSmall) <==> windowSize < 2
    ensures r == Err(ThresholdOutOfRange) <==> windowSize >= 2 && !(0.0 < threshold <= 1.0)
    ensures r.Ok? <==> windowSize >= 2 && 0.0 < threshold <= 1.0
  {
    if windowSize < 2 {
      return Err(WindowTooSmall);
    }
    if threshold <= 0.0 || threshold > 1.0 {
      return Err(ThresholdOutOfRange);
    }
    var t := new SemanticCoherenceTracker(sqrt, windowSize, threshold);
    return Ok(t);
  }
}
