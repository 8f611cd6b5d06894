/**
 * Goal proximity and plateau detection (`PromiseProgressTracker`,
 * src/budget/promise-progress.ts; `cosineSimilarity`, src/safety/immune.ts).
 */
module Progress {
  import opened Wrappers
  import opened Arithmetic
  import opened Coherence

  /** Unlike the coherence tracker's cosine, vectors of different lengths have similarity 0. */
  function Similarity(sqrt: real -> real, a: Vector, b: Vector): real {
    if |a| != |b| then 0.0 else CosineOf(sqrt, a, b)
  }

  method CosineSimilarity(sqrt: real -> real, a: Vector, b: Vector) returns (r: real)
    requires IsSqrt(sqrt)
    ensures r == Similarity(sqrt, a, b) && -1.0 <= r <= 1.0
  {
    if |a| != |b| {
      return 0.0;
    }
    r := Cosine(sqrt, a, b);
  }

  // ---- Deltas telescope ----------------------------------------------------------------------

  /** The step-over-step changes; the first step has no predecessor and counts as 0. */
  function Deltas(p: seq<real>): seq<real>
  {
    seq(|p|, i requires 0 <= i < |p| => if i == 0 then 0.0 else p[i] - p[i - 1])
  }

  function Abs(x: real): real {
    if x < 0.0 then -x else x
  }

  ghost predicate AllSmall(d: seq<real>, epsilon: real) {
    forall i | 0 <= i < |d| :: Abs(d[i]) < epsilon
  }

  /** The detector's answer, read off the whole history instead of the sliding window. */
  ghost predicate Plateau(history: seq<real>, windowSize: int, epsilon: real) {
    |history| >= windowSize && AllSmall(Last(Deltas(history), windowSize), epsilon)
  }

  /** The observation the oldest delta of the window is measured from. */
  function Base(n: nat, windowSize: nat): nat
    requires n >= 1
  {
    if windowSize < n then n - 1 - windowSize else 0
  }

  /** Less than epsilon per step. */
  ghost predicate Within(change: real, steps: nat, epsilon: real) {
    Abs(change) < steps as real * epsilon
  }

  ghost predicate SmallSteps(p: seq<real>, base: nat, epsilon: real) {
    forall k | base < k < |p| :: Abs(p[k] - p[k - 1]) < epsilon
  }

  lemma WithinOneMore(change: real, delta: real, steps: nat, epsilon: real)
    requires (steps == 0 && change == 0.0) || Within(change, steps, epsilon)
    requires Abs(delta) < epsilon
    ensures Within(change + delta, steps + 1, epsilon)
  {
    assert (steps as real + 1.0) * epsilon == steps as real * epsilon + epsilon;
  }

  /** Consecutive small steps add up. */
  lemma {:induction false} StepsAddUp(p: seq<real>, base: nat, epsilon: real, i: nat, j: nat)
    requires base <= i < j < |p| && SmallSteps(p, base, epsilon)
    ensures Within(p[j] - p[i], j - i, epsilon)
  {
    var delta := p[j] - p[j - 1];
    if j > i + 1 {
      StepsAddUp(p, base, epsilon, i, j - 1);
      WithinOneMore(p[j - 1] - p[i], delta, j - 1 - i, epsilon);
    } else {
      WithinOneMore(0.0, delta, 0, epsilon);
    }
  }

  lemma PlateauSteps(p: seq<real>, windowSize: nat, epsilon: real)
    requires windowSize >= 1 && Plateau(p, windowSize, epsilon)
    ensures epsilon > 0.0
    ensures SmallSteps(p, Base(|p|, windowSize), epsilon)
  {
    var n := |p|;
    var window := Last(Deltas(p), windowSize);
    assert |window| == windowSize;
    assert Abs(window[0]) < epsilon;
    forall k | Base(n, windowSize) < k < n
      ensures Abs(p[k] - p[k - 1]) < epsilon
    {
      assert window[k - (n - windowSize)] == Deltas(p)[k];
    }
  }

  lemma WidenWithin(change: real, steps: nat, more: nat, epsilon: real)
    requires steps <= more && epsilon > 0.0 && more >= 1
    requires (steps == 0 && change == 0.0) || Within(change, steps, epsilon)
    ensures Within(change, more, epsilon)
  {
    assert (more - steps) as real * epsilon >= 0.0;
    assert more as real * epsilon == steps as real * epsilon + (more - steps) as real * epsilon;
    if steps == 0 {
      assert more as real * epsilon == (more - 1) as real * epsilon + epsilon;
      assert (more - 1) as real * epsilon >= 0.0;
    }
  }

  /**
   * A plateau bounds the net change, not only the single steps: over the whole window the
   * promise moved by less than windowSize * epsilon, and (next lemma) any two promises the
   * window spans are less than epsilon per step apart.
   */
  lemma PlateauBoundsDrift(p: seq<real>, windowSize: nat, epsilon: real)
    requires windowSize >= 1 && Plateau(p, windowSize, epsilon)
    ensures Within(p[|p| - 1] - p[Base(|p|, windowSize)], windowSize, epsilon)
  {
    var n, base := |p|, Base(|p|, windowSize);
    PlateauSteps(p, windowSize, epsilon);
    if base < n - 1 {
      StepsAddUp(p, base, epsilon, base, n - 1);
    }
    WidenWithin(p[n - 1] - p[base], n - 1 - base, windowSize, epsilon);
  }

  lemma PlateauBoundsPairs(p: seq<real>, windowSize: nat, epsilon: real, i: nat, j: nat)
    requires windowSize >= 1 && Plateau(p, windowSize, epsilon)
    requires Base(|p|, windowSize) <= i < j < |p|
    ensures Within(p[j] - p[i], j - i, epsilon)
  {
    PlateauSteps(p, windowSize, epsilon);
    StepsAddUp(p, Base(|p|, windowSize), epsilon, i, j);
  }

  /** A climb of `steps` equal steps. */
  function Ramp(start: real, step: real, steps: nat): (p: seq<real>)
    ensures |p| == steps + 1 && p[0] == start
    ensures forall i | 1 <= i <= steps :: p[i] == p[i - 1] + step
  {
    if steps == 0 then [start]
    else
      var p := Ramp(start, step, steps - 1);
      p + [p[steps - 1] + step]
  }

  lemma {:induction false} RampEnd(start: real, step: real, steps: nat)
    ensures Ramp(start, step, steps)[steps] == start + steps as real * step
  {
    if steps > 0 {
      RampEnd(start, step, steps - 1);
      assert steps as real * step == (steps - 1) as real * step + step;
    }
  }

  /**
   * The bound cannot be improved on numbers: every change short of windowSize * epsilon is reached by a
   * steady climb that the detector calls a plateau.
   */
  lemma DriftBoundIsTight(start: real, change: real, windowSize: nat, epsilon: real)
    requires windowSize >= 1 && Within(change, windowSize, epsilon)
    ensures var p := Ramp(start, change / windowSize as real, windowSize);
      && Plateau(p, windowSize, epsilon)
      && p[|p| - 1] - p[Base(|p|, windowSize)] == change
  {
    var step := change / windowSize as real;
    RampEnd(start, step, windowSize);
    StepIsSmall(windowSize, step, change, epsilon);
    RampIsPlateau(start, step, windowSize, epsilon);
  }

  /** Any history of promises in [-1, 1] is seen by some outputs, against a goal in the plane. */
  lemma {:induction false} EveryHistoryIsReachable(sqrt: real -> real, history: seq<real>) returns (outputs: seq<Vector>)
    requires IsSqrt(sqrt) && forall i | 0 <= i < |history| :: -1.0 <= history[i] <= 1.0
    ensures Promises(sqrt, Some([1.0, 0.0]), outputs, history)
  {
    outputs := [];
    if history != [] {
      var m := |history| - 1;
      outputs := EveryHistoryIsReachable(sqrt, history[..m]);
      var p := history[m];
      var output := PointAt(sqrt, p);
      PromisesGrow(sqrt, Some([1.0, 0.0]), outputs, history[..m], output);
      outputs := outputs + [output];
      assert history == history[..m] + [p];
    }
  }

  /** A unit vector of the plane at a given cosine to [1, 0]. */
  lemma PointAt(sqrt: real -> real, p: real) returns (output: Vector)
    requires IsSqrt(sqrt) && -1.0 <= p <= 1.0
    ensures Similarity(sqrt, [1.0, 0.0], output) == p
  {
    var goal := [1.0, 0.0];
    var h := sqrt(1.0 - p * p);
    assert 1.0 - p * p >= 0.0 by {
      if p < 1.0 {
        SignOfProduct(1.0 - p, 1.0 + p);
      }
      assert (1.0 - p) * (1.0 + p) == 1.0 - p * p;
    }
    output := [p, h];
    DotInPlane(1.0, 0.0, 1.0, 0.0);
    DotInPlane(p, h, p, h);
    DotInPlane(1.0, 0.0, p, h);
    var one := sqrt(1.0);
    assert one >= 0.0 && one * one == 1.0;
    RootOfOne(one);
    assert Dot(output, output) == 1.0;
    assert Quotient(p, one, one) == p;
  }

  lemma DotInPlane(a: real, b: real, c: real, d: real)
    ensures Dot([a, b], [c, d]) == a * c + b * d
  {
    assert [a, b][..1] == [a] && [c, d][..1] == [c];
    assert [a][..0] == [] && [c][..0] == [];
    assert Dot([a], [c]) == a * c;
  }

  /**
   * The same for a tracker: when the climb starts and ends in [-1, 1], some outputs make it
   * the history of promises.
   */
  lemma DriftBoundIsReached(sqrt: real -> real, start: real, change: real, windowSize: nat, epsilon: real)
    returns (outputs: seq<Vector>, history: seq<real>)
    requires IsSqrt(sqrt) && windowSize >= 1 && Within(change, windowSize, epsilon)
    requires -1.0 <= start <= 1.0 && -1.0 <= start + change <= 1.0
    ensures Promises(sqrt, Some([1.0, 0.0]), outputs, history) && Plateau(history, windowSize, epsilon)
    ensures history[0] == start && history[|history| - 1] - history[Base(|history|, windowSize)] == change
  {
    var step := change / windowSize as real;
    history := Ramp(start, step, windowSize);
    DriftBoundIsTight(start, change, windowSize, epsilon);
    forall i | 0 <= i < |history|
      ensures -1.0 <= history[i] <= 1.0
    {
      RampBetween(start, step, windowSize, i);
    }
    outputs := EveryHistoryIsReachable(sqrt, history);
  }

  /** A climb stays between its ends. */
  lemma {:induction false} RampBetween(start: real, step: real, steps: nat, i: nat)
    requires i <= steps
    ensures var p := Ramp(start, step, steps);
      if step >= 0.0 then start <= p[i] <= p[steps] else p[steps] <= p[i] <= start
  {
    if i < steps {
      RampBetween(start, step, steps - 1, i);
    } else if steps > 0 {
      RampBetween(start, step, steps - 1, steps - 1);
    }
  }

  lemma {:induction false} RampIsPlateau(start: real, step: real, windowSize: nat, epsilon: real)
    requires windowSize >= 1 && Abs(step) < epsilon
    ensures Plateau(Ramp(start, step, windowSize), windowSize, epsilon)
  {
    var p := Ramp(start, step, windowSize);
    forall i | 1 <= i < |p|
      ensures Abs(Deltas(p)[i]) < epsilon
    {
      assert p[i] == p[i - 1] + step;
    }
    assert Last(Deltas(p), windowSize) == Deltas(p)[1..];
  }

  lemma StepIsSmall(windowSize: nat, step: real, change: real, epsilon: real)
    requires windowSize >= 1 && step == change / windowSize as real && Within(change, windowSize, epsilon)
    ensures Abs(step) < epsilon && windowSize as real * step == change
  {
    var w := windowSize as real;
    assert w * step == change;
    assert w * (epsilon - step) == w * epsilon - change;
    assert w * (epsilon + step) == w * epsilon + change;
    SignOfProduct(w, epsilon - step);
    SignOfProduct(w, epsilon + step);
  }

  ghost predicate AllWithin(d: seq<real>, epsilon: real) {
    forall i | 0 <= i < |d| :: Abs(d[i]) <= epsilon
  }

  ghost predicate TouchesBound(d: seq<real>, epsilon: real) {
    exists i | 0 <= i < |d| :: Abs(d[i]) == epsilon
  }

  /** The documented detector: the deltas of a full window lie in the closed interval. */
  ghost predicate DocumentedPlateau(history: seq<real>, windowSize: int, epsilon: real) {
    |history| >= windowSize && AllWithin(Last(Deltas(history), windowSize), epsilon)
  }

  /** The strict test differs from the documented one exactly when the window touches the bound and stays within. */
  lemma PlateauIsDocumentedExactly(history: seq<real>, windowSize: int, epsilon: real)
    ensures Plateau(history, windowSize, epsilon) ==> DocumentedPlateau(history, windowSize, epsilon)
    ensures (Plateau(history, windowSize, epsilon) <==> DocumentedPlateau(history, windowSize, epsilon))
      <==> !(DocumentedPlateau(history, windowSize, epsilon)
             && TouchesBound(Last(Deltas(history), windowSize), epsilon))
  {
    var window := Last(Deltas(history), windowSize);
    if AllWithin(window, epsilon) && !TouchesBound(window, epsilon) {
      assert forall i | 0 <= i < |window| :: Abs(window[i]) < epsilon;
    }
    if TouchesBound(window, epsilon) {
      var i :| 0 <= i < |window| && Abs(window[i]) == epsilon;
      assert !(Abs(window[i]) < epsilon);
    }
  }

  /** A history that stands still and then jumps. */
  function Jump(from: real, change: real, still: nat): seq<real> {
    seq(still, _ => from) + [from + change]
  }

  lemma JumpWindow(from: real, change: real, windowSize: nat)
    requires windowSize >= 1
    ensures var window := Last(Deltas(Jump(from, change, windowSize)), windowSize);
      && |window| == windowSize && window[windowSize - 1] == change
      && forall i | 0 <= i < windowSize - 1 :: window[i] == 0.0
  {
    var p := Jump(from, change, windowSize);
    assert Last(Deltas(p), windowSize) == Deltas(p)[1..];
  }

  /** Some tracker sees a history on which the strict and the documented test differ. */
  ghost predicate DifferenceIsReached(sqrt: real -> real, windowSize: nat, epsilon: real) {
    exists goal: Vector, outputs: seq<Vector>, history: seq<real> ::
      && Promises(sqrt, Some(goal), outputs, history)
      && Plateau(history, windowSize, epsilon) != DocumentedPlateau(history, windowSize, epsilon)
  }

  lemma JumpIsReached(sqrt: real -> real, windowSize: nat, epsilon: real)
    requires IsSqrt(sqrt) && windowSize >= 1 && 0.0 <= epsilon <= 2.0
    ensures DifferenceIsReached(sqrt, windowSize, epsilon)
  {
    var history := Jump(-epsilon / 2.0, epsilon, windowSize);
    var outputs := EveryHistoryIsReachable(sqrt, history);
    JumpWindow(-epsilon / 2.0, epsilon, windowSize);
    var window := Last(Deltas(history), windowSize);
    assert Abs(window[windowSize - 1]) == epsilon;
    assert DocumentedPlateau(history, windowSize, epsilon) && TouchesBound(window, epsilon);
    PlateauIsDocumentedExactly(history, windowSize, epsilon);
  }

  lemma DeltasAreBounded(sqrt: real -> real, goal: Vector, outputs: seq<Vector>, history: seq<real>, k: int, i: nat)
    requires IsSqrt(sqrt) && Promises(sqrt, Some(goal), outputs, history) && i < |Last(Deltas(history), k)|
    ensures 0.0 <= Abs(Last(Deltas(history), k)[i]) <= 2.0
  {
    forall j | 0 <= j < |history|
      ensures -1.0 <= history[j] <= 1.0
    {
      SimilarityRange(sqrt, goal, outputs[j]);
    }
    assert Last(Deltas(history), k)[i] == Deltas(history)[|history| - |Last(Deltas(history), k)| + i];
  }

  lemma SimilarityRange(sqrt: real -> real, a: Vector, b: Vector)
    requires IsSqrt(sqrt)
    ensures -1.0 <= Similarity(sqrt, a, b) <= 1.0
  {
    if |a| == |b| {
      CosineRange(sqrt, a, b);
    }
  }

  /** The two tests can differ for some goal and outputs exactly when epsilon is a change a promise can make. */
  lemma DifferenceIsReachedExactly(sqrt: real -> real, windowSize: nat, epsilon: real)
    requires IsSqrt(sqrt) && windowSize >= 1
    ensures DifferenceIsReached(sqrt, windowSize, epsilon) <==> 0.0 <= epsilon <= 2.0
  {
    if 0.0 <= epsilon <= 2.0 {
      JumpIsReached(sqrt, windowSize, epsilon);
    }
    if DifferenceIsReached(sqrt, windowSize, epsilon) {
      var goal: Vector, outputs: seq<Vector>, history: seq<real> :|
        && Promises(sqrt, Some(goal), outputs, history)
        && Plateau(history, windowSize, epsilon) != DocumentedPlateau(history, windowSize, epsilon);
      PlateauIsDocumentedExactly(history, windowSize, epsilon);
      var window := Last(Deltas(history), windowSize);
      assert TouchesBound(window, epsilon);
      var i: nat :| i < |window| && Abs(window[i]) == epsilon;
      DeltasAreBounded(sqrt, goal, outputs, history, windowSize, i);
    }
  }

  /** Without a positive epsilon no full window passes the strict test. */
  lemma NoPlateauWithoutEpsilon(history: seq<real>, windowSize: int, epsilon: real)
    requires windowSize >= 1 && epsilon <= 0.0
    ensures !Plateau(history, windowSize, epsilon)
  {
    if Plateau(history, windowSize, epsilon) {
      PlateauSteps(history, windowSize, epsilon);
    }
  }

  /** The configuration is not validated: without a positive window every run is a plateau. */
  lemma EmptyWindowIsAlwaysPlateau(p: seq<real>, windowSize: int, epsilon: real)
    requires windowSize <= 0
    ensures Plateau(p, windowSize, epsilon)
  {
  }

  /** Sum of the first k changes. */
  function SumTo(d: seq<real>, k: nat): real
    requires k <= |d|
  {
    if k == 0 then 0.0 else SumTo(d, k - 1) + d[k - 1]
  }

  /** The changes add up to the progress made: towards the goal is positive. */
  lemma {:induction false} ProgressAddsUp(history: seq<real>, i: nat)
    requires i < |history|
    ensures SumTo(Deltas(history), i + 1) == history[i] - history[0]
  {
    if i > 0 {
      ProgressAddsUp(history, i - 1);
    } else {
      assert SumTo(Deltas(history), 0) == 0.0;
    }
  }

  /** A run that stands still is a plateau exactly once it fills the window. */
  lemma StandstillIsPlateauExactly(promise: real, n: nat, windowSize: nat, epsilon: real)
    requires epsilon > 0.0
    ensures Plateau(seq(n, _ => promise), windowSize, epsilon) <==> n >= windowSize
  {
    var window := Last(Deltas(seq(n, _ => promise)), windowSize);
    assert forall i | 0 <= i < |window| :: window[i] == 0.0;
  }

  // ---- The tracker ----------------------------------------------------------------------------

  datatype Snapshot = Snapshot(promise: real, progress: real, isPlateau: bool, observations: nat)

  /** The history holds the similarity of each output to the goal; without a goal there is none. */
  ghost predicate Promises(sqrt: real -> real, goal: Option<Vector>, outputs: seq<Vector>, history: seq<real>) {
    && |history| == |outputs|
    && forall i | 0 <= i < |outputs| :: goal.Some? && history[i] == Similarity(sqrt, goal.value, outputs[i])
  }

  lemma PromisesGrow(sqrt: real -> real, goal: Option<Vector>, outputs: seq<Vector>, history: seq<real>, output: Vector)
    requires Promises(sqrt, goal, outputs, history) && goal.Some?
    ensures Promises(sqrt, goal, outputs + [output], history + [Similarity(sqrt, goal.value, output)])
  {
  }

  lemma DeltasGrow(history: seq<real>, current: real, delta: real)
    requires delta == if history == [] then 0.0 else current - history[|history| - 1]
    ensures Deltas(history + [current]) == Deltas(history) + [delta]
  {
    var m := |history|;
    var longer := history + [current];
    forall i | 0 <= i < m
      ensures Deltas(longer)[i] == Deltas(history)[i]
    {
      assert longer[i] == history[i] && (i > 0 ==> longer[i - 1] == history[i - 1]);
    }
    assert Deltas(longer)[m] == delta;
  }

  function LastOr0(s: seq<real>): real {
    if s == [] then 0.0 else s[|s| - 1]
  }

  method Every(deltas: seq<real>, epsilon: real) returns (r: bool)
    ensures r <==> AllSmall(deltas, epsilon)
  {
    for i := 0 to |deltas|
      invariant forall j | 0 <= j < i :: Abs(deltas[j]) < epsilon
    {
      if !(Abs(deltas[i]) < epsilon) {
        return false;
      }
    }
    return true;
  }

  class PromiseProgressTracker {
    const sqrt: real -> real
    const epsilon: real
    const windowSize: int
    var goal: Option<Vector>
    var promiseHistory: seq<real>
    var deltaWindow: seq<real>
    /** The output embeddings observed since the last reset. */
    ghost var outputs: seq<Vector>

    ghost predicate Valid()
      reads this
    {
      && IsSqrt(sqrt)
      && Promises(sqrt, goal, outputs, promiseHistory)
      && deltaWindow == Last(Deltas(promiseHistory), windowSize)
    }

    constructor (sqrt: real -> real, epsilon: real, windowSize: int)
      requires IsSqrt(sqrt)
      ensures Valid() && outputs == [] && goal == None
      ensures this.sqrt == sqrt && this.epsilon == epsilon && this.windowSize == windowSize
    {
      this.sqrt, this.epsilon, this.windowSize := sqrt, epsilon, windowSize;
      goal, promiseHistory, deltaWindow, outputs := None, [], [], [];
    }

    method DetectPlateau() returns (r: bool)
      requires deltaWindow == Last(Deltas(promiseHistory), windowSize)
      ensures r <==> Plateau(promiseHistory, windowSize, epsilon)
    {
      assert |deltaWindow| < windowSize <==> |promiseHistory| < windowSize;
      if |deltaWindow| < windowSize {
        return false;
      }
      r := Every(deltaWindow, epsilon);
    }

    /** The deque holds windowSize deltas at most. */
    method PushDelta(delta: real, ghost before: seq<real>)
      requires deltaWindow == Last(before, windowSize)
      modifies this`deltaWindow
      ensures deltaWindow == Last(before + [delta], windowSize)
    {
      if windowSize >= 1 {
        LastStep(before, delta, windowSize);
      }
      deltaWindow := deltaWindow + [delta];
      if |deltaWindow| > windowSize {
        deltaWindow := deltaWindow[1..];
      }
    }

    /**
     * One observation. `goalEmbedding` is what embedding the goal text would return; it is
     * used by the first observation after construction or reset only.
     */
    method Observe(goalEmbedding: Vector, output: Vector) returns (r: Snapshot)
      requires Valid()
      modifies this`goal, this`promiseHistory, this`deltaWindow, this`outputs
      ensures Valid()
      ensures outputs == old(outputs) + [output]
      ensures goal == Some(if old(goal).Some? then old(goal).value else goalEmbedding)
      ensures promiseHistory[..|old(promiseHistory)|] == old(promiseHistory)
      ensures -1.0 <= r.promise <= 1.0 && r.promise == Similarity(sqrt, goal.value, output)
      ensures r.progress == Deltas(promiseHistory)[|outputs| - 1] && r.observations == |outputs|
      ensures r.isPlateau <==> Plateau(promiseHistory, windowSize, epsilon)
    {
      if goal == None {
        goal := Some(goalEmbedding);
      }
      var current := CosineSimilarity(sqrt, goal.value, output);
      var delta := Record(current, output);
      var isPlateau := DetectPlateau();
      return Snapshot(current, delta, isPlateau, |promiseHistory|);
    }

    /** History and delta window after a new promise value. */
    method Record(current: real, ghost output: Vector) returns (delta: real)
      requires Valid() && goal.Some? && current == Similarity(sqrt, goal.value, output)
      modifies this`promiseHistory, this`deltaWindow, this`outputs
      ensures Valid()
      ensures outputs == old(outputs) + [output] && promiseHistory == old(promiseHistory) + [current]
      ensures delta == Deltas(promiseHistory)[|outputs| - 1]
    {
      var n := |promiseHistory|;
      var previous := if n > 0 then promiseHistory[n - 1] else current;
      delta := current - previous;
      DeltasGrow(promiseHistory, current, delta);
      PromisesGrow(sqrt, goal, outputs, promiseHistory, output);
      PushDelta(delta, Deltas(promiseHistory));
      promiseHistory := promiseHistory + [current];
      outputs := outputs + [output];
    }

    /** The latest snapshot; with nothing observed, promise and progress are 0. */
    method CurrentSnapshot() returns (r: Snapshot)
      requires Valid()
      ensures var n := |promiseHistory|;
        && n == |outputs| == r.observations
        && r.promise == LastOr0(promiseHistory)
        && r.progress == if windowSize >= 1 then LastOr0(Deltas(promiseHistory)) else 0.0
      ensures r.isPlateau <==> Plateau(promiseHistory, windowSize, epsilon)
    {
      var isPlateau := DetectPlateau();
      assert LastOr0(deltaWindow) == if windowSize >= 1 then LastOr0(Deltas(promiseHistory)) else 0.0;
      return Snapshot(LastOr0(promiseHistory), LastOr0(deltaWindow), isPlateau, |promiseHistory|);
    }

    method Reset()
      requires Valid()
      modifies this`goal, this`promiseHistory, this`deltaWindow, this`outputs
      ensures Valid() && outputs == [] && goal == None && promiseHistory == [] && deltaWindow == []
    {
      goal, promiseHistory, deltaWindow, outputs := None, [], [], [];
    }
  }

  lemma RootOfOne(r: real)
    requires r >= 0.0 && r * r == 1.0
    ensures r == 1.0
  {
    SignOfProduct(r + 1.0, r - 1.0);
    assert (r + 1.0) * (r - 1.0) == r * r - 1.0;
  }

  /** The promise is documented as lying in 0 to 1: it does exactly when the vectors' product is not negative. */
  lemma {:induction false} SimilaritySign(sqrt: real -> real, a: Vector, b: Vector)
    requires IsSqrt(sqrt)
    ensures 0.0 <= Similarity(sqrt, a, b) <= 1.0 <==> |a| != |b| || Dot(a, b) >= 0.0
  {
    if |a| == |b| {
      CosineRange(sqrt, a, b);
      DotFacts(a, b);
      DotFacts(b, a);
      var p, q := sqrt(Dot(a, a)), sqrt(Dot(b, b));
      assert p >= 0.0 && p * p == Dot(a, a) && q >= 0.0 && q * q == Dot(b, b);
      if p == 0.0 {
        ZeroLengthZeroDot(a, b);
      } else if q == 0.0 {
        ZeroLengthZeroDot(b, a);
      }
      ProductOfRoots(p, q);
      QuotientSign(Dot(a, b), p, q);
    }
  }

  /** Nothing ties goal and output exactly when their dimensions differ or their product is zero. */
  lemma {:induction false} SimilarityIsZeroExactly(sqrt: real -> real, a: Vector, b: Vector)
    requires IsSqrt(sqrt)
    ensures Similarity(sqrt, a, b) == 0.0 <==> |a| != |b| || Dot(a, b) == 0.0
  {
    if |a| == |b| {
      CosineScales(sqrt, a, b);
    }
  }

  lemma QuotientSign(d: real, p: real, q: real)
    requires p >= 0.0 && q >= 0.0 && (p == 0.0 || q == 0.0 ==> d == 0.0)
    ensures Quotient(d, p, q) >= 0.0 <==> d >= 0.0
  {
    ProductOfRoots(p, q);
    if p > 0.0 && q > 0.0 {
      SignOfProduct(p, q);
      QuotientOrder(d, p * q, 0.0);
    }
  }

  /** What an observation answers is what the tracker shows afterwards. */
  method ObserveThenRead(t: PromiseProgressTracker, goalEmbedding: Vector, output: Vector)
    returns (answered: Snapshot, shown: Snapshot)
    requires t.Valid()
    modifies t
    ensures t.Valid()
    ensures shown == if t.windowSize >= 1 then answered else answered.(progress := 0.0)
  {
    answered := t.Observe(goalEmbedding, output);
    shown := t.CurrentSnapshot();
  }
}
