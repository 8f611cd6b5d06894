/**
 * Bounded fan-out and deterministic fan-in (`fanOut` and `fanInArgmin`, src/compute/fan.ts).
 *
 * `fanOut` is a transition system. Its workers share the cursor `next`; between two
 * awaits a worker runs alone, so one step is one settled evaluation together with what
 * its worker does until the next await. A schedule is the order in which evaluations
 * settle; it is arbitrary. `evaluate(items[i], i)` settles to `outcome(i)`.
 */
module Fan {
  import opened Wrappers
  import StableSort

  // ---- Fan-out -------------------------------------------------------------------------

  datatype Worker = Evaluating(index: nat) | Finished | Rejected(index: nat)

  datatype Pool<R, E> = Pool(
    n: nat,
    next: nat,
    workers: seq<Worker>,
    results: seq<Option<R>>,
    started: seq<nat>,
    rejection: Option<E>)

  function Min(a: nat, b: nat): nat {
    if a <= b then a else b
  }

  /** `for (let i = next++; i < items.length; ...)`: the worker takes an index or finishes. */
  function Take<R, E>(p: Pool<R, E>, w: nat): Pool<R, E>
    requires w < |p.workers|
  {
    if p.next < p.n then
      p.(next := p.next + 1, workers := p.workers[w := Evaluating(p.next)], started := p.started + [p.next])
    else p.(next := p.next + 1, workers := p.workers[w := Finished])
  }

  /** The pool after its first `k` workers have run to their first await. */
  function Spawned<R, E>(n: nat, size: nat, k: nat): (p: Pool<R, E>)
    requires k <= size
    ensures |p.workers| == size
  {
    if k == 0 then Pool(n, 0, seq(size, _ => Finished), seq(n, _ => None), [], None)
    else Take(Spawned(n, size, k - 1), k - 1)
  }

  /** `fanOut` up to its `await Promise.all`; the concurrency bound must be at least 1. */
  function Start<R, E>(n: nat, maxConcurrency: int): Result<Pool<R, E>, string> {
    if maxConcurrency < 1 then Err("fanOut: maxConcurrency must be >= 1")
    else Ok(Spawned(n, Min(maxConcurrency, n), Min(maxConcurrency, n)))
  }

  predicate Enabled<R, E>(p: Pool<R, E>, w: nat) {
    w < |p.workers| && p.workers[w].Evaluating? && p.workers[w].index < |p.results|
  }

  /** Worker `w`'s evaluation settles. */
  function Step<R, E>(p: Pool<R, E>, w: nat, outcome: nat -> Result<R, E>): Pool<R, E>
    requires Enabled(p, w)
  {
    var i := p.workers[w].index;
    match outcome(i)
    case Ok(v) => Take(p.(results := p.results[i := Some(v)]), w)
    case Err(e) => p.(workers := p.workers[w := Rejected(i)],
                      rejection := if p.rejection == None then Some(e) else p.rejection)
  }

  /** The runs of `fanOut`: every schedule of settled evaluations from its start. */
  ghost predicate Reaches<R, E>(p: Pool<R, E>, schedule: seq<nat>, outcome: nat -> Result<R, E>, q: Pool<R, E>)
    decreases |schedule|
  {
    if schedule == [] then p == q
    else Enabled(p, schedule[0]) && Reaches(Step(p, schedule[0], outcome), schedule[1..], outcome, q)
  }

  /** No evaluation is in flight any more. */
  predicate Quiescent<R, E>(p: Pool<R, E>) {
    forall w | 0 <= w < |p.workers| :: !p.workers[w].Evaluating?
  }

  function InFlight(workers: seq<Worker>): (k: nat)
    ensures k <= |workers|
  {
    if workers == [] then 0 else (if workers[0].Evaluating? then 1 else 0) + InFlight(workers[1..])
  }

  /** Indices not yet settled. */
  function Remaining<R, E>(p: Pool<R, E>): nat {
    p.n - Min(p.next, p.n) + InFlight(p.workers)
  }

  ghost predicate Settled<R, E>(p: Pool<R, E>, i: nat, outcome: nat -> Result<R, E>)
    requires i < |p.results|
  {
    match outcome(i)
    case Ok(v) => p.results[i] == Some(v)
    case Err(_) => p.results[i] == None && p.rejection != None
  }

  ghost predicate Inv<R, E>(p: Pool<R, E>, outcome: nat -> Result<R, E>) {
    Scheduled(p) && Accounted(p, outcome)
  }

  ghost predicate Scheduled<R, E>(p: Pool<R, E>) {
    // every index below the cursor was started once, in order
    && |p.started| == Min(p.next, p.n) && (forall i | 0 <= i < |p.started| :: p.started[i] == i)
    // busy workers hold different started indices; a finished worker saw the end of the list
    && (forall w | 0 <= w < |p.workers| && !p.workers[w].Finished? :: p.workers[w].index < Min(p.next, p.n))
    && (forall v, w | 0 <= v < w < |p.workers| && p.workers[v].Evaluating? && p.workers[w].Evaluating? ::
          p.workers[v].index != p.workers[w].index)
    && (forall w | 0 <= w < |p.workers| && p.workers[w].Finished? :: p.next >= p.n)
  }

  ghost predicate Accounted<R, E>(p: Pool<R, E>, outcome: nat -> Result<R, E>)
    requires Scheduled(p)
  {
    && |p.results| == p.n
    // a started index is being evaluated or settled; the others are untouched
    && (forall w | 0 <= w < |p.workers| && p.workers[w].Evaluating? :: p.results[p.workers[w].index] == None)
    && (forall i | 0 <= i < Min(p.next, p.n) :: Evaluating(i) in p.workers || Settled(p, i, outcome))
    && (forall i | Min(p.next, p.n) <= i < p.n :: p.results[i] == None)
    // the promise is rejected exactly when some worker was
    && (p.rejection != None <==> exists w :: 0 <= w < |p.workers| && p.workers[w].Rejected?)
    && (forall w | 0 <= w < |p.workers| && p.workers[w].Rejected? :: outcome(p.workers[w].index).Err?)
  }

  lemma {:induction false} InFlightUpdate(workers: seq<Worker>, w: nat, x: Worker)
    requires w < |workers|
    ensures InFlight(workers[w := x])
         == InFlight(workers) + (if x.Evaluating? then 1 else 0) - (if workers[w].Evaluating? then 1 else 0)
  {
    if w > 0 {
      InFlightUpdate(workers[1..], w - 1, x);
      assert workers[w := x][1..] == workers[1..][w - 1 := x];
    } else {
      assert workers[w := x][1..] == workers[1..];
    }
  }

  lemma {:induction false} NoneInFlight(workers: seq<Worker>)
    requires forall w | 0 <= w < |workers| :: workers[w] == Finished
    ensures InFlight(workers) == 0
  {
    if workers != [] {
      NoneInFlight(workers[1..]);
    }
  }

  lemma {:induction false} SpawnedState<R, E>(n: nat, size: nat, k: nat)
    requires k <= size <= n
    ensures var p := Spawned<R, E>(n, size, k);
      && p.n == n && p.next == k && p.rejection == None && |p.results| == n
      && (forall i | 0 <= i < n :: p.results[i] == None)
      && |p.started| == k && (forall i | 0 <= i < k :: p.started[i] == i)
      && (forall w | 0 <= w < k :: p.workers[w] == Evaluating(w))
      && (forall w | k <= w < size :: p.workers[w] == Finished)
      && Remaining(p) == n
  {
    if k == 0 {
      NoneInFlight(Spawned<R, E>(n, size, 0).workers);
    } else {
      SpawnedState<R, E>(n, size, k - 1);
      InFlightUpdate(Spawned<R, E>(n, size, k - 1).workers, k - 1, Evaluating(k - 1));
    }
  }

  lemma StartInv<R, E>(n: nat, maxConcurrency: int, outcome: nat -> Result<R, E>)
    requires maxConcurrency >= 1
    ensures var p := Start<R, E>(n, maxConcurrency).value;
      Inv(p, outcome) && Remaining(p) == n && p.n == n && |p.workers| == Min(maxConcurrency, n)
  {
    var size := Min(maxConcurrency, n);
    SpawnedState<R, E>(n, size, size);
    var p := Spawned<R, E>(n, size, size);
    forall i | 0 <= i < size
      ensures Evaluating(i) in p.workers
    {
      assert p.workers[i] == Evaluating(i);
    }
  }

  /** Each step settles one index: what remains shrinks by exactly one. */
  lemma StepSettlesOne<R, E>(p: Pool<R, E>, w: nat, outcome: nat -> Result<R, E>)
    requires Inv(p, outcome) && Enabled(p, w)
    ensures Remaining(Step(p, w, outcome)) == Remaining(p) - 1
  {
    var i := p.workers[w].index;
    if outcome(i).Err? {
      InFlightUpdate(p.workers, w, Rejected(i));
    } else if p.next < p.n {
      InFlightUpdate(p.workers, w, Evaluating(p.next));
    } else {
      InFlightUpdate(p.workers, w, Finished);
    }
  }

  lemma OthersStay(workers: seq<Worker>, w: nat, x: Worker, i: nat)
    requires w < |workers| && Evaluating(i) in workers && workers[w] != Evaluating(i)
    ensures Evaluating(i) in workers[w := x]
  {
    var v :| 0 <= v < |workers| && workers[v] == Evaluating(i);
    assert workers[w := x][v] == Evaluating(i);
  }

  lemma StepRejects<R, E>(p: Pool<R, E>, w: nat, outcome: nat -> Result<R, E>)
    requires Inv(p, outcome) && Enabled(p, w) && outcome(p.workers[w].index).Err?
    ensures Inv(Step(p, w, outcome), outcome)
  {
    var q := Step(p, w, outcome);
    forall i | 0 <= i < Min(q.next, q.n)
      ensures Evaluating(i) in q.workers || Settled(q, i, outcome)
    {
      if i != p.workers[w].index && Evaluating(i) in p.workers {
        OthersStay(p.workers, w, q.workers[w], i);
      }
    }
    assert q.workers[w].Rejected?;
  }

  lemma RejectedStay(workers: seq<Worker>, w: nat, x: Worker)
    requires w < |workers| && !workers[w].Rejected? && !x.Rejected?
    ensures var after := workers[w := x];
      (exists v :: 0 <= v < |workers| && workers[v].Rejected?)
        <==> (exists v :: 0 <= v < |after| && after[v].Rejected?)
  {
    var after := workers[w := x];
    assert forall v | 0 <= v < |workers| :: workers[v].Rejected? <==> after[v].Rejected?;
  }

  lemma StepTakes<R, E>(p: Pool<R, E>, w: nat, outcome: nat -> Result<R, E>)
    requires Inv(p, outcome) && Enabled(p, w) && outcome(p.workers[w].index).Ok?
    ensures Inv(Step(p, w, outcome), outcome)
  {
    var q := Step(p, w, outcome);
    StepSchedules(p, w, outcome);
    StepAccountsFor(p, w, outcome);
    RejectedStay(p.workers, w, q.workers[w]);
  }

  lemma StepSchedules<R, E>(p: Pool<R, E>, w: nat, outcome: nat -> Result<R, E>)
    requires Inv(p, outcome) && Enabled(p, w) && outcome(p.workers[w].index).Ok?
    ensures Scheduled(Step(p, w, outcome))
  {
  }

  /** Every index started so far is still in flight or settled. */
  lemma StepAccountsFor<R, E>(p: Pool<R, E>, w: nat, outcome: nat -> Result<R, E>)
    requires Inv(p, outcome) && Enabled(p, w) && outcome(p.workers[w].index).Ok?
    ensures var q := Step(p, w, outcome);
      |q.results| == q.n && forall i | 0 <= i < Min(q.next, q.n) :: Evaluating(i) in q.workers || Settled(q, i, outcome)
  {
    var q := Step(p, w, outcome);
    forall i | 0 <= i < Min(q.next, q.n)
      ensures Evaluating(i) in q.workers || Settled(q, i, outcome)
    {
      if i < Min(p.next, p.n) {
        if i != p.workers[w].index && Evaluating(i) in p.workers {
          OthersStay(p.workers, w, q.workers[w], i);
        }
      } else {
        assert q.workers[w] == Evaluating(i);
      }
    }
  }

  lemma StepInv<R, E>(p: Pool<R, E>, w: nat, outcome: nat -> Result<R, E>)
    requires Inv(p, outcome) && Enabled(p, w)
    ensures Inv(Step(p, w, outcome), outcome)
  {
    if outcome(p.workers[w].index).Err? {
      StepRejects(p, w, outcome);
    } else {
      StepTakes(p, w, outcome);
    }
  }

  /** Invariant and progress over whole runs: a run has one step per settled index. */
  lemma {:induction false} RunInv<R, E>(p: Pool<R, E>, schedule: seq<nat>, outcome: nat -> Result<R, E>, q: Pool<R, E>)
    requires Inv(p, outcome) && Reaches(p, schedule, outcome, q)
    ensures Inv(q, outcome) && Remaining(q) == Remaining(p) - |schedule|
    ensures q.n == p.n && |q.workers| == |p.workers|
    decreases |schedule|
  {
    if schedule != [] {
      StepInv(p, schedule[0], outcome);
      StepSettlesOne(p, schedule[0], outcome);
      RunInv(Step(p, schedule[0], outcome), schedule[1..], outcome, q);
    }
  }

  lemma {:induction false} QuiescentInFlight(workers: seq<Worker>)
    requires forall w | 0 <= w < |workers| :: !workers[w].Evaluating?
    ensures InFlight(workers) == 0
  {
    if workers != [] {
      QuiescentInFlight(workers[1..]);
    }
  }

  /**
   * At every moment of every run: at most `min(maxConcurrency, n)` evaluations in flight,
   * each index started at most once and in order, and no more than `n` steps.
   */
  lemma {:induction false} BoundedConcurrency<R, E>(n: nat, maxConcurrency: int, schedule: seq<nat>,
                                 outcome: nat -> Result<R, E>, q: Pool<R, E>)
    requires maxConcurrency >= 1
    requires Reaches(Start<R, E>(n, maxConcurrency).value, schedule, outcome, q)
    ensures InFlight(q.workers) <= Min(maxConcurrency, n)
    ensures |q.started| <= n && forall i | 0 <= i < |q.started| :: q.started[i] == i
    ensures |schedule| <= n
    ensures Quiescent(q) || exists w :: Enabled(q, w)
  {
    StartInv(n, maxConcurrency, outcome);
    RunInv(Start<R, E>(n, maxConcurrency).value, schedule, outcome, q);
    if !Quiescent(q) {
      var w :| 0 <= w < |q.workers| && q.workers[w].Evaluating?;
      assert Enabled(q, w);
    }
  }

  /** When every evaluation succeeds, every schedule ends after n steps with the results in input order. */
  lemma {:induction false} ResultsInInputOrder<R, E>(n: nat, maxConcurrency: int, schedule: seq<nat>,
                                  outcome: nat -> Result<R, E>, q: Pool<R, E>)
    requires maxConcurrency >= 1
    requires forall i | 0 <= i < n :: outcome(i).Ok?
    requires Reaches(Start<R, E>(n, maxConcurrency).value, schedule, outcome, q) && Quiescent(q)
    ensures |schedule| == n && q.rejection == None
    ensures q.started == seq(n, i => i)
    ensures q.results == seq(n, i requires 0 <= i < n => Some(outcome(i).value))
  {
    StartInv(n, maxConcurrency, outcome);
    RunInv(Start<R, E>(n, maxConcurrency).value, schedule, outcome, q);
    QuiescentInFlight(q.workers);
    NoWorkerRejected(q, outcome);
    AllSettled(q, outcome);
    InOrder(q, outcome);
  }

  lemma InOrder<R, E>(q: Pool<R, E>, outcome: nat -> Result<R, E>)
    requires Inv(q, outcome) && q.next >= q.n
    requires |q.results| == q.n && forall i | 0 <= i < q.n :: outcome(i).Ok? && q.results[i] == Some(outcome(i).value)
    ensures q.started == seq(q.n, i => i)
    ensures q.results == seq(q.n, i requires 0 <= i < q.n => Some(outcome(i).value))
  {
  }

  lemma NoWorkerRejected<R, E>(p: Pool<R, E>, outcome: nat -> Result<R, E>)
    requires Inv(p, outcome) && forall i | 0 <= i < p.n :: outcome(i).Ok?
    ensures p.rejection == None
  {
  }

  lemma AllSettled<R, E>(p: Pool<R, E>, outcome: nat -> Result<R, E>)
    requires Inv(p, outcome) && Quiescent(p) && p.rejection == None
    requires p.n > 0 ==> |p.workers| > 0
    ensures p.next >= p.n
    ensures forall i | 0 <= i < p.n :: outcome(i).Ok? && p.results[i] == Some(outcome(i).value)
  {
    if p.n > 0 {
      assert p.workers[0].Finished?;
      forall i | 0 <= i < p.n
        ensures outcome(i).Ok? && p.results[i] == Some(outcome(i).value)
      {
        assert Evaluating(i) !in p.workers;
        assert Settled(p, i, outcome);
      }
    }
  }

  /** `fanOut` resolves exactly when no evaluation rejects, whatever the schedule. */
  lemma {:induction false} RejectsIffSomeEvaluationDoes<R, E>(n: nat, maxConcurrency: int, schedule: seq<nat>,
                                           outcome: nat -> Result<R, E>, q: Pool<R, E>)
    requires maxConcurrency >= 1
    requires Reaches(Start<R, E>(n, maxConcurrency).value, schedule, outcome, q) && Quiescent(q)
    ensures q.rejection == None <==> forall i | 0 <= i < n :: outcome(i).Ok?
  {
    StartInv(n, maxConcurrency, outcome);
    RunInv(Start<R, E>(n, maxConcurrency).value, schedule, outcome, q);
    if q.rejection == None {
      AllSettled(q, outcome);
    } else if forall i | 0 <= i < n :: outcome(i).Ok? {
      NoWorkerRejected(q, outcome);
    }
  }

  /** A bound below 1 and an empty candidate set are refused, and nothing else is. */
  lemma RefusedExactly<R, E, C>(n: nat, maxConcurrency: int, cs: seq<C>, score: C -> real, id: C -> string)
    ensures Start<R, E>(n, maxConcurrency).Err? <==> maxConcurrency < 1
    ensures FanInArgmin(cs, score, id).Err? <==> |cs| == 0
  {
  }

  /** The error of the first evaluation of the run that rejects. */
  function FirstError<R, E>(p: Pool<R, E>, schedule: seq<nat>, outcome: nat -> Result<R, E>): Option<E>
    decreases |schedule|
  {
    if schedule == [] || !Enabled(p, schedule[0]) then None
    else
      match outcome(p.workers[schedule[0]].index)
      case Err(e) => Some(e)
      case Ok(_) => FirstError(Step(p, schedule[0], outcome), schedule[1..], outcome)
  }

  lemma {:induction false} RejectionStays<R, E>(p: Pool<R, E>, schedule: seq<nat>, outcome: nat -> Result<R, E>,
                                                q: Pool<R, E>)
    requires Reaches(p, schedule, outcome, q)
    ensures q.rejection == if p.rejection != None then p.rejection else FirstError(p, schedule, outcome)
    decreases |schedule|
  {
    if schedule != [] {
      RejectionStays(Step(p, schedule[0], outcome), schedule[1..], outcome, q);
    }
  }

  /** Whatever comes later, the promise is rejected with the error of the evaluation that rejected first. */
  lemma {:induction false} FirstRejectionWins<R, E>(n: nat, maxConcurrency: int, schedule: seq<nat>,
                                                    outcome: nat -> Result<R, E>, q: Pool<R, E>)
    requires maxConcurrency >= 1
    requires Reaches(Start<R, E>(n, maxConcurrency).value, schedule, outcome, q)
    ensures q.rejection == FirstError(Start<R, E>(n, maxConcurrency).value, schedule, outcome)
  {
    RejectionStays(Start<R, E>(n, maxConcurrency).value, schedule, outcome, q);
    NothingRejectedYet<R, E>(n, Min(maxConcurrency, n), Min(maxConcurrency, n));
  }

  lemma {:induction false} NothingRejectedYet<R, E>(n: nat, size: nat, k: nat)
    requires k <= size
    ensures Spawned<R, E>(n, size, k).rejection == None
  {
    if k > 0 {
      NothingRejectedYet<R, E>(n, size, k - 1);
    }
  }

  // ---- Fan-in --------------------------------------------------------------------------------

  /** JavaScript's `<` on strings: lexicographic on code units. */
  predicate StringLess(a: string, b: string) {
    if b == "" then false
    else if a == "" then true
    else a[0] < b[0] || (a[0] == b[0] && StringLess(a[1..], b[1..]))
  }

  lemma {:induction false} StringOrder(a: string, b: string)
    ensures StringLess(a, b) || StringLess(b, a) || a == b
    ensures !(StringLess(a, b) && StringLess(b, a))
    ensures a == b ==> !StringLess(a, b)
  {
    if a != "" && b != "" {
      StringOrder(a[1..], b[1..]);
      assert a == [a[0]] + a[1..] && b == [b[0]] + b[1..];
    }
  }

  /** The strings agree on k code units, and then the first one ends or has the smaller unit. */
  predicate DropsAt(a: string, b: string, k: nat) {
    k <= |a| && k < |b| && a[..k] == b[..k] && (k == |a| || a[k] < b[k])
  }

  /** The order is the lexicographic one. */
  lemma {:induction false} StringLessExactly(a: string, b: string)
    ensures StringLess(a, b) <==> exists k: nat :: DropsAt(a, b, k)
  {
    if b == "" {
    } else if a == "" {
      assert DropsAt(a, b, 0);
    } else {
      StringLessExactly(a[1..], b[1..]);
      if StringLess(a, b) {
        if a[0] < b[0] {
          assert DropsAt(a, b, 0);
        } else {
          var k: nat :| DropsAt(a[1..], b[1..], k);
          assert a[..k + 1] == [a[0]] + a[1..][..k] && b[..k + 1] == [b[0]] + b[1..][..k];
          assert DropsAt(a, b, k + 1);
        }
      }
      if k: nat :| DropsAt(a, b, k) && k > 0 {
        assert a[0] == a[..k][0] == b[..k][0] == b[0];
        assert a[1..][..k - 1] == a[..k][1..] && b[1..][..k - 1] == b[..k][1..];
        assert DropsAt(a[1..], b[1..], k - 1);
      } else if DropsAt(a, b, 0) {
        assert a[0] < b[0];
      }
    }
  }

  lemma {:induction false} StringTransitive(a: string, b: string, c: string)
    requires StringLess(a, b) && StringLess(b, c)
    ensures StringLess(a, c)
  {
    if a != "" && a[0] == b[0] == c[0] {
      StringTransitive(a[1..], b[1..], c[1..]);
    }
  }

  datatype Entry<C> = Entry(c: C, id: string, score: real)

  datatype Rank = Rank(id: string, score: real)

  datatype Selection<C> = Selection(winner: C, ranked: seq<Rank>)

  /** The comparator: score first, then the smaller id. */
  predicate Precedes(a: Rank, b: Rank) {
    a.score < b.score || (a.score == b.score && !StringLess(b.id, a.id))
  }

  function RankOf<C>(e: Entry<C>): Rank {
    Rank(e.id, e.score)
  }

  function ByRank<C>(): (Entry<C>, Entry<C>) -> bool {
    (a: Entry<C>, b: Entry<C>) => Precedes(RankOf(a), RankOf(b))
  }

  lemma PrecedesIsTotal(a: Rank, b: Rank, c: Rank)
    ensures Precedes(a, b) || Precedes(b, a)
    ensures Precedes(a, b) && Precedes(b, a) ==> a == b
    ensures Precedes(a, b) && Precedes(b, c) ==> Precedes(a, c)
  {
    StringOrder(a.id, b.id);
    StringOrder(b.id, c.id);
    StringOrder(a.id, c.id);
    if StringLess(c.id, a.id) && StringLess(a.id, b.id) {
      StringTransitive(c.id, a.id, b.id);
    }
    if StringLess(b.id, c.id) && StringLess(c.id, a.id) {
      StringTransitive(b.id, c.id, a.id);
    }
  }

  lemma ByRankIsPreorder<C(!new)>()
    ensures StableSort.TotalPreorder(ByRank<C>())
  {
    forall x: Entry<C>, y: Entry<C>
      ensures ByRank<C>()(x, y) || ByRank<C>()(y, x)
    {
      PrecedesIsTotal(RankOf(x), RankOf(y), RankOf(x));
    }
    forall x: Entry<C>, y: Entry<C>, z: Entry<C> | ByRank<C>()(x, y) && ByRank<C>()(y, z)
      ensures ByRank<C>()(x, z)
    {
      PrecedesIsTotal(RankOf(x), RankOf(y), RankOf(z));
    }
  }

  function Entries<C>(cs: seq<C>, score: C -> real, id: C -> string): seq<Entry<C>>
  {
    seq(|cs|, k requires 0 <= k < |cs| => Entry(cs[k], id(cs[k]), score(cs[k])))
  }

  function Ranks<C>(s: seq<Entry<C>>): seq<Rank>
  {
    seq(|s|, k requires 0 <= k < |s| => RankOf(s[k]))
  }

  function FanInArgmin<C>(cs: seq<C>, score: C -> real, id: C -> string): Result<Selection<C>, string> {
    if cs == [] then Err("fanInArgmin: empty candidate set")
    else
      var scored := Entries(cs, score, id);
      var sorted := StableSort.Sort(ByRank<C>(), scored);
      StableSort.SortIsPermutation(ByRank<C>(), scored);
      Ok(Selection(sorted[0].c, Ranks(sorted)))
  }

  lemma {:induction false} InsertRanks<C>(e: Entry<C>, s: seq<Entry<C>>)
    ensures multiset(Ranks(StableSort.Insert(ByRank<C>(), e, s))) == multiset(Ranks(s)) + multiset{RankOf(e)}
  {
    if s == [] {
      assert Ranks([e]) == [RankOf(e)] && Ranks(s) == [];
    } else if ByRank<C>()(e, s[0]) {
      RanksCons(e, s);
    } else {
      var rest := StableSort.Insert(ByRank<C>(), e, s[1..]);
      InsertRanks(e, s[1..]);
      RanksCons(s[0], rest);
      RanksCons(s[0], s[1..]);
      assert s == [s[0]] + s[1..];
    }
  }

  lemma RanksCons<C>(e: Entry<C>, s: seq<Entry<C>>)
    ensures multiset(Ranks([e] + s)) == multiset{RankOf(e)} + multiset(Ranks(s))
  {
    assert Ranks([e] + s) == [RankOf(e)] + Ranks(s);
  }

  lemma {:induction false} SortRanks<C>(s: seq<Entry<C>>)
    ensures multiset(Ranks(StableSort.Sort(ByRank<C>(), s))) == multiset(Ranks(s))
  {
    if s == [] {
      assert Ranks(s) == Ranks(StableSort.Sort(ByRank<C>(), s));
    } else {
      SortRanks(s[1..]);
      InsertRanks(s[0], StableSort.Sort(ByRank<C>(), s[1..]));
      assert Ranks(s) == [RankOf(s[0])] + Ranks(s[1..]);
    }
  }

  /** The winner is the (score, id) minimum and the trace is the sorted permutation of the candidates. */
  lemma SelectionIsArgmin<C(!new)>(cs: seq<C>, score: C -> real, id: C -> string)
    requires cs != []
    ensures var r := FanInArgmin(cs, score, id).value;
      && r.winner in cs
      && (forall c | c in cs :: score(r.winner) <= score(c))
      && (forall c | c in cs && score(c) == score(r.winner) :: !StringLess(id(c), id(r.winner)))
      && r.ranked[0] == Rank(id(r.winner), score(r.winner))
      && multiset(r.ranked) == multiset(Ranks(Entries(cs, score, id)))
      && (forall i, j | 0 <= i < j < |r.ranked| ::
           || r.ranked[i].score < r.ranked[j].score
           || (r.ranked[i].score == r.ranked[j].score && !StringLess(r.ranked[j].id, r.ranked[i].id)))
  {
    var scored := Entries(cs, score, id);
    var sorted := StableSort.Sort(ByRank<C>(), scored);
    ByRankIsPreorder<C>();
    StableSort.SortIsPermutation(ByRank<C>(), scored);
    StableSort.SortIsSorted(ByRank<C>(), scored);
    SortRanks(scored);
    assert sorted[0] in multiset(scored);
    forall i, j | 0 <= i < j < |sorted|
      ensures Precedes(Ranks(sorted)[i], Ranks(sorted)[j])
    {
      assert ByRank<C>()(sorted[i], sorted[j]);
    }
    forall c | c in cs
      ensures Precedes(RankOf(sorted[0]), Rank(id(c), score(c)))
    {
      var k :| 0 <= k < |cs| && cs[k] == c;
      assert scored[k] in multiset(sorted);
      var m :| 0 <= m < |sorted| && sorted[m] == scored[k];
      PrecedesIsTotal(RankOf(sorted[0]), RankOf(sorted[0]), RankOf(sorted[0]));
      assert m > 0 ==> ByRank<C>()(sorted[0], sorted[m]);
    }
  }

  lemma {:induction false} RanksOfPermutation<C>(cs: seq<C>, ds: seq<C>, score: C -> real, id: C -> string)
    requires multiset(cs) == multiset(ds)
    ensures multiset(Ranks(Entries(cs, score, id))) == multiset(Ranks(Entries(ds, score, id)))
  {
    assert |ds| == |multiset(ds)| == |multiset(cs)| == |cs|;
    if cs != [] {
      var k := Position(ds, cs[0], cs);
      assert cs == [cs[0]] + cs[1..] && cs[..0] + cs[0 + 1..] == cs[1..];
      RemoveAt(ds, k);
      RanksOfPermutation(cs[1..], ds[..k] + ds[k + 1..], score, id);
      RanksSplit(cs, 0, score, id);
      RanksSplit(ds, k, score, id);
    } else {
      assert Entries(cs, score, id) == Entries(ds, score, id);
    }
  }

  lemma Position<C>(ds: seq<C>, c: C, cs: seq<C>) returns (k: nat)
    requires c in cs && multiset(cs) == multiset(ds)
    ensures k < |ds| && ds[k] == c
  {
    assert c in multiset(ds);
    k :| 0 <= k < |ds| && ds[k] == c;
  }

  lemma RemoveAt<C>(ds: seq<C>, k: nat)
    requires k < |ds|
    ensures multiset(ds[..k] + ds[k + 1..]) == multiset(ds) - multiset{ds[k]}
  {
    assert ds == ds[..k] + [ds[k]] + ds[k + 1..];
  }

  lemma RanksSplit<C>(ds: seq<C>, k: nat, score: C -> real, id: C -> string)
    requires k < |ds|
    ensures multiset(Ranks(Entries(ds, score, id)))
         == multiset(Ranks(Entries(ds[..k] + ds[k + 1..], score, id))) + multiset{Rank(id(ds[k]), score(ds[k]))}
  {
    var all := Ranks(Entries(ds, score, id));
    var rest := Ranks(Entries(ds[..k] + ds[k + 1..], score, id));
    assert all == all[..k] + [all[k]] + all[k + 1..];
    assert rest == all[..k] + all[k + 1..];
  }

  /**
   * The selection does not depend on the input order: never for the trace, and for the
   * winner as soon as candidates that tie on score and id are the same candidate.
   */
  lemma SelectionIgnoresOrder<C(!new)>(cs: seq<C>, ds: seq<C>, score: C -> real, id: C -> string)
    requires cs != [] && multiset(cs) == multiset(ds)
    ensures ds != []
    ensures FanInArgmin(cs, score, id).value.ranked == FanInArgmin(ds, score, id).value.ranked
    ensures (forall x, y | x in cs && y in cs && id(x) == id(y) :: x == y)
        ==> FanInArgmin(cs, score, id) == FanInArgmin(ds, score, id)
  {
    assert cs[0] in multiset(ds);
    var r, t := FanInArgmin(cs, score, id).value, FanInArgmin(ds, score, id).value;
    SelectionIsArgmin(cs, score, id);
    SelectionIsArgmin(ds, score, id);
    RanksOfPermutation(cs, ds, score, id);
    PrecedesIsPreorder();
    forall x, y | x in r.ranked && y in r.ranked && Precedes(x, y) && Precedes(y, x)
      ensures x == y
    {
      PrecedesIsTotal(x, y, x);
    }
    StableSort.SortedIsUnique(Precedes, r.ranked, t.ranked);
    assert t.winner in multiset(cs);
    assert id(r.winner) == id(t.winner);
  }

  lemma PrecedesIsPreorder()
    ensures StableSort.TotalPreorder(Precedes)
  {
    forall x, y
      ensures Precedes(x, y) || Precedes(y, x)
    {
      PrecedesIsTotal(x, y, x);
    }
    forall x, y, z | Precedes(x, y) && Precedes(y, z)
      ensures Precedes(x, z)
    {
      PrecedesIsTotal(x, y, z);
    }
  }
}
