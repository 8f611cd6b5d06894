/**
 * The fleet cost circuit breaker (`FleetCircuitBreaker`, src/economy/circuit-breaker.ts).
 * Every reading of the clock is a parameter, in the order the source takes them; costs
 * are exact reals.
 */
module CircuitBreaker {
  import opened Wrappers

  datatype Circuit = Closed | Open | HalfOpen

  datatype Config = Config(thresholdUsd: real, windowMs: int, cooldownMs: int)

  datatype Spend = Spend(ts: int, costUsd: real)

  datatype State = State(circuit: Circuit, openedAt: Option<int>, halfOpenConsumed: bool, window: seq<Spend>)

  const INITIAL := State(Closed, None, false, [])

  // ---- One call, on values ------------------------------------------------------------

  /** Drops the entries at the front that are older than the cutoff. */
  function Evict(window: seq<Spend>, cutoff: int): seq<Spend> {
    if window != [] && window[0].ts < cutoff then Evict(window[1..], cutoff) else window
  }

  function Total(window: seq<Spend>): real {
    if window == [] then 0.0 else Total(window[..|window| - 1]) + window[|window| - 1].costUsd
  }

  function Evicted(cfg: Config, s: State, now: int): State {
    s.(window := Evict(s.window, now - cfg.windowMs))
  }

  /** `canProceed`, whose eviction reads the clock at `evictAt` and whose checks at `now`. */
  function Ask(cfg: Config, s: State, evictAt: int, now: int): (State, bool) {
    var e := Evicted(cfg, s, evictAt);
    match e.circuit
    case Closed => (e, Total(e.window) <= cfg.thresholdUsd)
    case HalfOpen => if e.halfOpenConsumed then (e, false) else (e.(halfOpenConsumed := true), true)
    case Open =>
      if e.openedAt != None && now - e.openedAt.value >= cfg.cooldownMs
      then (e.(circuit := HalfOpen, halfOpenConsumed := true), true)
      else (e, false)
  }

  function Trip(s: State, now: int): State {
    s.(circuit := Open, openedAt := Some(now), halfOpenConsumed := false)
  }

  /** `recordCost` at `now`, whose eviction reads the clock at `evictAt`. */
  function Record(cfg: Config, s: State, costUsd: real, now: int, evictAt: int): State {
    var e := Evicted(cfg, s.(window := s.window + [Spend(now, costUsd)]), evictAt);
    var over := Total(e.window) > cfg.thresholdUsd;
    match e.circuit
    case Closed => if over then Trip(e, now) else e
    case HalfOpen => if over then Trip(e, now) else e.(circuit := Closed, openedAt := None, halfOpenConsumed := false)
    case Open => e
  }

  // ---- The class --------------------------------------------------------------------------

  class FleetCircuitBreaker {
    const cfg: Config
    var circuit: Circuit
    var openedAt: Option<int>
    var halfOpenConsumed: bool
    var window: seq<Spend>

    function Current(): State
      reads this
    {
      State(circuit, openedAt, halfOpenConsumed, window)
    }

    constructor (cfg: Config)
      ensures Current() == INITIAL && this.cfg == cfg
    {
      this.cfg := cfg;
      circuit, openedAt, halfOpenConsumed, window := Closed, None, false, [];
    }

    method CanProceed(evictAt: int, now: int) returns (ok: bool)
      modifies this
      ensures (Current(), ok) == Ask(cfg, old(Current()), evictAt, now)
    {
      EvictOld(evictAt);
      if circuit == Open {
        if openedAt != None && now - openedAt.value >= cfg.cooldownMs {
          circuit := HalfOpen;
          halfOpenConsumed := false;
        } else {
          return false;
        }
      }
      if circuit == HalfOpen {
        if halfOpenConsumed {
          return false;
        }
        halfOpenConsumed := true;
        return true;
      }
      var spend := WindowTotal();
      return spend <= cfg.thresholdUsd;
    }

    method RecordCost(costUsd: real, now: int, evictAt: int)
      modifies this
      ensures Current() == Record(cfg, old(Current()), costUsd, now, evictAt)
    {
      window := window + [Spend(now, costUsd)];
      EvictOld(evictAt);
      var spend := WindowTotal();
      if circuit == Closed {
        if spend > cfg.thresholdUsd {
          TripAt(now);
        }
      } else if circuit == HalfOpen {
        if spend > cfg.thresholdUsd {
          TripAt(now);
        } else {
          circuit := Closed;
          openedAt := None;
          halfOpenConsumed := false;
        }
      }
    }

    method Reset()
      modifies this
      ensures Current() == INITIAL
    {
      circuit, openedAt, halfOpenConsumed, window := Closed, None, false, [];
    }

    method WindowSpend(evictAt: int) returns (spend: real)
      modifies this
      ensures Current() == Evicted(cfg, old(Current()), evictAt)
      ensures spend == Total(window)
    {
      EvictOld(evictAt);
      spend := WindowTotal();
    }

    method EvictOld(now: int)
      modifies this`window
      ensures window == Evict(old(window), now - cfg.windowMs)
    {
      var cutoff := now - cfg.windowMs;
      var i := 0;
      assert window[0..] == window;
      while i < |window| && window[i].ts < cutoff
        invariant 0 <= i <= |window| && window == old(window)
        invariant Evict(window[i..], cutoff) == Evict(window, cutoff)
      {
        assert window[i..][1..] == window[i + 1..];
        i := i + 1;
      }
      if i > 0 {
        window := window[i..];
      }
    }

    method WindowTotal() returns (sum: real)
      ensures sum == Total(window)
    {
      sum := 0.0;
      for i := 0 to |window|
        invariant sum == Total(window[..i])
      {
        assert window[..i + 1][..i] == window[..i];
        sum := sum + window[i].costUsd;
      }
      assert window[..|window|] == window;
    }

    method TripAt(now: int)
      modifies this
      ensures Current() == Trip(old(Current()), now)
    {
      circuit := Open;
      openedAt := Some(now);
      halfOpenConsumed := false;
    }
  }

  // ---- Whole runs -----------------------------------------------------------------------------

  datatype Call =
    | CanProceed(evictAt: int, now: int)
    | RecordCost(costUsd: real, now: int, evictAt: int)
    | WindowSpend(evictAt: int)
    | Reset

  function Apply(cfg: Config, s: State, call: Call): State {
    match call
    case CanProceed(evictAt, now) => Ask(cfg, s, evictAt, now).0
    case RecordCost(costUsd, now, evictAt) => Record(cfg, s, costUsd, now, evictAt)
    case WindowSpend(evictAt) => Evicted(cfg, s, evictAt)
    case Reset => INITIAL
  }

  function After(cfg: Config, calls: seq<Call>): State {
    if calls == [] then INITIAL
    else Apply(cfg, After(cfg, calls[..|calls| - 1]), calls[|calls| - 1])
  }

  /** The answer of the i-th call, a `CanProceed`. */
  function Admitted(cfg: Config, calls: seq<Call>, i: nat): bool
    requires i < |calls| && calls[i].CanProceed?
  {
    Ask(cfg, After(cfg, calls[..i]), calls[i].evictAt, calls[i].now).1
  }

  /** The first and last clock readings of a call; a reset takes none. */
  function FirstReading(call: Call): int
    requires !call.Reset?
  {
    match call case RecordCost(_, now, _) => now case CanProceed(e, _) => e case WindowSpend(e) => e
  }

  function LastReading(call: Call): int
    requires !call.Reset?
  {
    match call case RecordCost(_, _, e) => e case CanProceed(_, now) => now case WindowSpend(e) => e
  }

  /** The clock does not go back, within a call or between calls. */
  ghost predicate Monotone(calls: seq<Call>) {
    && (forall i | 0 <= i < |calls| && !calls[i].Reset? :: FirstReading(calls[i]) <= LastReading(calls[i]))
    && (forall i, j | 0 <= i < j < |calls| && !calls[i].Reset? && !calls[j].Reset? ::
          LastReading(calls[i]) <= FirstReading(calls[j]))
  }

  /** Everything recorded since the last reset. */
  function History(calls: seq<Call>): seq<Spend> {
    if calls == [] then []
    else
      match calls[|calls| - 1]
      case Reset => []
      case RecordCost(costUsd, now, _) => History(calls[..|calls| - 1]) + [Spend(now, costUsd)]
      case _ => History(calls[..|calls| - 1])
  }

  /** The cutoff of the last eviction, if there was one since the last reset. */
  function LastCutoff(cfg: Config, calls: seq<Call>): Option<int> {
    if calls == [] || calls[|calls| - 1].Reset? then None
    else Some(calls[|calls| - 1].evictAt - cfg.windowMs)
  }

  function Since(history: seq<Spend>, cutoff: Option<int>): seq<Spend> {
    if history == [] then []
    else
      var rest := Since(history[..|history| - 1], cutoff);
      var last := history[|history| - 1];
      if cutoff == None || last.ts >= cutoff.value then rest + [last] else rest
  }

  ghost predicate Sorted(history: seq<Spend>) {
    forall i, j | 0 <= i < j < |history| :: history[i].ts <= history[j].ts
  }

  lemma {:induction false} SinceIsSuffix(history: seq<Spend>, cutoff: Option<int>)
    requires Sorted(history)
    ensures Sorted(Since(history, cutoff))
    ensures forall e | e in Since(history, cutoff) :: e in history
  {
    if history != [] {
      var m := |history| - 1;
      SinceIsSuffix(history[..m], cutoff);
      assert history == history[..m] + [history[m]];
      var rest := Since(history[..m], cutoff);
      forall i | 0 <= i < |rest|
        ensures rest[i].ts <= history[m].ts
      {
        assert rest[i] in rest;
        var k :| 0 <= k < m && history[..m][k] == rest[i];
      }
    }
  }

  lemma {:induction false} EvictSnoc(window: seq<Spend>, last: Spend, cutoff: int)
    requires Sorted(window + [last])
    ensures Evict(window + [last], cutoff) == if last.ts >= cutoff then Evict(window, cutoff) + [last] else []
    ensures last.ts < cutoff ==> Evict(window, cutoff) == []
  {
    if window == [] {
      assert window + [last] == [last] && [last][1..] == [];
    } else {
      assert (window + [last])[1..] == window[1..] + [last];
      assert (window + [last])[0] == window[0] && (window + [last])[|window|] == last;
      assert Sorted(window[1..] + [last]) by {
        assert forall k | 0 <= k < |window| :: (window[1..] + [last])[k] == (window + [last])[k + 1];
      }
      EvictSnoc(window[1..], last, cutoff);
    }
  }

  /** On a sorted history, dropping a stale prefix after an earlier, lower cutoff is filtering. */
  lemma {:induction false} EvictIsFilter(history: seq<Spend>, before: Option<int>, cutoff: int)
    requires Sorted(history) && (before == None || before.value <= cutoff)
    ensures Evict(Since(history, before), cutoff) == Since(history, Some(cutoff))
  {
    if history != [] {
      var m := |history| - 1;
      var last := history[m];
      EvictIsFilter(history[..m], before, cutoff);
      SinceIsSuffix(history, before);
      if before == None || last.ts >= before.value {
        EvictSnoc(Since(history[..m], before), last, cutoff);
      }
    }
  }

  lemma {:induction false} HistoryEntries(calls: seq<Call>)
    requires Monotone(calls)
    ensures Sorted(History(calls))
    ensures forall e | e in History(calls) ::
      exists i :: 0 <= i < |calls| && calls[i].RecordCost? && e == Spend(calls[i].now, calls[i].costUsd)
  {
    if calls != [] {
      var m := |calls| - 1;
      HistoryEntries(calls[..m]);
      var h := History(calls[..m]);
      forall e | e in h
        ensures exists i :: 0 <= i < m && calls[i].RecordCost? && e == Spend(calls[i].now, calls[i].costUsd)
      {
        var i :| 0 <= i < m && calls[..m][i].RecordCost? && e == Spend(calls[..m][i].now, calls[..m][i].costUsd);
        assert calls[i] == calls[..m][i];
      }
      if calls[m].RecordCost? {
        forall k | 0 <= k < |h|
          ensures h[k].ts <= calls[m].now
        {
          assert h[k] in h;
          var i :| 0 <= i < m && calls[i].RecordCost? && h[k] == Spend(calls[i].now, calls[i].costUsd);
          assert FirstReading(calls[i]) <= LastReading(calls[i]) <= FirstReading(calls[m]);
        }
      }
    }
  }

  /** What every call but a reset does to the window. */
  lemma WindowOf(cfg: Config, s: State, call: Call)
    requires !call.Reset?
    ensures var pushed := if call.RecordCost? then [Spend(call.now, call.costUsd)] else [];
      Apply(cfg, s, call).window == Evict(s.window + pushed, call.evictAt - cfg.windowMs)
  {
    assert s.window + [] == s.window;
  }

  lemma {:induction false} FilterStep(history: seq<Spend>, before: Option<int>, last: Spend, cutoff: int)
    requires Sorted(history + [last]) && (before == None || before.value <= cutoff)
    ensures Evict(Since(history, before) + [last], cutoff) == Since(history + [last], Some(cutoff))
  {
    assert Sorted(history) by {
      assert forall k | 0 <= k < |history| :: (history + [last])[k] == history[k];
    }
    SinceIsSuffix(history, before);
    SortedSnoc(Since(history, before), history, last);
    EvictSnoc(Since(history, before), last, cutoff);
    EvictIsFilter(history, before, cutoff);
    assert (history + [last])[..|history|] == history;
  }

  lemma CutoffsRise(cfg: Config, calls: seq<Call>)
    requires Monotone(calls) && calls != [] && !calls[|calls| - 1].Reset?
    ensures var before := LastCutoff(cfg, calls[..|calls| - 1]);
      before == None || before.value <= calls[|calls| - 1].evictAt - cfg.windowMs
  {
    var m := |calls| - 1;
    if m > 0 && !calls[m - 1].Reset? {
      assert calls[..m][m - 1] == calls[m - 1];
      assert calls[m - 1].evictAt <= LastReading(calls[m - 1]) <= FirstReading(calls[m]) <= calls[m].evictAt;
    }
  }

  lemma HistoryStep(cfg: Config, calls: seq<Call>)
    requires Monotone(calls) && calls != [] && !calls[|calls| - 1].Reset?
    ensures var front, call := calls[..|calls| - 1], calls[|calls| - 1];
      var pushed := if call.RecordCost? then [Spend(call.now, call.costUsd)] else [];
      Evict(Since(History(front), LastCutoff(cfg, front)) + pushed, call.evictAt - cfg.windowMs)
        == Since(History(calls), LastCutoff(cfg, calls))
  {
    var front, call := calls[..|calls| - 1], calls[|calls| - 1];
    var h, before, cutoff := History(front), LastCutoff(cfg, front), call.evictAt - cfg.windowMs;
    HistoryEntries(calls);
    CutoffsRise(cfg, calls);
    if call.RecordCost? {
      FilterStep(h, before, Spend(call.now, call.costUsd), cutoff);
    } else {
      assert Since(h, before) + [] == Since(h, before);
      EvictIsFilter(h, before, cutoff);
    }
  }

  /** The window is the history since the last reset, filtered by the last cutoff. */
  lemma {:induction false} WindowIsFilteredHistory(cfg: Config, calls: seq<Call>)
    requires Monotone(calls)
    ensures After(cfg, calls).window == Since(History(calls), LastCutoff(cfg, calls))
  {
    if calls != [] && !calls[|calls| - 1].Reset? {
      WindowIsFilteredHistory(cfg, calls[..|calls| - 1]);
      HistoryStep(cfg, calls);
      WindowOf(cfg, After(cfg, calls[..|calls| - 1]), calls[|calls| - 1]);
    }
  }

  lemma SortedSnoc(part: seq<Spend>, history: seq<Spend>, last: Spend)
    requires Sorted(part) && Sorted(history + [last]) && forall e | e in part :: e in history
    ensures Sorted(part + [last])
  {
    forall k | 0 <= k < |part|
      ensures part[k].ts <= last.ts
    {
      assert part[k] in part;
      var i :| 0 <= i < |history| && history[i] == part[k];
      assert (history + [last])[i] == part[k] && (history + [last])[|history|] == last;
    }
  }

  ghost predicate NonNegative(calls: seq<Call>) {
    forall i | 0 <= i < |calls| && calls[i].RecordCost? :: calls[i].costUsd >= 0.0
  }

  lemma {:induction false} EvictLowersTotal(window: seq<Spend>, cutoff: int)
    requires forall e | e in window :: e.costUsd >= 0.0
    ensures 0.0 <= Total(Evict(window, cutoff)) <= Total(window)
    ensures forall e | e in Evict(window, cutoff) :: e in window
  {
    if window != [] {
      TotalCons(window);
      EvictLowersTotal(window[1..], cutoff);
      assert window == [window[0]] + window[1..];
      assert window[0] in window;
    }
  }

  lemma {:induction false} TotalCons(window: seq<Spend>)
    requires window != []
    ensures Total(window) == window[0].costUsd + Total(window[1..])
  {
    var m := |window| - 1;
    if m > 0 {
      TotalCons(window[..m]);
      assert window[..m][1..] == window[1..][..m - 1];
    }
  }

  ghost predicate Sound(cfg: Config, s: State) {
    && (forall e | e in s.window :: e.costUsd >= 0.0)
    && (s.circuit == Closed ==> Total(s.window) <= cfg.thresholdUsd)
    && (s.circuit == HalfOpen ==> s.halfOpenConsumed)
    && (s.circuit == Open ==> s.openedAt != None)
  }

  lemma SoundStep(cfg: Config, s: State, call: Call)
    requires Sound(cfg, s) && cfg.thresholdUsd >= 0.0 && (call.RecordCost? ==> call.costUsd >= 0.0)
    ensures Sound(cfg, Apply(cfg, s, call))
  {
    if !call.Reset? {
      var pushed := if call.RecordCost? then [Spend(call.now, call.costUsd)] else [];
      WindowOf(cfg, s, call);
      EvictLowersTotal(s.window + pushed, call.evictAt - cfg.windowMs);
      assert s.window + [] == s.window;
    }
  }

  /** Every reachable breaker is sound: in particular, closed means the window is within the threshold. */
  lemma {:induction false} Reachable(cfg: Config, calls: seq<Call>)
    requires NonNegative(calls) && cfg.thresholdUsd >= 0.0
    ensures Sound(cfg, After(cfg, calls))
  {
    if calls != [] {
      Reachable(cfg, calls[..|calls| - 1]);
      SoundStep(cfg, After(cfg, calls[..|calls| - 1]), calls[|calls| - 1]);
    }
  }

  /** A closed breaker always admits. */
  lemma {:induction false} ClosedAdmits(cfg: Config, calls: seq<Call>, i: nat)
    requires NonNegative(calls) && cfg.thresholdUsd >= 0.0
    requires i < |calls| && calls[i].CanProceed? && After(cfg, calls[..i]).circuit == Closed
    ensures Admitted(cfg, calls, i)
  {
    Reachable(cfg, calls[..i]);
    EvictLowersTotal(After(cfg, calls[..i]).window, calls[i].evictAt - cfg.windowMs);
  }

  /** With a negative threshold even a new breaker refuses: the condition on it is needed. */
  lemma NewBreakerAdmitsExactly(cfg: Config, evictAt: int, now: int)
    ensures Admitted(cfg, [CanProceed(evictAt, now)], 0) <==> cfg.thresholdUsd >= 0.0
  {
    assert [CanProceed(evictAt, now)][..0] == [];
  }

  /** A half-open breaker has given its one probe away: it refuses until a cost or a reset. */
  lemma {:induction false} HalfOpenAdmitsOnce(cfg: Config, calls: seq<Call>, i: nat, j: nat)
    requires i <= j < |calls| && After(cfg, calls[..i]).circuit == HalfOpen
    requires forall k | i <= k <= j :: calls[k].CanProceed? || calls[k].WindowSpend?
    ensures After(cfg, calls[..j]).circuit == HalfOpen && After(cfg, calls[..j]).halfOpenConsumed
    ensures calls[j].CanProceed? ==> !Admitted(cfg, calls, j)
    decreases j - i
  {
    if i == j {
      HalfOpenConsumed(cfg, calls[..i]);
    } else {
      HalfOpenAdmitsOnce(cfg, calls, i, j - 1);
      assert calls[..j][..j - 1] == calls[..j - 1];
    }
  }

  lemma {:induction false} HalfOpenConsumed(cfg: Config, calls: seq<Call>)
    ensures After(cfg, calls).circuit == HalfOpen ==> After(cfg, calls).halfOpenConsumed
  {
    if calls != [] {
      HalfOpenConsumed(cfg, calls[..|calls| - 1]);
    }
  }

  /** A call that moves the breaker to open, and the time it stores. */
  ghost predicate TripsAt(cfg: Config, calls: seq<Call>, i: nat, time: int)
    requires i < |calls|
  {
    && After(cfg, calls[..i]).circuit != Open
    && After(cfg, calls[..i + 1]).circuit == Open
    && calls[i].RecordCost? && calls[i].now == time
  }

  ghost predicate OpenSince(s: State, time: int) {
    s.circuit == Open && s.openedAt == Some(time)
  }

  predicate Late(cfg: Config, call: Call, time: int) {
    call.CanProceed? && call.now - time >= cfg.cooldownMs
  }

  lemma {:induction false} TripOpens(cfg: Config, calls: seq<Call>, i: nat, time: int)
    requires i < |calls| && TripsAt(cfg, calls, i, time)
    ensures OpenSince(After(cfg, calls[..i + 1]), time)
  {
    assert calls[..i + 1][..i] == calls[..i];
  }

  lemma {:induction false} StaysOpen(cfg: Config, calls: seq<Call>, k: nat, time: int)
    requires k < |calls| && OpenSince(After(cfg, calls[..k]), time) && !calls[k].Reset? && !Late(cfg, calls[k], time)
    ensures OpenSince(After(cfg, calls[..k + 1]), time)
  {
    assert calls[..k + 1][..k] == calls[..k];
  }

  lemma {:induction false} OpenUntilCooldown(cfg: Config, calls: seq<Call>, i: nat, j: nat, time: int)
    requires i < j <= |calls| && TripsAt(cfg, calls, i, time)
    requires forall k | i < k < j :: !calls[k].Reset? && !Late(cfg, calls[k], time)
    ensures OpenSince(After(cfg, calls[..j]), time)
    decreases j
  {
    if j == i + 1 {
      TripOpens(cfg, calls, i, time);
    } else {
      OpenUntilCooldown(cfg, calls, i, j - 1, time);
      StaysOpen(cfg, calls, j - 1, time);
    }
  }

  /** Nothing is admitted for `cooldownMs` after a trip, short of a reset. */
  lemma CooldownIsKept(cfg: Config, calls: seq<Call>, i: nat, j: nat, time: int)
    requires Monotone(calls) && i < j < |calls| && TripsAt(cfg, calls, i, time)
    requires forall k | i < k < j :: !calls[k].Reset?
    requires calls[j].CanProceed? && Admitted(cfg, calls, j)
    ensures calls[j].now - time >= cfg.cooldownMs
  {
    if !Late(cfg, calls[j], time) {
      forall k | i < k < j
        ensures !Late(cfg, calls[k], time)
      {
        assert LastReading(calls[k]) <= FirstReading(calls[j]) <= LastReading(calls[j]) == calls[j].now;
      }
      OpenUntilCooldown(cfg, calls, i, j, time);
    }
  }

  // ---- When the circuit changes ------------------------------------------------------------

  /** What was spent within the window that ends at the given reading, from all costs since the last reset. */
  function SpentAt(cfg: Config, calls: seq<Call>, evictAt: int): real {
    Total(Since(History(calls), Some(evictAt - cfg.windowMs)))
  }

  lemma {:induction false} WindowAfter(cfg: Config, calls: seq<Call>, i: nat)
    requires Monotone(calls) && i < |calls| && !calls[i].Reset?
    ensures Total(After(cfg, calls[..i + 1]).window) == SpentAt(cfg, calls[..i + 1], calls[i].evictAt)
    ensures After(cfg, calls[..i + 1]) == Apply(cfg, After(cfg, calls[..i]), calls[i])
  {
    assert calls[..i + 1][..i] == calls[..i] && calls[..i + 1][i] == calls[i];
    WindowIsFilteredHistory(cfg, calls[..i + 1]);
  }

  /**
   * A recorded cost trips a breaker that is not open exactly when the spend exceeds the threshold,
   * and closes it otherwise. An open breaker stays as it is.
   */
  lemma {:induction false} RecordDecidesExactly(cfg: Config, calls: seq<Call>, i: nat)
    requires Monotone(calls) && i < |calls| && calls[i].RecordCost?
    ensures var before, after := After(cfg, calls[..i]), After(cfg, calls[..i + 1]);
      var spent := SpentAt(cfg, calls[..i + 1], calls[i].evictAt);
      if before.circuit == Open then
        after.circuit == Open && after.openedAt == before.openedAt
      else
        && (after.circuit == Open <==> spent > cfg.thresholdUsd)
        && (after.circuit == Closed <==> spent <= cfg.thresholdUsd)
        && (after.circuit == Open ==> after.openedAt == Some(calls[i].now))
  {
    WindowAfter(cfg, calls, i);
    RecordDecides(cfg, After(cfg, calls[..i]), calls[i]);
  }

  lemma RecordDecides(cfg: Config, s: State, call: Call)
    requires call.RecordCost?
    ensures var t := Apply(cfg, s, call);
      if s.circuit == Open then t.circuit == Open && t.openedAt == s.openedAt
      else if Total(t.window) > cfg.thresholdUsd then t.circuit == Open && t.openedAt == Some(call.now)
      else t.circuit == Closed
  {
  }

  /** In every run the breaker is closed exactly while no opening time is stored. */
  lemma {:induction false} ClosedHasNoTime(cfg: Config, calls: seq<Call>)
    ensures After(cfg, calls).circuit == Closed <==> After(cfg, calls).openedAt == None
  {
    if calls != [] {
      var front := calls[..|calls| - 1];
      ClosedHasNoTime(cfg, front);
      TimeStep(cfg, After(cfg, front), calls[|calls| - 1]);
    }
  }

  lemma TimeStep(cfg: Config, s: State, call: Call)
    requires s.circuit == Closed <==> s.openedAt == None
    ensures Apply(cfg, s, call).circuit == Closed <==> Apply(cfg, s, call).openedAt == None
  {
  }

  /** A request at a closed breaker is admitted exactly when the spend is within the threshold, and leaves it closed. */
  lemma {:induction false} ClosedAdmitsExactly(cfg: Config, calls: seq<Call>, i: nat)
    requires Monotone(calls) && i < |calls| && calls[i].CanProceed? && After(cfg, calls[..i]).circuit == Closed
    ensures Admitted(cfg, calls, i) <==> SpentAt(cfg, calls[..i + 1], calls[i].evictAt) <= cfg.thresholdUsd
    ensures After(cfg, calls[..i + 1]).circuit == Closed
  {
    WindowAfter(cfg, calls, i);
  }

  /**
   * After a trip, the first request that comes once the cooldown is over is admitted and leaves the
   * breaker half-open with its probe used; every earlier one is refused and leaves it open.
   */
  lemma {:induction false} CooldownEndsExactly(cfg: Config, calls: seq<Call>, i: nat, j: nat, time: int)
    requires i < j < |calls| && TripsAt(cfg, calls, i, time) && calls[j].CanProceed?
    requires forall k | i < k < j :: !calls[k].Reset? && !Late(cfg, calls[k], time)
    ensures Admitted(cfg, calls, j) <==> calls[j].now - time >= cfg.cooldownMs
    ensures var after := After(cfg, calls[..j + 1]);
      if Admitted(cfg, calls, j) then after.circuit == HalfOpen && after.halfOpenConsumed
      else OpenSince(after, time)
  {
    OpenUntilCooldown(cfg, calls, i, j, time);
    assert calls[..j + 1][..j] == calls[..j] && calls[..j + 1][j] == calls[j];
    OpenAnswers(cfg, After(cfg, calls[..j]), calls[j], time);
  }

  lemma OpenAnswers(cfg: Config, s: State, call: Call, time: int)
    requires call.CanProceed? && OpenSince(s, time)
    ensures var (t, ok) := Ask(cfg, s, call.evictAt, call.now);
      && (ok <==> call.now - time >= cfg.cooldownMs)
      && if ok then t.circuit == HalfOpen && t.halfOpenConsumed else OpenSince(t, time)
  {
  }
}
