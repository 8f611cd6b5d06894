/**
 * The budget guard of the economy router (`EconomyRouter`, src/economy/economy-router.ts).
 * Clock readings are parameters in the order the source takes them; costs are exact reals.
 */
module EconomyRouter {
  import opened Wrappers

  const COOLDOWN_MS := 300_000

  datatype Opts = Opts(hourlyBudgetUsd: real, monthlyBudgetUsd: real, windowMs: int, monthlyWindowMs: int)

  datatype CostEntry = CostEntry(agentId: string, costUsd: real, ts: int)

  datatype Refusal = CircuitBreakerOpen | HourlyBudget(projected: real) | MonthlyBudget(projected: real)

  datatype Answer = Proceed | Refuse(reason: Refusal)

  datatype State = State(history: seq<CostEntry>, circuitOpen: bool, circuitOpenedAt: Option<int>)

  const INITIAL := State([], false, None)

  // ---- One call, on values ---------------------------------------------------------------

  /** Spend recorded at or after the cutoff. */
  function SpendSince(history: seq<CostEntry>, cutoff: int): real {
    if history == [] then 0.0
    else
      var last := history[|history| - 1];
      SpendSince(history[..|history| - 1], cutoff) + if last.ts >= cutoff then last.costUsd else 0.0
  }

  function Hourly(o: Opts, s: State, now: int): real {
    SpendSince(s.history, now - o.windowMs)
  }

  function Monthly(o: Opts, s: State, now: int): real {
    SpendSince(s.history, now - o.monthlyWindowMs)
  }

  function Cooled(s: State, now: int): State {
    if s.circuitOpen && s.circuitOpenedAt != None && now - s.circuitOpenedAt.value >= COOLDOWN_MS
    then s.(circuitOpen := false, circuitOpenedAt := None)
    else s
  }

  function Ask(o: Opts, s: State, estimate: real, coolAt: int, hourlyAt: int, monthlyAt: int): (State, Answer) {
    var c := Cooled(s, coolAt);
    if c.circuitOpen then (c, Refuse(CircuitBreakerOpen))
    else if Hourly(o, c, hourlyAt) + estimate > o.hourlyBudgetUsd then
      (c, Refuse(HourlyBudget(Hourly(o, c, hourlyAt) + estimate)))
    else if Monthly(o, c, monthlyAt) + estimate > o.monthlyBudgetUsd then
      (c, Refuse(MonthlyBudget(Monthly(o, c, monthlyAt) + estimate)))
    else (c, Proceed)
  }

  function Record(o: Opts, s: State, entry: CostEntry, spendAt: int): State {
    var r := s.(history := s.history + [entry]);
    if !r.circuitOpen && Hourly(o, r, spendAt) > o.hourlyBudgetUsd
    then r.(circuitOpen := true, circuitOpenedAt := Some(entry.ts))
    else r
  }

  // ---- The class -----------------------------------------------------------------------------

  class EconomyRouter {
    const opts: Opts
    const tenantId: Option<string>
    var history: seq<CostEntry>
    var circuitOpen: bool
    var circuitOpenedAt: Option<int>

    function Current(): State
      reads this
    {
      State(history, circuitOpen, circuitOpenedAt)
    }

    constructor (opts: Opts, tenantId: Option<string>)
      ensures Current() == INITIAL && this.opts == opts && this.tenantId == tenantId
    {
      this.opts, this.tenantId := opts, tenantId;
      history, circuitOpen, circuitOpenedAt := [], false, None;
    }

    method RecordCycle(agentId: string, costUsd: real, now: int, spendAt: int)
      modifies this
      ensures Current() == Record(opts, old(Current()), CostEntry(agentId, costUsd, now), spendAt)
    {
      history := history + [CostEntry(agentId, costUsd, now)];
      if !circuitOpen {
        var spend := SumSince(spendAt - opts.windowMs);
        if spend > opts.hourlyBudgetUsd {
          circuitOpen := true;
          circuitOpenedAt := Some(now);
        }
      }
    }

    /** `filter` and `reduce` over the history. */
    method SumSince(cutoff: int) returns (sum: real)
      ensures sum == SpendSince(history, cutoff)
    {
      sum := 0.0;
      for i := 0 to |history|
        invariant sum == SpendSince(history[..i], cutoff)
      {
        assert history[..i + 1][..i] == history[..i];
        if history[i].ts >= cutoff {
          sum := sum + history[i].costUsd;
        }
      }
      assert history[..|history|] == history;
    }

    method CanProceed(estimate: real, coolAt: int, hourlyAt: int, monthlyAt: int) returns (answer: Answer)
      modifies this
      ensures (Current(), answer) == Ask(opts, old(Current()), estimate, coolAt, hourlyAt, monthlyAt)
    {
      if circuitOpen && circuitOpenedAt != None {
        if coolAt - circuitOpenedAt.value >= COOLDOWN_MS {
          circuitOpen := false;
          circuitOpenedAt := None;
        }
      }
      if circuitOpen {
        return Refuse(CircuitBreakerOpen);
      }
      var hourly := SumSince(hourlyAt - opts.windowMs);
      if hourly + estimate > opts.hourlyBudgetUsd {
        return Refuse(HourlyBudget(hourly + estimate));
      }
      var monthly := SumSince(monthlyAt - opts.monthlyWindowMs);
      if monthly + estimate > opts.monthlyBudgetUsd {
        return Refuse(MonthlyBudget(monthly + estimate));
      }
      return Proceed;
    }

    /** A router with the same options and its own, empty, history and circuit. */
    method ForTenant(tenant: string) returns (r: EconomyRouter)
      ensures fresh(r) && r.Current() == INITIAL && r.opts == opts && r.tenantId == Some(tenant)
    {
      r := new EconomyRouter(opts, Some(tenant));
    }
  }

  // ---- Whole runs -------------------------------------------------------------------------------

  datatype Call =
    | CanProceed(estimate: real, coolAt: int, hourlyAt: int, monthlyAt: int)
    | RecordCycle(agentId: string, costUsd: real, now: int, spendAt: int)

  function Apply(o: Opts, s: State, call: Call): State {
    match call
    case CanProceed(estimate, coolAt, hourlyAt, monthlyAt) => Ask(o, s, estimate, coolAt, hourlyAt, monthlyAt).0
    case RecordCycle(agentId, costUsd, now, spendAt) => Record(o, s, CostEntry(agentId, costUsd, now), spendAt)
  }

  function After(o: Opts, calls: seq<Call>): State {
    if calls == [] then INITIAL
    else Apply(o, After(o, calls[..|calls| - 1]), calls[|calls| - 1])
  }

  function Admits(o: Opts, s: State, call: Call): bool {
    call.CanProceed? && Ask(o, s, call.estimate, call.coolAt, call.hourlyAt, call.monthlyAt).1 == Proceed
  }

  /** The estimate of the admitted cycle that has not recorded its cost yet. */
  function Outstanding(o: Opts, calls: seq<Call>): Option<real> {
    if calls == [] then None
    else
      var front, call := calls[..|calls| - 1], calls[|calls| - 1];
      if call.RecordCycle? then None
      else if Admits(o, After(o, front), call) then Some(call.estimate)
      else Outstanding(o, front)
  }

  /** Costs are recorded only for the cycle last admitted, once, and stay within its estimate. */
  ghost predicate Disciplined(o: Opts, calls: seq<Call>) {
    calls != [] ==>
      var front, call := calls[..|calls| - 1], calls[|calls| - 1];
      && Disciplined(o, front)
      && (call.RecordCycle? ==>
        Outstanding(o, front) != None && 0.0 <= call.costUsd <= Outstanding(o, front).value)
  }

  function FirstReading(call: Call): int {
    match call case CanProceed(_, coolAt, _, _) => coolAt case RecordCycle(_, _, now, _) => now
  }

  function LastReading(call: Call): int {
    match call case CanProceed(_, _, _, monthlyAt) => monthlyAt case RecordCycle(_, _, _, spendAt) => spendAt
  }

  ghost predicate Monotone(calls: seq<Call>) {
    && (forall i | 0 <= i < |calls| ::
          match calls[i]
          case CanProceed(_, coolAt, hourlyAt, monthlyAt) => coolAt <= hourlyAt <= monthlyAt
          case RecordCycle(_, _, now, spendAt) => now <= spendAt)
    && (forall i, j | 0 <= i < j < |calls| :: LastReading(calls[i]) <= FirstReading(calls[j]))
  }

  lemma {:induction false} SpendFalls(history: seq<CostEntry>, early: int, late: int)
    requires early <= late && forall e | e in history :: e.costUsd >= 0.0
    ensures SpendSince(history, late) <= SpendSince(history, early)
  {
    if history != [] {
      assert history == history[..|history| - 1] + [history[|history| - 1]];
      SpendFalls(history[..|history| - 1], early, late);
    }
  }

  lemma {:induction false} SpendSnoc(history: seq<CostEntry>, entry: CostEntry, cutoff: int)
    ensures SpendSince(history + [entry], cutoff)
         == SpendSince(history, cutoff) + if entry.ts >= cutoff then entry.costUsd else 0.0
  {
    assert (history + [entry])[..|history|] == history;
  }

  /** From `clock` on, the spend plus what an admitted cycle may still record fits both budgets. */
  ghost predicate Covered(o: Opts, s: State, outstanding: Option<real>, clock: int) {
    var reserve := if outstanding == None || outstanding.value < 0.0 then 0.0 else outstanding.value;
    && !s.circuitOpen
    && (forall e | e in s.history :: e.costUsd >= 0.0)
    && Hourly(o, s, clock) + reserve <= o.hourlyBudgetUsd
    && Monthly(o, s, clock) + reserve <= o.monthlyBudgetUsd
  }

  lemma CoveredLater(o: Opts, s: State, outstanding: Option<real>, clock: int, later: int)
    requires Covered(o, s, outstanding, clock) && clock <= later
    ensures Covered(o, s, outstanding, later)
  {
    SpendFalls(s.history, clock - o.windowMs, later - o.windowMs);
    SpendFalls(s.history, clock - o.monthlyWindowMs, later - o.monthlyWindowMs);
  }

  lemma AskCovered(o: Opts, s: State, outstanding: Option<real>, clock: int, call: Call)
    requires call.CanProceed? && clock <= call.coolAt <= call.hourlyAt <= call.monthlyAt
    requires Covered(o, s, outstanding, clock)
    ensures Apply(o, s, call) == s
    ensures Covered(o, s, if Admits(o, s, call) then Some(call.estimate) else outstanding, call.monthlyAt)
  {
    CoveredLater(o, s, outstanding, clock, call.monthlyAt);
    SpendFalls(s.history, call.hourlyAt - o.windowMs, call.monthlyAt - o.windowMs);
  }

  lemma RecordCovered(o: Opts, s: State, outstanding: Option<real>, clock: int, call: Call)
    requires call.RecordCycle? && clock <= call.now <= call.spendAt
    requires Covered(o, s, outstanding, clock)
    requires outstanding != None && 0.0 <= call.costUsd <= outstanding.value
    ensures Covered(o, Apply(o, s, call), None, call.spendAt)
  {
    var entry := CostEntry(call.agentId, call.costUsd, call.now);
    CoveredLater(o, s, outstanding, clock, call.spendAt);
    assert Hourly(o, s, call.spendAt) + call.costUsd <= o.hourlyBudgetUsd;
    assert Monthly(o, s, call.spendAt) + call.costUsd <= o.monthlyBudgetUsd;
    RecordedState(o, s, entry, call.spendAt);
  }

  lemma RecordedState(o: Opts, s: State, entry: CostEntry, at: int)
    requires !s.circuitOpen && entry.costUsd >= 0.0
    requires forall e | e in s.history :: e.costUsd >= 0.0
    requires Hourly(o, s, at) + entry.costUsd <= o.hourlyBudgetUsd
    requires Monthly(o, s, at) + entry.costUsd <= o.monthlyBudgetUsd
    ensures Covered(o, Record(o, s, entry, at), None, at)
  {
    SpendSnoc(s.history, entry, at - o.windowMs);
    SpendSnoc(s.history, entry, at - o.monthlyWindowMs);
    assert Record(o, s, entry, at) == State(s.history + [entry], false, s.circuitOpenedAt);
  }

  lemma {:induction false} RunCovered(o: Opts, calls: seq<Call>, clock: int)
    requires o.hourlyBudgetUsd >= 0.0 && o.monthlyBudgetUsd >= 0.0
    requires Monotone(calls) && Disciplined(o, calls)
    requires calls != [] ==> LastReading(calls[|calls| - 1]) <= clock
    ensures Covered(o, After(o, calls), Outstanding(o, calls), clock)
  {
    if calls != [] {
      var m := |calls| - 1;
      var front, call := calls[..m], calls[m];
      RunCovered(o, front, FirstReading(call));
      if call.CanProceed? {
        AskCovered(o, After(o, front), Outstanding(o, front), FirstReading(call), call);
      } else {
        RecordCovered(o, After(o, front), Outstanding(o, front), FirstReading(call), call);
      }
      CoveredLater(o, After(o, calls), Outstanding(o, calls), LastReading(call), clock);
    }
  }

  /**
   * If every admitted cycle records at most its estimate before the next admission, the
   * hourly and the monthly spend stay within budget at every time and the circuit never opens.
   */
  lemma {:induction false} BudgetsAreKept(o: Opts, calls: seq<Call>, clock: int)
    requires o.hourlyBudgetUsd >= 0.0 && o.monthlyBudgetUsd >= 0.0
    requires Monotone(calls) && Disciplined(o, calls)
    requires calls != [] ==> LastReading(calls[|calls| - 1]) <= clock
    ensures Hourly(o, After(o, calls), clock) <= o.hourlyBudgetUsd
    ensures Monthly(o, After(o, calls), clock) <= o.monthlyBudgetUsd
    ensures !After(o, calls).circuitOpen
  {
    RunCovered(o, calls, clock);
  }

  lemma {:induction false} AfterSnoc(o: Opts, calls: seq<Call>, call: Call)
    ensures After(o, calls + [call]) == Apply(o, After(o, calls), call)
  {
    assert (calls + [call])[..|calls|] == calls;
  }

  /** Admissions reserve nothing: two cycles admitted together can each spend the whole budget. */
  lemma {:induction false} ConcurrentAdmissionsOverspend(o: Opts, now: int)
    requires 0.0 < o.hourlyBudgetUsd <= o.monthlyBudgetUsd && o.windowMs >= 0
    ensures var b := o.hourlyBudgetUsd;
      var ask, record := CanProceed(b, now, now, now), RecordCycle("agent", b, now, now);
      && Admits(o, After(o, []), ask) && Admits(o, After(o, [ask]), ask)
      && Hourly(o, After(o, [ask] + [ask] + [record] + [record]), now) == 2.0 * b
      && After(o, [ask] + [ask] + [record] + [record]).circuitOpen
  {
    var b := o.hourlyBudgetUsd;
    var ask, record := CanProceed(b, now, now, now), RecordCycle("agent", b, now, now);
    assert Ask(o, INITIAL, b, now, now, now) == (INITIAL, Proceed);
    assert [] + [ask] == [ask];
    AfterSnoc(o, [], ask);
    AfterSnoc(o, [ask], ask);
    AfterSnoc(o, [ask] + [ask], record);
    AfterSnoc(o, [ask] + [ask] + [record], record);
    RecordTwice(o, CostEntry("agent", b, now), now);
  }

  lemma RecordTwice(o: Opts, e: CostEntry, now: int)
    requires e.ts == now && o.windowMs >= 0 && 0.0 < e.costUsd == o.hourlyBudgetUsd
    ensures var s := Record(o, Record(o, INITIAL, e, now), e, now);
      s.circuitOpen && Hourly(o, s, now) == 2.0 * e.costUsd
  {
    var one := [e];
    var cutoff := now - o.windowMs;
    assert [] + [e] == one;
    SpendSnoc([], e, cutoff);
    SpendSnoc(one, e, cutoff);
    assert Record(o, INITIAL, e, now) == State(one, false, None);
    assert Record(o, State(one, false, None), e, now) == State(one + [e], true, Some(now));
  }

  // ---- Several cycles in flight ---------------------------------------------------------------

  function Total(estimates: seq<real>): real {
    if estimates == [] then 0.0 else estimates[0] + Total(estimates[1..])
  }

  function Without(estimates: seq<real>, k: nat): seq<real>
    requires k < |estimates|
  {
    estimates[..k] + estimates[k + 1..]
  }

  ghost predicate NonNegative(estimates: seq<real>) {
    forall i | 0 <= i < |estimates| :: estimates[i] >= 0.0
  }

  lemma {:induction false} TotalWithout(estimates: seq<real>, k: nat)
    requires k < |estimates|
    ensures Total(Without(estimates, k)) == Total(estimates) - estimates[k]
  {
    if k == 0 {
      assert Without(estimates, 0) == estimates[1..];
    } else {
      TotalWithout(estimates[1..], k - 1);
      assert Without(estimates, k)[1..] == Without(estimates[1..], k - 1);
    }
  }

  lemma {:induction false} TotalIsNotNegative(estimates: seq<real>)
    requires NonNegative(estimates)
    ensures Total(estimates) >= 0.0
  {
    if estimates != [] {
      TotalIsNotNegative(estimates[1..]);
    }
  }

  /** The calls record, in any order, costs within the estimates of some or all of the cycles in flight. */
  ghost predicate Completes(estimates: seq<real>, calls: seq<Call>)
    decreases |calls|
  {
    calls != [] ==>
      && calls[0].RecordCycle?
      && exists k: nat ::
           k < |estimates| && CostWithin(calls[0], estimates[k]) && Completes(Without(estimates, k), calls[1..])
  }

  ghost predicate CostWithin(call: Call, estimate: real) {
    call.RecordCycle? && 0.0 <= call.costUsd <= estimate
  }

  function Continue(o: Opts, s: State, calls: seq<Call>): State
    decreases |calls|
  {
    if calls == [] then s else Continue(o, Apply(o, s, calls[0]), calls[1..])
  }

  /** The clock does not go back, from `clock` through the calls to `later`. */
  ghost predicate InTime(calls: seq<Call>, clock: int, later: int) {
    if calls == [] then clock <= later
    else clock <= FirstReading(calls[0]) <= LastReading(calls[0]) && InTime(calls[1..], LastReading(calls[0]), later)
  }

  ghost predicate WithinBudgets(o: Opts, s: State, clock: int) {
    Hourly(o, s, clock) <= o.hourlyBudgetUsd && Monthly(o, s, clock) <= o.monthlyBudgetUsd
  }

  /** However the cycles in flight complete, both budgets hold at every later time. */
  ghost predicate SafeInFlight(o: Opts, s: State, estimates: seq<real>, clock: int) {
    forall calls: seq<Call>, later: int | Completes(estimates, calls) && InTime(calls, clock, later) ::
      WithinBudgets(o, Continue(o, s, calls), later)
  }

  /** The spend and all the estimates in flight fit together. */
  ghost predicate Reserved(o: Opts, s: State, estimates: seq<real>, clock: int) {
    && Hourly(o, s, clock) + Visible(o.windowMs, estimates) <= o.hourlyBudgetUsd
    && Monthly(o, s, clock) + Visible(o.monthlyWindowMs, estimates) <= o.monthlyBudgetUsd
  }

  /** A negative window never sees a cost. */
  function Visible(windowMs: int, estimates: seq<real>): real {
    if windowMs >= 0 then Total(estimates) else 0.0
  }

  ghost predicate CostsAreSound(s: State) {
    forall e | e in s.history :: e.costUsd >= 0.0
  }

  lemma ReservedStep(o: Opts, s: State, estimates: seq<real>, clock: int, call: Call, k: nat)
    requires Reserved(o, s, estimates, clock) && CostsAreSound(s) && k < |estimates|
    requires CostWithin(call, estimates[k]) && clock <= call.now <= call.spendAt
    ensures Reserved(o, Apply(o, s, call), Without(estimates, k), call.spendAt) && CostsAreSound(Apply(o, s, call))
  {
    var entry := CostEntry(call.agentId, call.costUsd, call.now);
    TotalWithout(estimates, k);
    SpendFalls(s.history, clock - o.windowMs, call.spendAt - o.windowMs);
    SpendFalls(s.history, clock - o.monthlyWindowMs, call.spendAt - o.monthlyWindowMs);
    SpendSnoc(s.history, entry, call.spendAt - o.windowMs);
    SpendSnoc(s.history, entry, call.spendAt - o.monthlyWindowMs);
    assert Apply(o, s, call).history == s.history + [entry];
  }

  /** Reserved cycles keep both budgets, and a closed circuit stays closed. */
  lemma {:induction false} ReservedIsSafe(o: Opts, s: State, estimates: seq<real>, clock: int, calls: seq<Call>, later: int)
    requires Reserved(o, s, estimates, clock) && CostsAreSound(s) && NonNegative(estimates)
    requires Completes(estimates, calls) && InTime(calls, clock, later)
    ensures WithinBudgets(o, Continue(o, s, calls), later)
    ensures !s.circuitOpen ==> !Continue(o, s, calls).circuitOpen
    decreases |calls|
  {
    TotalIsNotNegative(estimates);
    if calls == [] {
      SpendFalls(s.history, clock - o.windowMs, later - o.windowMs);
      SpendFalls(s.history, clock - o.monthlyWindowMs, later - o.monthlyWindowMs);
    } else {
      var call := calls[0];
      var k: nat :| k < |estimates| && CostWithin(call, estimates[k]) && Completes(Without(estimates, k), calls[1..]);
      ReservedStep(o, s, estimates, clock, call, k);
      assert NonNegative(Without(estimates, k));
      ReservedIsSafe(o, Apply(o, s, call), Without(estimates, k), call.spendAt, calls[1..], later);
      StaysClosed(o, s, call, Without(estimates, k));
    }
  }

  lemma StaysClosed(o: Opts, s: State, call: Call, rest: seq<real>)
    requires call.RecordCycle? && NonNegative(rest) && Reserved(o, Apply(o, s, call), rest, call.spendAt)
    ensures !s.circuitOpen ==> !Apply(o, s, call).circuitOpen
  {
    TotalIsNotNegative(rest);
  }

  /** Every cycle spends its whole estimate at once. */
  function SpendAll(estimates: seq<real>, clock: int): seq<Call> {
    if estimates == [] then []
    else [RecordCycle("agent", estimates[0], clock, clock)] + SpendAll(estimates[1..], clock)
  }

  lemma {:induction false} SpendAllCompletes(o: Opts, s: State, estimates: seq<real>, clock: int)
    requires NonNegative(estimates)
    ensures Completes(estimates, SpendAll(estimates, clock)) && InTime(SpendAll(estimates, clock), clock, clock)
    ensures var after := Continue(o, s, SpendAll(estimates, clock));
      && Hourly(o, after, clock) == Hourly(o, s, clock) + Visible(o.windowMs, estimates)
      && Monthly(o, after, clock) == Monthly(o, s, clock) + Visible(o.monthlyWindowMs, estimates)
    decreases |estimates|
  {
    if estimates != [] {
      var calls, rest := SpendAll(estimates, clock), estimates[1..];
      var call, entry := calls[0], CostEntry("agent", estimates[0], clock);
      assert calls[1..] == SpendAll(rest, clock);
      SpendSnoc(s.history, entry, clock - o.windowMs);
      SpendSnoc(s.history, entry, clock - o.monthlyWindowMs);
      assert Apply(o, s, call).history == s.history + [entry];
      SpendAllCompletes(o, Apply(o, s, call), rest, clock);
      assert Without(estimates, 0) == rest && CostWithin(call, estimates[0]);
    }
  }

  /**
   * With any number of cycles in flight: every way of completing them within their estimates
   * keeps both budgets, exactly when the spend so far and all those estimates fit together.
   */
  lemma InFlightIsSafeExactly(o: Opts, s: State, estimates: seq<real>, clock: int)
    requires CostsAreSound(s) && NonNegative(estimates)
    ensures SafeInFlight(o, s, estimates, clock) <==> Reserved(o, s, estimates, clock)
  {
    if Reserved(o, s, estimates, clock) {
      forall calls: seq<Call>, later: int | Completes(estimates, calls) && InTime(calls, clock, later)
        ensures WithinBudgets(o, Continue(o, s, calls), later)
      {
        ReservedIsSafe(o, s, estimates, clock, calls, later);
      }
    }
    if SafeInFlight(o, s, estimates, clock) {
      SpendAllCompletes(o, s, estimates, clock);
      assert WithinBudgets(o, Continue(o, s, SpendAll(estimates, clock)), clock);
    }
  }

  // ---- The circuit ------------------------------------------------------------------------------

  /** An open circuit always knows when it opened, so it cannot stay open for ever. */
  lemma {:induction false} OpenCircuitHasTime(o: Opts, calls: seq<Call>)
    ensures After(o, calls).circuitOpen <==> After(o, calls).circuitOpenedAt.Some?
  {
    if calls != [] {
      OpenCircuitHasTime(o, calls[..|calls| - 1]);
    }
  }

  ghost predicate OpensAt(o: Opts, calls: seq<Call>, i: nat, time: int)
    requires i < |calls|
  {
    && !After(o, calls[..i]).circuitOpen
    && After(o, calls[..i + 1]).circuitOpen
    && calls[i].RecordCycle? && calls[i].now == time
  }

  ghost predicate OpenSince(s: State, time: int) {
    s.circuitOpen && s.circuitOpenedAt == Some(time)
  }

  predicate Late(call: Call, time: int) {
    call.CanProceed? && call.coolAt - time >= COOLDOWN_MS
  }

  lemma {:induction false} OpeningIsStored(o: Opts, calls: seq<Call>, i: nat, time: int)
    requires i < |calls| && OpensAt(o, calls, i, time)
    ensures OpenSince(After(o, calls[..i + 1]), time)
  {
    assert calls[..i + 1][..i] == calls[..i];
  }

  lemma {:induction false} StaysOpen(o: Opts, calls: seq<Call>, k: nat, time: int)
    requires k < |calls| && OpenSince(After(o, calls[..k]), time) && !Late(calls[k], time)
    ensures OpenSince(After(o, calls[..k + 1]), time)
  {
    assert calls[..k + 1][..k] == calls[..k];
  }

  lemma {:induction false} OpenUntilCooldown(o: Opts, calls: seq<Call>, i: nat, j: nat, time: int)
    requires i < j <= |calls| && OpensAt(o, calls, i, time)
    requires forall k | i < k < j :: !Late(calls[k], time)
    ensures OpenSince(After(o, calls[..j]), time)
    decreases j
  {
    if j == i + 1 {
      OpeningIsStored(o, calls, i, time);
    } else {
      OpenUntilCooldown(o, calls, i, j - 1, time);
      StaysOpen(o, calls, j - 1, time);
    }
  }

  /** Once a recorded cost opens the circuit, nothing is admitted for the whole cooldown. */
  lemma {:induction false} CooldownIsKept(o: Opts, calls: seq<Call>, i: nat, j: nat, time: int)
    requires Monotone(calls) && i < j < |calls| && OpensAt(o, calls, i, time)
    requires Admits(o, After(o, calls[..j]), calls[j])
    ensures calls[j].coolAt - time >= COOLDOWN_MS
  {
    if !Late(calls[j], time) {
      forall k | i < k < j
        ensures !Late(calls[k], time)
      {
        assert LastReading(calls[k]) <= FirstReading(calls[j]);
      }
      OpenUntilCooldown(o, calls, i, j, time);
    }
  }

  /** The costs of all recorded cycles that are not older than the cutoff. */
  function SpentSince(calls: seq<Call>, cutoff: int): real {
    if calls == [] then 0.0
    else
      var call := calls[|calls| - 1];
      SpentSince(calls[..|calls| - 1], cutoff)
      + if call.RecordCycle? && cutoff <= call.now then call.costUsd else 0.0
  }

  lemma {:induction false} HistoryIsRecorded(o: Opts, calls: seq<Call>, cutoff: int)
    ensures SpendSince(After(o, calls).history, cutoff) == SpentSince(calls, cutoff)
  {
    if calls != [] {
      var front, call := calls[..|calls| - 1], calls[|calls| - 1];
      HistoryIsRecorded(o, front, cutoff);
      if call.RecordCycle? {
        SpendSnoc(After(o, front).history, CostEntry(call.agentId, call.costUsd, call.now), cutoff);
      }
    }
  }

  /**
   * What a request is told, from the costs recorded before it: nothing but the cooldown keeps a
   * circuit open, the hourly budget is asked before the monthly one, and a spend equal to a budget fits.
   */
  ghost predicate IsRightAnswer(o: Opts, calls: seq<Call>, call: Call, open: bool, answer: Answer)
    requires call.CanProceed?
  {
    Judged(o, SpentSince(calls, call.hourlyAt - o.windowMs) + call.estimate,
           SpentSince(calls, call.monthlyAt - o.monthlyWindowMs) + call.estimate, open, answer)
  }

  ghost predicate Judged(o: Opts, hourly: real, monthly: real, open: bool, answer: Answer) {
    && (answer == Refuse(CircuitBreakerOpen) <==> open)
    && (answer == Refuse(HourlyBudget(hourly)) <==> !open && hourly > o.hourlyBudgetUsd)
    && (answer == Refuse(MonthlyBudget(monthly)) <==>
      !open && hourly <= o.hourlyBudgetUsd && monthly > o.monthlyBudgetUsd)
    && (answer == Proceed <==> !open && hourly <= o.hourlyBudgetUsd && monthly <= o.monthlyBudgetUsd)
  }

  lemma AskJudges(o: Opts, s: State, call: Call)
    requires call.CanProceed?
    ensures var (t, answer) := Ask(o, s, call.estimate, call.coolAt, call.hourlyAt, call.monthlyAt);
      Judged(o, Hourly(o, s, call.hourlyAt) + call.estimate, Monthly(o, s, call.monthlyAt) + call.estimate,
             t.circuitOpen, answer)
  {
  }

  function AnswerTo(o: Opts, calls: seq<Call>, j: nat): Answer
    requires j < |calls| && calls[j].CanProceed?
  {
    Ask(o, After(o, calls[..j]), calls[j].estimate, calls[j].coolAt, calls[j].hourlyAt, calls[j].monthlyAt).1
  }

  /**
   * After the circuit opened at `time`, the first request once the cooldown is over closes it and is
   * judged by the budgets alone; every earlier one is refused because the circuit is open.
   */
  lemma {:induction false} CooldownEndsExactly(o: Opts, calls: seq<Call>, i: nat, j: nat, time: int)
    requires i < j < |calls| && OpensAt(o, calls, i, time) && calls[j].CanProceed?
    requires forall k | i < k < j :: !Late(calls[k], time)
    ensures After(o, calls[..j + 1]).circuitOpen <==> calls[j].coolAt - time < COOLDOWN_MS
    ensures IsRightAnswer(o, calls[..j], calls[j], calls[j].coolAt - time < COOLDOWN_MS, AnswerTo(o, calls, j))
  {
    OpenUntilCooldown(o, calls, i, j, time);
    assert calls[..j + 1][..j] == calls[..j] && calls[..j + 1][j] == calls[j];
    AnswerIsRight(o, calls[..j], calls[j]);
  }

  /** With the circuit closed a request is judged by the budgets alone, and the circuit stays closed. */
  lemma {:induction false} ClosedAnswersExactly(o: Opts, calls: seq<Call>, j: nat)
    requires j < |calls| && calls[j].CanProceed? && !After(o, calls[..j]).circuitOpen
    ensures !After(o, calls[..j + 1]).circuitOpen
    ensures IsRightAnswer(o, calls[..j], calls[j], false, AnswerTo(o, calls, j))
  {
    assert calls[..j + 1][..j] == calls[..j] && calls[..j + 1][j] == calls[j];
    AnswerIsRight(o, calls[..j], calls[j]);
  }

  lemma {:induction false} AnswerIsRight(o: Opts, calls: seq<Call>, call: Call)
    requires call.CanProceed?
    ensures var (t, answer) := Ask(o, After(o, calls), call.estimate, call.coolAt, call.hourlyAt, call.monthlyAt);
      IsRightAnswer(o, calls, call, t.circuitOpen, answer)
  {
    HistoryIsRecorded(o, calls, call.hourlyAt - o.windowMs);
    HistoryIsRecorded(o, calls, call.monthlyAt - o.monthlyWindowMs);
    JudgedBySpend(o, calls, After(o, calls), call);
  }

  lemma JudgedBySpend(o: Opts, calls: seq<Call>, s: State, call: Call)
    requires call.CanProceed?
    requires SpentSince(calls, call.hourlyAt - o.windowMs) == Hourly(o, s, call.hourlyAt)
    requires SpentSince(calls, call.monthlyAt - o.monthlyWindowMs) == Monthly(o, s, call.monthlyAt)
    ensures var (t, answer) := Ask(o, s, call.estimate, call.coolAt, call.hourlyAt, call.monthlyAt);
      IsRightAnswer(o, calls, call, t.circuitOpen, answer)
  {
    AskJudges(o, s, call);
  }

  /** A recorded cost opens a closed circuit exactly when the hourly spend, with it, exceeds the budget. */
  lemma {:induction false} RecordOpensExactly(o: Opts, calls: seq<Call>, i: nat)
    requires i < |calls| && calls[i].RecordCycle?
    ensures var before, after := After(o, calls[..i]), After(o, calls[..i + 1]);
      if before.circuitOpen then after.circuitOpen && after.circuitOpenedAt == before.circuitOpenedAt
      else
        && (after.circuitOpen <==> SpentSince(calls[..i + 1], calls[i].spendAt - o.windowMs) > o.hourlyBudgetUsd)
        && (after.circuitOpen ==> after.circuitOpenedAt == Some(calls[i].now))
  {
    assert calls[..i + 1][..i] == calls[..i] && calls[..i + 1][i] == calls[i];
    HistoryIsRecorded(o, calls[..i + 1], calls[i].spendAt - o.windowMs);
  }

  /** Whatever a tenant router does, its parent's spend and circuit are untouched. */
  method RunTenant(parent: EconomyRouter, tenant: string, calls: seq<Call>) returns (t: EconomyRouter)
    ensures fresh(t) && t.Current() == After(parent.opts, calls)
    ensures parent.Current() == old(parent.Current())
  {
    t := parent.ForTenant(tenant);
    for k := 0 to |calls|
      invariant fresh(t) && t.opts == parent.opts && t.Current() == After(parent.opts, calls[..k])
      invariant parent.Current() == old(parent.Current())
    {
      assert calls[..k + 1][..k] == calls[..k];
      match calls[k]
      case CanProceed(estimate, coolAt, hourlyAt, monthlyAt) =>
        var answer := t.CanProceed(estimate, coolAt, hourlyAt, monthlyAt);
      case RecordCycle(agentId, costUsd, now, spendAt) =>
        t.RecordCycle(agentId, costUsd, now, spendAt);
    }
    assert calls[..|calls|] == calls;
  }
}
