/**
 * Tiered conversation memory (`ConversationContext`, src/conversation/context.ts): live
 * turns, and summaries that replace older ones. `meta` is carried but never read, so it is a
 * string here; the language model is a function from the turns it is asked to summarise to a
 * text, or to None when the call rejects.
 */
module Conversation {
  import opened Wrappers

  datatype Role = User | Assistant

  datatype Turn = Turn(role: Role, content: string, meta: Option<string>)

  datatype Summary = Summary(createdAt: int, turnCount: nat, originalTokens: nat, text: string)

  datatype State = State(turns: seq<Turn>, summaries: seq<Summary>)

  datatype Op = Add(turn: Turn) | Compact(keepLast: int, llm: seq<Turn> -> Option<string>, now: int)

  const EMPTY := State([], [])

  // ---- Token estimate ---------------------------------------------------------------------

  /** Length over four, rounded up. */
  function Quarter(length: nat): nat {
    (length + 3) / 4
  }

  function Chars(turns: seq<Turn>): nat {
    if turns == [] then 0 else Chars(turns[..|turns| - 1]) + |turns[|turns| - 1].content|
  }

  function TurnTokens(turns: seq<Turn>): nat {
    if turns == [] then 0 else TurnTokens(turns[..|turns| - 1]) + Quarter(|turns[|turns| - 1].content|)
  }

  function SummaryTokens(summaries: seq<Summary>): nat {
    if summaries == [] then 0
    else SummaryTokens(summaries[..|summaries| - 1]) + Quarter(|summaries[|summaries| - 1].text|)
  }

  function Tokens(s: State): nat {
    TurnTokens(s.turns) + SummaryTokens(s.summaries)
  }

  lemma {:induction false} TurnTokensAppend(a: seq<Turn>, b: seq<Turn>)
    ensures TurnTokens(a + b) == TurnTokens(a) + TurnTokens(b)
  {
    if b == [] {
      assert a + b == a;
    } else {
      assert (a + b)[..|a + b| - 1] == a + b[..|b| - 1];
      TurnTokensAppend(a, b[..|b| - 1]);
    }
  }

  /** Rounding once per block is never more than rounding per turn, and less than one off per turn. */
  lemma {:induction false} RoundingGap(turns: seq<Turn>)
    ensures Quarter(Chars(turns)) <= TurnTokens(turns)
    ensures turns != [] ==> TurnTokens(turns) < Quarter(Chars(turns)) + |turns|
    ensures 4 * TurnTokens(turns) <= Chars(turns) + 3 * |turns| && Chars(turns) <= 4 * TurnTokens(turns)
  {
    if turns != [] {
      RoundingGap(turns[..|turns| - 1]);
    }
  }

  // ---- Adding and compacting ------------------------------------------------------------------

  /** Turns handed to the summariser: slice(0, n - keepLast), clamped to the array. */
  function Cut(n: nat, keepLast: int): nat
    requires n > keepLast
  {
    if n - keepLast > n then n else n - keepLast
  }

  function Summarise(block: seq<Turn>, text: string, now: int): Summary {
    Summary(now, |block|, Quarter(Chars(block)), text)
  }

  /** The tokens a summary says it replaces: a quarter of the block's characters, rounded up once. */
  lemma {:induction false} OriginalTokens(block: seq<Turn>, text: string, now: int)
    ensures var tokens := Summarise(block, text, now).originalTokens;
      4 * tokens - 3 <= Chars(block) <= 4 * tokens
  {
  }

  /** The block `compact` summarises, if it gets that far. */
  function Older(s: State, op: Op): Option<seq<Turn>>
    requires op.Compact?
  {
    if |s.turns| <= op.keepLast then None else Some(s.turns[..Cut(|s.turns|, op.keepLast)])
  }

  function Apply(s: State, op: Op): State {
    match op
    case Add(turn) => s.(turns := s.turns + [turn])
    case Compact(keepLast, llm, now) =>
      if |s.turns| <= keepLast then s
      else
        var k := Cut(|s.turns|, keepLast);
        match llm(s.turns[..k])
        case None => s
        case Some(text) => State(s.turns[k..], s.summaries + [Summarise(s.turns[..k], text, now)])
  }

  function Run(s: State, ops: seq<Op>): State {
    if ops == [] then s else Apply(Run(s, ops[..|ops| - 1]), ops[|ops| - 1])
  }

  /** Every turn ever added, in order. */
  function Added(ops: seq<Op>): seq<Turn> {
    if ops == [] then []
    else
      var before := Added(ops[..|ops| - 1]);
      var op := ops[|ops| - 1];
      if op.Add? then before + [op.turn] else before
  }

  // ---- Nothing is lost -------------------------------------------------------------------------

  function Flatten(blocks: seq<seq<Turn>>): seq<Turn> {
    if blocks == [] then [] else Flatten(blocks[..|blocks| - 1]) + blocks[|blocks| - 1]
  }

  /**
   * `blocks` are the passages the summaries stand for: each summary counts its block's turns
   * and tokens, and blocks followed by live turns spell the whole history.
   */
  ghost predicate Accounts(s: State, blocks: seq<seq<Turn>>, history: seq<Turn>) {
    && |blocks| == |s.summaries|
    && (forall i | 0 <= i < |blocks| ::
      s.summaries[i] == Summarise(blocks[i], s.summaries[i].text, s.summaries[i].createdAt))
    && Flatten(blocks) + s.turns == history
  }

  lemma {:induction false} FlattenMoves(blocks: seq<seq<Turn>>, block: seq<Turn>, rest: seq<Turn>)
    ensures Flatten(blocks + [block]) + rest == Flatten(blocks) + (block + rest)
  {
    assert (blocks + [block])[..|blocks|] == blocks;
  }

  /** The summary is the model's answer to exactly this block. */
  ghost predicate Answers(op: Op, block: seq<Turn>, summary: Summary) {
    op.Compact? && op.llm(block) == Some(summary.text) && summary.createdAt == op.now
  }

  /** From the given summary on, each answers its block in some operation of the run. */
  ghost predicate AnsweredIn(ops: seq<Op>, blocks: seq<seq<Turn>>, s: State, start: nat)
    requires |blocks| == |s.summaries|
  {
    forall i | start <= i < |blocks| ::
      (exists j :: 0 <= j < |ops| && Answers(ops[j], blocks[i], s.summaries[i]))
  }

  lemma AccountsStep(s: State, blocks: seq<seq<Turn>>, history: seq<Turn>, op: Op) returns (after: seq<seq<Turn>>)
    requires Accounts(s, blocks, history)
    ensures Accounts(Apply(s, op), after, if op.Add? then history + [op.turn] else history)
    ensures |after| >= |blocks| && after[..|blocks|] == blocks
    ensures var summaries := Apply(s, op).summaries;
      && summaries[..|blocks|] == s.summaries
      && forall i | |blocks| <= i < |after| :: Answers(op, after[i], summaries[i])
  {
    after := blocks;
    assert blocks[..|blocks|] == blocks;
    if op.Add? {
      assert Flatten(blocks) + (s.turns + [op.turn]) == history + [op.turn];
    } else if |s.turns| > op.keepLast {
      var k := Cut(|s.turns|, op.keepLast);
      var older := s.turns[..k];
      if op.llm(older).Some? {
        after := blocks + [older];
        FlattenMoves(blocks, older, s.turns[k..]);
        assert s.turns == older + s.turns[k..];
      }
    }
  }

  /**
   * Over any sequence of additions and compactions, however many turns each one keeps and
   * whether or not the model answers, the summarised blocks in order followed by the live
   * turns are exactly the turns added.
   */
  lemma {:induction false} HistoryIsAccountedFor(s: State, blocks: seq<seq<Turn>>, history: seq<Turn>, ops: seq<Op>)
    returns (after: seq<seq<Turn>>)
    requires Accounts(s, blocks, history)
    ensures Accounts(Run(s, ops), after, history + Added(ops))
    ensures |after| >= |blocks| && after[..|blocks|] == blocks
    ensures AnsweredIn(ops, after, Run(s, ops), |blocks|)
  {
    if ops == [] {
      after := blocks;
      assert history + Added(ops) == history;
    } else {
      var m := |ops| - 1;
      var before := HistoryIsAccountedFor(s, blocks, history, ops[..m]);
      var state := Run(s, ops[..m]);
      after := AccountsStep(state, before, history + Added(ops[..m]), ops[m]);
      assert forall i | 0 <= i < |before| :: after[i] == after[..|before|][i];
      var summaries := Run(s, ops).summaries;
      assert forall i | 0 <= i < |before| :: summaries[i] == summaries[..|before|][i];
      forall i | |blocks| <= i < |after|
        ensures (exists j :: 0 <= j < |ops| && Answers(ops[j], after[i], summaries[i]))
      {
        if i < |before| {
          var j :| 0 <= j < m && Answers(ops[..m][j], before[i], state.summaries[i]);
          assert ops[..m][j] == ops[j] && after[i] == before[i];
          assert Answers(ops[j], after[i], Run(s, ops).summaries[i]);
        } else {
          assert Answers(ops[m], after[i], Run(s, ops).summaries[i]);
        }
      }
      if ops[m].Add? {
        assert history + Added(ops[..m]) + [ops[m].turn] == history + Added(ops);
      }
    }
  }

  function CountOf(summaries: seq<Summary>): nat {
    if summaries == [] then 0 else CountOf(summaries[..|summaries| - 1]) + summaries[|summaries| - 1].turnCount
  }

  lemma {:induction false} CountOfBlocks(summaries: seq<Summary>, blocks: seq<seq<Turn>>)
    requires |summaries| == |blocks|
    requires forall i | 0 <= i < |blocks| :: summaries[i].turnCount == |blocks[i]|
    ensures CountOf(summaries) == |Flatten(blocks)|
  {
    if blocks != [] {
      CountOfBlocks(summaries[..|summaries| - 1], blocks[..|blocks| - 1]);
    }
  }

  /** The turn counts of the summaries and the live turns together count every turn added. */
  lemma {:induction false} TurnsAreConserved(ops: seq<Op>)
    ensures var s := Run(EMPTY, ops);
      CountOf(s.summaries) + |s.turns| == |Added(ops)|
  {
    var s := Run(EMPTY, ops);
    var blocks := HistoryIsAccountedFor(EMPTY, [], [], ops);
    CountOfBlocks(s.summaries, blocks);
    assert [] + Added(ops) == Added(ops);
  }

  /** The live turns are the most recent ones, and a successful compaction keeps keepLast of them. */
  lemma {:induction false} LiveTurnsAreRecent(ops: seq<Op>)
    ensures var live := Run(EMPTY, ops).turns;
      |live| <= |Added(ops)| && live == Added(ops)[|Added(ops)| - |live|..]
    ensures ops != [] && ops[|ops| - 1].Compact? ==>
      var op := ops[|ops| - 1];
      var before := Run(EMPTY, ops[..|ops| - 1]);
      (Older(before, op) == None || op.llm(Older(before, op).value).Some? ==>
        |Run(EMPTY, ops).turns|
        == if |before.turns| <= op.keepLast then |before.turns| else if op.keepLast < 0 then 0 else op.keepLast)
  {
    var blocks := HistoryIsAccountedFor(EMPTY, [], [], ops);
    assert [] + Added(ops) == Added(ops);
  }

  /**
   * What compaction does to the estimate: it trades the block's tokens for the summary's, so
   * it helps exactly when the summary is the shorter of the two.
   */
  lemma CompactionShrinksExactly(s: State, op: Op)
    requires op.Compact? && Older(s, op).Some? && op.llm(Older(s, op).value).Some?
    ensures var block, text := Older(s, op).value, op.llm(Older(s, op).value).value;
      && Tokens(Apply(s, op)) + TurnTokens(block) == Tokens(s) + Quarter(|text|)
      && (Tokens(Apply(s, op)) < Tokens(s) <==> Quarter(|text|) < TurnTokens(block))
  {
    var k := Cut(|s.turns|, op.keepLast);
    TurnTokensAppend(s.turns[..k], s.turns[k..]);
    assert s.turns[..k] + s.turns[k..] == s.turns;
    var grown := Apply(s, op).summaries;
    assert grown[..|grown| - 1] == s.summaries;
  }

  // ---- Compaction is not atomic --------------------------------------------------------------------

  /** A compaction waiting for its summary: the state it started from, and how many turns it keeps. */
  datatype Request = Request(before: State, keepLast: int)

  type Flight = r: Request | |r.before.turns| > r.keepLast witness Request(EMPTY, -1)

  /** The turns that were sent to the model. */
  function Sent(f: Flight): seq<Turn> {
    f.before.turns[..Cut(|f.before.turns|, f.keepLast)]
  }

  /** The state `compact` writes once the summary arrives: `later` is read for its summaries only. */
  function Finish(f: Flight, later: State, text: string, now: int): State {
    State(f.before.turns[|Sent(f)|..], later.summaries + [Summarise(Sent(f), text, now)])
  }

  /** The first half of `compact`: nothing to wait for when few enough turns are live. */
  function Begin(s: State, keepLast: int): Option<Flight> {
    if |s.turns| <= keepLast then None else Some(Request(s, keepLast))
  }

  /** Without anything in between, the two halves are the atomic operation. */
  lemma HalvesCompose(s: State, op: Op)
    requires op.Compact?
    ensures Apply(s, op) ==
      match Begin(s, op.keepLast)
      case None => s
      case Some(f) => (match op.llm(Sent(f)) case None => s case Some(text) => Finish(f, s, text, op.now))
    ensures Older(s, op) == match Begin(s, op.keepLast) case None => None case Some(f) => Some(Sent(f))
  {
  }

  /**
   * Turns added while the summary is awaited are dropped. The outcome is that of compacting
   * first and adding afterwards exactly when none was.
   */
  lemma TurnsAddedMeanwhile(s: State, op: Op, added: seq<Turn>)
    requires op.Compact? && |s.turns| > op.keepLast && op.llm(Older(s, op).value).Some?
    ensures var text := op.llm(Older(s, op).value).value;
      var later := s.(turns := s.turns + added);
      var outcome := Finish(Request(s, op.keepLast), later, text, op.now);
      && outcome == Apply(s, op)
      && (outcome == Apply(s, op).(turns := Apply(s, op).turns + added) <==> added == [])
  {
    var live := Apply(s, op).turns;
    if added == [] {
      assert live + added == live;
    } else {
      assert |live + added| > |live|;
    }
  }

  /** What can happen to a context whose compactions overlap with other operations. */
  datatype Step =
    | Append(turn: Turn)
    | Start(keepLast: int)
    | Arrive(k: nat, text: string, now: int) // the summary of the k-th compaction in flight
    | Fail(k: nat)

  /** The context, the compactions in flight, and for the account: the summarised blocks and all turns added. */
  datatype Machine = Machine(state: State, inFlight: seq<Flight>, blocks: seq<seq<Turn>>, history: seq<Turn>)

  const FRESH := Machine(EMPTY, [], [], [])

  function Without<T>(s: seq<T>, k: nat): seq<T>
    requires k < |s|
  {
    s[..k] + s[k + 1..]
  }

  function Next(m: Machine, step: Step): Machine {
    match step
    case Append(turn) => m.(state := Apply(m.state, Add(turn)), history := m.history + [turn])
    case Start(keepLast) =>
      (match Begin(m.state, keepLast)
       case None => m
       case Some(f) => m.(inFlight := m.inFlight + [f]))
    case Arrive(k, text, now) =>
      if k >= |m.inFlight| then m
      else
        var f := m.inFlight[k];
        Machine(Finish(f, m.state, text, now), Without(m.inFlight, k), m.blocks + [Sent(f)], m.history)
    case Fail(k) => if k >= |m.inFlight| then m else m.(inFlight := Without(m.inFlight, k))
  }

  function Play(steps: seq<Step>): Machine {
    if steps == [] then FRESH else Next(Play(steps[..|steps| - 1]), steps[|steps| - 1])
  }

  /** The summaries still describe their blocks, whatever the interleaving. */
  lemma {:induction false} BlocksDescribed(steps: seq<Step>)
    ensures var m := Play(steps);
      && |m.state.summaries| == |m.blocks|
      && forall i | 0 <= i < |m.blocks| :: m.state.summaries[i].turnCount == |m.blocks[i]|
  {
    if steps != [] {
      BlocksDescribed(steps[..|steps| - 1]);
    }
  }

  /** Blocks and live turns spell the history. */
  ghost predicate Kept(m: Machine) {
    Flatten(m.blocks) + m.state.turns == m.history
  }

  /** The summary arrives while the live turns are those the compaction started from. */
  ghost predicate FindsItsTurns(m: Machine, step: Step) {
    step.Arrive? && step.k < |m.inFlight| ==> m.state.turns == m.inFlight[step.k].before.turns
  }

  lemma KeptStep(m: Machine, step: Step)
    requires Kept(m)
    ensures Kept(Next(m, step)) <==> FindsItsTurns(m, step)
  {
    match step
    case Append(turn) =>
      assert Flatten(m.blocks) + (m.state.turns + [turn]) == m.history + [turn];
    case Arrive(k, text, now) =>
      if k < |m.inFlight| {
        var f := m.inFlight[k];
        ArriveRewinds(m, step);
        var flat := Flatten(m.blocks);
        assert (flat + f.before.turns)[|flat|..] == f.before.turns;
        assert (flat + m.state.turns)[|flat|..] == m.state.turns;
      }
    case _ =>
  }

  /** An arriving summary puts the account back to the turns its compaction started from. */
  lemma ArriveRewinds(m: Machine, step: Step)
    requires step.Arrive? && step.k < |m.inFlight|
    ensures var after := Next(m, step);
      Flatten(after.blocks) + after.state.turns == Flatten(m.blocks) + m.inFlight[step.k].before.turns
  {
    var f := m.inFlight[step.k];
    FlattenMoves(m.blocks, Sent(f), f.before.turns[|Sent(f)|..]);
    assert Sent(f) + f.before.turns[|Sent(f)|..] == f.before.turns;
  }

  /** At every moment of the run, from the empty context on. */
  ghost predicate KeptThroughout(steps: seq<Step>) {
    Kept(Play(steps)) && (steps != [] ==> KeptThroughout(steps[..|steps| - 1]))
  }

  ghost predicate AlwaysFindsItsTurns(steps: seq<Step>) {
    steps != [] ==>
      var m := |steps| - 1;
      AlwaysFindsItsTurns(steps[..m]) && FindsItsTurns(Play(steps[..m]), steps[m])
  }

  /**
   * Under any interleaving, the summarised blocks and the live turns spell the turns added, at
   * every moment, exactly when each summary arrives while the live turns are still those its
   * compaction started from. The first summary that does not breaks the account.
   */
  lemma {:induction false} InterleavedIsKeptExactly(steps: seq<Step>)
    ensures KeptThroughout(steps) <==> AlwaysFindsItsTurns(steps)
  {
    if steps != [] {
      var m := |steps| - 1;
      InterleavedIsKeptExactly(steps[..m]);
      if Kept(Play(steps[..m])) {
        KeptStep(Play(steps[..m]), steps[m]);
      }
    }
  }

  /** Turns counted by summaries and live turns, beyond the turns added. */
  function Surplus(m: Machine): int {
    CountOf(m.state.summaries) + |m.state.turns| - |m.history|
  }

  /** How much an arriving summary adds to the count: the live turns at its start, less those now. */
  lemma SurplusStep(m: Machine, step: Step)
    ensures Surplus(Next(m, step)) == Surplus(m) +
      (if step.Arrive? && step.k < |m.inFlight| then |m.inFlight[step.k].before.turns| - |m.state.turns| else 0)
  {
    if step.Arrive? && step.k < |m.inFlight| {
      var after := Next(m, step).state.summaries;
      assert after[..|after| - 1] == m.state.summaries;
    }
  }

  ghost predicate ConservedThroughout(steps: seq<Step>) {
    Surplus(Play(steps)) == 0 && (steps != [] ==> ConservedThroughout(steps[..|steps| - 1]))
  }

  /** Every summary arrives while as many turns are live as when its compaction started. */
  ghost predicate ArrivesEven(steps: seq<Step>) {
    steps != [] ==>
      var k := |steps| - 1;
      var m, step := Play(steps[..k]), steps[k];
      && ArrivesEven(steps[..k])
      && (step.Arrive? && step.k < |m.inFlight| ==> |m.inFlight[step.k].before.turns| == |m.state.turns|)
  }

  /** The turn counts add up, at every moment of an interleaved run, exactly then. */
  lemma {:induction false} InterleavedIsConservedExactly(steps: seq<Step>)
    ensures ConservedThroughout(steps) <==> ArrivesEven(steps)
  {
    if steps != [] {
      var k := |steps| - 1;
      InterleavedIsConservedExactly(steps[..k]);
      SurplusStep(Play(steps[..k]), steps[k]);
    }
  }

  /** Two compactions of the same turns that overlap summarise one block twice. */
  lemma OverlapCountsTwice(turns: seq<Turn>, keepLast: int, text: string, now: int)
    requires |turns| > keepLast
    ensures var s := State(turns, []);
      var f: Flight := Request(s, keepLast);
      var m := Machine(s, [f, f], [], turns);
      Surplus(m) == 0 && Surplus(Next(Next(m, Arrive(0, text, now)), Arrive(0, text, now))) == |Sent(f)|
  {
    var s := State(turns, []);
    var f: Flight := Request(s, keepLast);
    var m := Machine(s, [f, f], [], turns);
    SurplusStep(m, Arrive(0, text, now));
    SurplusStep(Next(m, Arrive(0, text, now)), Arrive(0, text, now));
  }

  // ---- When compaction fires ---------------------------------------------------------------------------

  /** The ratio test of `maybeCompact`; over a window of 0 the quotient is infinite, or not a number. */
  predicate Fires(tokens: nat, window: real, threshold: real) {
    if window == 0.0 then tokens > 0 else tokens as real / window > threshold
  }

  /** The largest token count that does not fire; -1 when every count does. */
  function Limit(window: real, threshold: real): int
    requires window >= 0.0
  {
    if window == 0.0 then 0 else if threshold < 0.0 then -1 else (threshold * window).Floor
  }

  lemma {:induction false} FiresAbove(tokens: nat, window: real, threshold: real)
    requires window >= 0.0
    ensures Fires(tokens, window, threshold) <==> tokens > Limit(window, threshold)
  {
    if window == 0.0 {
      return;
    }
    var t := tokens as real;
    var q := t / window;
    assert q * window == t;
    ProductOrder(q, threshold, window);
    if threshold < 0.0 {
      if q < 0.0 {
        ProductOrder(0.0, q, window);
      }
    } else {
      assert tokens > (threshold * window).Floor <==> t > threshold * window;
    }
  }

  lemma ProductOrder(a: real, b: real, w: real)
    requires w > 0.0
    ensures a * w > b * w <==> a > b
  {
    assert (a - b) * w == a * w - b * w;
    if a > b {
      assert (a - b) * w > 0.0;
    } else {
      assert (b - a) * w >= 0.0;
    }
  }

  lemma LimitIsAtLeast(window: real, threshold: real)
    requires window >= 0.0
    ensures Limit(window, threshold) >= -1
  {
    if window > 0.0 && threshold >= 0.0 {
      ProductOrder(0.0, threshold, window);
    }
  }

  /** Two windows lead to the same decisions exactly when their limits agree. */
  lemma WindowsAgreeExactly(w1: real, w2: real, threshold: real)
    requires w1 >= 0.0 && w2 >= 0.0
    ensures (forall t: nat :: Fires(t, w1, threshold) == Fires(t, w2, threshold))
      <==> Limit(w1, threshold) == Limit(w2, threshold)
  {
    forall t: nat
      ensures Fires(t, w1, threshold) <==> t > Limit(w1, threshold)
      ensures Fires(t, w2, threshold) <==> t > Limit(w2, threshold)
    {
      FiresAbove(t, w1, threshold);
      FiresAbove(t, w2, threshold);
    }
    LimitIsAtLeast(w1, threshold);
    LimitIsAtLeast(w2, threshold);
    var l1, l2 := Limit(w1, threshold), Limit(w2, threshold);
    if l1 < l2 {
      assert Fires(l2, w1, threshold) && !Fires(l2, w2, threshold);
    } else if l2 < l1 {
      assert Fires(l1, w2, threshold) && !Fires(l1, w1, threshold);
    }
  }

  type Resolver = Option<string -> real>

  const DEFAULT_WINDOW := 32000.0

  /** Built-in context windows by model name. */
  const WINDOWS: map<string, real> := map[
    "claude-opus-4-7" := 200000.0, "claude-sonnet-4-6" := 200000.0, "claude-haiku-4-5" := 200000.0,
    "gpt-4o" := 128000.0, "gpt-4o-mini" := 128000.0,
    "deepseek-chat" := 128000.0, "deepseek-r1" := 128000.0, "deepseek-v3" := 128000.0,
    "llama-3.3-70b" := 128000.0, "llama-4-scout" := 128000.0, "qwen3-8b" := 32000.0, "qwq-32b" := 32000.0,
    "gemini-2.0-flash" := 1000000.0, "gemini-1.5-pro" := 1000000.0]

  function BaseModel(model: string): string {
    if model == [] || model[0] == '@' then [] else [model[0]] + BaseModel(model[1..])
  }

  function WindowFor(resolver: Resolver, model: string): real {
    var base := BaseModel(model);
    if resolver.Some? then resolver.value(base)
    else if base in WINDOWS then WINDOWS[base] else DEFAULT_WINDOW
  }

  /**
   * A restored context has no resolver. It makes the original's decisions about a model, on
   * every conversation, exactly when the resolver's window and the built-in one have the same
   * limit.
   */
  lemma RestoredDecidesAlikeExactly(resolver: Resolver, model: string, threshold: real)
    requires WindowFor(resolver, model) >= 0.0
    ensures WindowFor(None, model) > 0.0
    ensures (forall s: State :: Fires(Tokens(s), WindowFor(resolver, model), threshold)
                         == Fires(Tokens(s), WindowFor(None, model), threshold))
      <==> Limit(WindowFor(resolver, model), threshold) == Limit(WindowFor(None, model), threshold)
  {
    var w1, w2 := WindowFor(resolver, model), WindowFor(None, model);
    WindowsAgreeExactly(w1, w2, threshold);
    if forall s: State :: Fires(Tokens(s), w1, threshold) == Fires(Tokens(s), w2, threshold) {
      forall t: nat
        ensures Fires(t, w1, threshold) == Fires(t, w2, threshold)
      {
        var s := OfSize(t);
        assert Tokens(s) == t;
      }
    }
  }

  /** The base name is what comes before the first `@`, or all of it. */
  lemma {:induction false} BaseModelExactly(base: string, rest: string)
    requires '@' !in base && (rest == "" || rest[0] == '@')
    ensures BaseModel(base + rest) == base
  {
    if base == "" {
      assert base + rest == rest;
    } else {
      assert (base + rest)[1..] == base[1..] + rest;
      BaseModelExactly(base[1..], rest);
    }
  }

  /** A suffix after `@` never changes the window; a resolver is asked first, and for the base name. */
  lemma WindowIgnoresSuffix(resolver: Resolver, base: string, suffix: string)
    requires '@' !in base
    ensures WindowFor(resolver, base + "@" + suffix) == WindowFor(resolver, base)
    ensures resolver.Some? ==> WindowFor(resolver, base) == resolver.value(base)
  {
    BaseModelExactly(base, "@" + suffix);
    BaseModelExactly(base, "");
    assert base + "@" + suffix == base + ("@" + suffix) && base + "" == base;
  }

  /** A conversation of a given estimate. */
  function OfSize(tokens: nat): (s: State)
    ensures Tokens(s) == tokens
  {
    var turn := Turn(User, seq(4 * tokens, _ => 'a'), None);
    assert [turn][..|[turn]| - 1] == [];
    assert TurnTokens([turn]) == TurnTokens([]) + Quarter(4 * tokens);
    State([turn], [])
  }

  /** A restored context compacts a conversation that the original left alone. */
  lemma RestoredMayCompactEarlier()
    ensures var resolver := Some((m: string) => 1000000.0);
      && !Fires(30000, WindowFor(resolver, "other"), 0.7)
      && Fires(30000, WindowFor(None, "other"), 0.7)
  {
    assert BaseModel("other") == "other";
  }

  // ---- The class ------------------------------------------------------------------------------------

  datatype Report = Report(turnsBefore: nat, turnsAfter: nat, summariesAdded: nat, tokensBefore: nat, tokensAfter: nat)

  datatype Snapshot = Snapshot(version: int, workingMemorySize: int, turns: seq<Turn>, summaries: seq<Summary>)

  datatype Failure = ModelFailed | UnsupportedVersion(version: int)

  class ConversationContext {
    const workingMemorySize: int
    const resolver: Resolver
    var turns: seq<Turn>
    var summaries: seq<Summary>

    function Current(): State
      reads this
    {
      State(turns, summaries)
    }

    constructor (workingMemorySize: Option<int>, resolver: Resolver)
      ensures Current() == EMPTY && this.resolver == resolver
      ensures this.workingMemorySize == if workingMemorySize.Some? then workingMemorySize.value else 6
    {
      this.workingMemorySize := if workingMemorySize.Some? then workingMemorySize.value else 6;
      this.resolver := resolver;
      turns, summaries := [], [];
    }

    method AddTurn(role: Role, content: string, meta: Option<string>)
      modifies this
      ensures Current() == Apply(old(Current()), Add(Turn(role, content, meta)))
    {
      turns := turns + [Turn(role, content, meta)];
    }

    method EstimatedTokens() returns (total: nat)
      ensures total == Tokens(Current())
    {
      total := 0;
      for i := 0 to |turns|
        invariant total == TurnTokens(turns[..i])
      {
        assert turns[..i + 1][..i] == turns[..i];
        total := total + (|turns[i].content| + 3) / 4;
      }
      assert turns[..|turns|] == turns;
      for i := 0 to |summaries|
        invariant total == TurnTokens(turns) + SummaryTokens(summaries[..i])
      {
        assert summaries[..i + 1][..i] == summaries[..i];
        total := total + (|summaries[i].text| + 3) / 4;
      }
      assert summaries[..|summaries|] == summaries;
    }

    /** `compact` up to its await. */
    method StartCompact(keepLast: Option<int>) returns (flight: Option<Flight>)
      ensures flight == Begin(Current(), if keepLast.Some? then keepLast.value else workingMemorySize)
    {
      var keep := if keepLast.Some? then keepLast.value else workingMemorySize;
      if |turns| <= keep {
        return None;
      }
      return Some(Request(Current(), keep));
    }

    /** `compact` after its await, whatever happened to the context meanwhile. */
    method FinishCompact(flight: Flight, text: string, now: int) returns (r: Report)
      modifies this
      ensures Current() == Finish(flight, old(Current()), text, now)
      ensures r == Report(|flight.before.turns|, |turns|, 1, Tokens(flight.before), Tokens(Current()))
    {
      var n := |flight.before.turns|;
      var k := Cut(n, flight.keepLast);
      var olderTurns, recentTurns := flight.before.turns[..k], flight.before.turns[k..];
      var originalTokens := BlockTokens(olderTurns);
      summaries := summaries + [Summary(now, |olderTurns|, originalTokens, text)];
      turns := recentTurns;
      var tokensAfter := EstimatedTokens();
      return Report(n, |turns|, 1, Tokens(flight.before), tokensAfter);
    }

    /** The whole of `compact`, with nothing else touching the context while the model is awaited. */
    method Compact(llm: seq<Turn> -> Option<string>, keepLast: Option<int>, now: int) returns (r: Result<Report, Failure>)
      modifies this
      ensures var op := Op.Compact(if keepLast.Some? then keepLast.value else workingMemorySize, llm, now);
        && Current() == Apply(old(Current()), op)
        && (r == Err(ModelFailed) <==> Older(old(Current()), op).Some? && llm(Older(old(Current()), op).value) == None)
      ensures r.Err? ==> r == Err(ModelFailed)
      ensures r.Ok? ==> r.value == Report(
        |old(turns)|, |turns|, |summaries| - |old(summaries)|, Tokens(old(Current())), Tokens(Current()))
    {
      ghost var op := Op.Compact(if keepLast.Some? then keepLast.value else workingMemorySize, llm, now);
      HalvesCompose(Current(), op);
      var tokensBefore := EstimatedTokens();
      var flight := StartCompact(keepLast);
      if flight == None {
        return Ok(Report(|turns|, |turns|, 0, tokensBefore, tokensBefore));
      }
      var reply := llm(Sent(flight.value));
      if reply == None {
        return Err(ModelFailed);
      }
      var report := FinishCompact(flight.value, reply.value, now);
      return Ok(report);
    }

    method MaybeCompact(model: string, llm: seq<Turn> -> Option<string>, threshold: real, now: int)
      returns (r: Result<bool, Failure>)
      modifies this
      ensures var s := old(Current());
        var op := Op.Compact(workingMemorySize, llm, now);
        && (r == Ok(false) <==> !Fires(Tokens(s), WindowFor(resolver, model), threshold))
        && (r == Err(ModelFailed) <==>
          && Fires(Tokens(s), WindowFor(resolver, model), threshold)
          && Older(s, op).Some? && llm(Older(s, op).value) == None)
        && (r.Err? ==> r == Err(ModelFailed))
        && Current() == if r == Ok(false) then s else Apply(s, op)
    {
      var tokens := EstimatedTokens();
      if !Fires(tokens, WindowFor(resolver, model), threshold) {
        return Ok(false);
      }
      var report := Compact(llm, None, now);
      return if report.Err? then Err(report.error) else Ok(true);
    }

    method ToJSON() returns (r: Snapshot)
      ensures r == Snapshot(1, workingMemorySize, Current().turns, Current().summaries)
    {
      return Snapshot(1, workingMemorySize, turns, summaries);
    }

    static method FromJSON(snapshot: Snapshot) returns (r: Result<ConversationContext, Failure>)
      ensures snapshot.version != 1 <==> r.Err?
      ensures r.Err? ==> r.error == UnsupportedVersion(snapshot.version)
      ensures r.Ok? ==>
        && fresh(r.value) && r.value.Current() == State(snapshot.turns, snapshot.summaries)
        && r.value.workingMemorySize == snapshot.workingMemorySize && r.value.resolver == None
    {
      if snapshot.version != 1 {
        return Err(UnsupportedVersion(snapshot.version));
      }
      var ctx := new ConversationContext(Some(snapshot.workingMemorySize), None);
      ctx.turns := snapshot.turns;
      ctx.summaries := snapshot.summaries;
      return Ok(ctx);
    }
  }

  /** The sum of the lengths, rounded once. */
  method BlockTokens(block: seq<Turn>) returns (r: nat)
    ensures r == Quarter(Chars(block)) && r <= TurnTokens(block)
  {
    var sum := 0;
    for i := 0 to |block|
      invariant sum == Chars(block[..i])
    {
      assert block[..i + 1][..i] == block[..i];
      sum := sum + |block[i].content|;
    }
    assert block[..|block|] == block;
    RoundingGap(block);
    return (sum + 3) / 4;
  }

  /** One operation on a context. */
  method Perform(c: ConversationContext, op: Op)
    modifies c
    ensures c.Current() == Apply(old(c.Current()), op)
  {
    match op
    case Add(turn) =>
      c.AddTurn(turn.role, turn.content, turn.meta);
    case Compact(keepLast, llm, now) =>
      var _ := c.Compact(llm, Some(keepLast), now);
  }

  /**
   * A context restored from a snapshot behaves like the original: under any later sequence of
   * additions and compactions both hold the same turns and summaries, and neither sees the
   * other's updates.
   */
  method RestoreAndReplay(c: ConversationContext, ops: seq<Op>) returns (restored: ConversationContext)
    modifies c
    ensures fresh(restored)
    ensures c.Current() == Run(old(c.Current()), ops) && restored.Current() == c.Current()
    ensures restored.workingMemorySize == c.workingMemorySize
  {
    var snapshot := c.ToJSON();
    var r := ConversationContext.FromJSON(snapshot);
    restored := r.value;
    ghost var start := c.Current();
    for i := 0 to |ops|
      invariant c.Current() == Run(start, ops[..i]) && restored.Current() == start
    {
      assert ops[..i + 1][..i] == ops[..i];
      Perform(c, ops[i]);
    }
    for i := 0 to |ops|
      invariant restored.Current() == Run(start, ops[..i]) && c.Current() == Run(start, ops[..|ops|])
    {
      assert ops[..i + 1][..i] == ops[..i];
      Perform(restored, ops[i]);
    }
    assert ops[..|ops|] == ops;
  }
}
