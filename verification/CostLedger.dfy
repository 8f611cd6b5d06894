/**
 * Cost accounting per cycle and worker (`createCostAccountingPort`,
 * src/economy/cost-accounting-port.ts). A call touches the ledger once, after its await,
 * so any interleaving of `complete` calls is a sequence of `Finish` calls.
 */
module CostLedger {
  import opened Wrappers
  import opened Arithmetic

  const UNKNOWN := "unknown"
  const ROLLUP := "*"
  const KEY_SEP := '\0'

  datatype Amounts = Amounts(
    callCount: int, inputTokens: int, outputTokens: int, cacheReadTokens: int, cacheCreationTokens: int,
    costUsd: real, latencyMs: int, errorCount: int)

  const ZERO := Amounts(0, 0, 0, 0, 0, 0.0, 0, 0)

  function Add(a: Amounts, b: Amounts): Amounts {
    Amounts(a.callCount + b.callCount, a.inputTokens + b.inputTokens, a.outputTokens + b.outputTokens,
            a.cacheReadTokens + b.cacheReadTokens, a.cacheCreationTokens + b.cacheCreationTokens,
            a.costUsd + b.costUsd, a.latencyMs + b.latencyMs, a.errorCount + b.errorCount)
  }

  datatype Record = Record(correlationId: string, agentId: string, amounts: Amounts)

  datatype Usage = Usage(
    inputTokens: Option<int>, outputTokens: Option<int>,
    cacheReadTokens: Option<int>, cacheCreationTokens: Option<int>, costUsd: Option<real>)

  /** How the wrapped provider's call ended: it threw, or it returned a response. */
  datatype Outcome = Threw | Returned(usage: Usage, finishedWithError: bool)

  datatype Call = Call(correlationId: Option<string>, agentId: Option<string>, outcome: Outcome, latencyMs: int)

  function OrElse<T>(o: Option<T>, d: T): T {
    match o case None => d case Some(v) => v
  }

  function Key(correlationId: string, agentId: string): string {
    correlationId + [KEY_SEP] + agentId
  }

  /** A finished call as a record of its own: what it contributes, and to whom. */
  function Posted(c: Call): Record {
    Record(OrElse(c.correlationId, UNKNOWN), OrElse(c.agentId, UNKNOWN),
      match c.outcome
      case Threw => Amounts(1, 0, 0, 0, 0, 0.0, c.latencyMs, 1)
      case Returned(u, failed) =>
        Amounts(1, OrElse(u.inputTokens, 0), OrElse(u.outputTokens, 0), OrElse(u.cacheReadTokens, 0),
                OrElse(u.cacheCreationTokens, 0), OrElse(u.costUsd, 0.0), c.latencyMs, if failed then 1 else 0))
  }

  // ---- Sums and groupings ------------------------------------------------------------------

  /** Field by field sum of the records that satisfy `p`. */
  function SumWhere(records: seq<Record>, p: Record -> bool): Amounts {
    if records == [] then ZERO
    else
      var last := records[|records| - 1];
      var rest := SumWhere(records[..|records| - 1], p);
      if p(last) then Add(rest, last.amounts) else rest
  }

  function All(): Record -> bool { _ => true }

  datatype Dimension = ByCorrelation | ByAgent | ByCell

  function Id(d: Dimension, r: Record): string {
    match d
    case ByCorrelation => r.correlationId
    case ByAgent => r.agentId
    case ByCell => Key(r.correlationId, r.agentId)
  }

  function InGroup(d: Dimension, id: string): Record -> bool {
    (r: Record) => Id(d, r) == id
  }

  function Ids(d: Dimension, records: seq<Record>): (r: seq<string>)
    ensures |r| == |records| && forall k | 0 <= k < |r| :: r[k] == Id(d, records[k])
  {
    seq(|records|, k requires 0 <= k < |records| => Id(d, records[k]))
  }

  /** The distinct ids, in the order of their first occurrence. */
  function FirstOccurrences(ids: seq<string>): (r: seq<string>)
    ensures forall id :: id in r <==> id in ids
    ensures forall i, j | 0 <= i < j < |r| :: r[i] != r[j]
  {
    if ids == [] then []
    else
      assert ids == ids[..|ids| - 1] + [ids[|ids| - 1]];
      var front := FirstOccurrences(ids[..|ids| - 1]);
      var last := ids[|ids| - 1];
      if last in front then front else front + [last]
  }

  /** One record per distinct id, in order of first occurrence, holding the sum of its group. */
  ghost predicate IsGrouping(d: Dimension, records: seq<Record>, groups: seq<Record>) {
    && Ids(d, groups) == FirstOccurrences(Ids(d, records))
    && forall k | 0 <= k < |groups| :: groups[k].amounts == SumWhere(records, InGroup(d, Id(d, groups[k])))
  }

  /** Sum over the selected ids of the sums of their groups. */
  ghost function GroupSum(d: Dimension, records: seq<Record>, order: seq<string>, sel: string -> bool): Amounts {
    if order == [] then ZERO
    else
      var last := order[|order| - 1];
      var rest := GroupSum(d, records, order[..|order| - 1], sel);
      if sel(last) then Add(rest, SumWhere(records, InGroup(d, last))) else rest
  }

  lemma {:induction false} GroupSumEmpty(d: Dimension, order: seq<string>, sel: string -> bool)
    ensures GroupSum(d, [], order, sel) == ZERO
  {
    if order != [] {
      GroupSumEmpty(d, order[..|order| - 1], sel);
    }
  }

  lemma {:induction false} SumSnoc(records: seq<Record>, r: Record, p: Record -> bool)
    ensures SumWhere(records + [r], p)
         == if p(r) then Add(SumWhere(records, p), r.amounts) else SumWhere(records, p)
  {
    assert (records + [r])[..|records|] == records;
  }

  lemma AddSwap(a: Amounts, b: Amounts, c: Amounts)
    ensures Add(Add(a, b), c) == Add(Add(a, c), b) == Add(a, Add(b, c))
  {
  }

  lemma {:induction false} GroupSumSnoc(d: Dimension, records: seq<Record>, r: Record, order: seq<string>,
                                        sel: string -> bool)
    requires forall i, j | 0 <= i < j < |order| :: order[i] != order[j]
    ensures GroupSum(d, records + [r], order, sel)
         == if Id(d, r) in order && sel(Id(d, r)) then Add(GroupSum(d, records, order, sel), r.amounts)
            else GroupSum(d, records, order, sel)
  {
    if order != [] {
      var m := |order| - 1;
      var front, last := order[..m], order[m];
      assert order == front + [last] && last !in front;
      GroupSumSnoc(d, records, r, front, sel);
      SumSnoc(records, r, InGroup(d, last));
      if last == Id(d, r) || sel(last) {
        AddSwap(GroupSum(d, records, front, sel), SumWhere(records, InGroup(d, last)), r.amounts);
      }
    }
  }

  /** Summing the groups of the selected ids counts each selected record once. */
  lemma {:induction false} GroupsPartition(d: Dimension, records: seq<Record>, order: seq<string>,
                                           sel: string -> bool, p: Record -> bool)
    requires forall i, j | 0 <= i < j < |order| :: order[i] != order[j]
    requires forall k | 0 <= k < |records| :: Id(d, records[k]) in order && (p(records[k]) <==> sel(Id(d, records[k])))
    ensures GroupSum(d, records, order, sel) == SumWhere(records, p)
  {
    if records == [] {
      GroupSumEmpty(d, order, sel);
    } else {
      var m := |records| - 1;
      GroupsPartition(d, records[..m], order, sel, p);
      GroupSumSnoc(d, records[..m], records[m], order, sel);
      assert records == records[..m] + [records[m]];
    }
  }

  lemma {:induction false} SumOfGroups(d: Dimension, records: seq<Record>, groups: seq<Record>,
                                       sel: string -> bool, q: Record -> bool)
    requires forall k | 0 <= k < |groups| :: groups[k].amounts == SumWhere(records, InGroup(d, Id(d, groups[k])))
    requires forall k | 0 <= k < |groups| :: q(groups[k]) <==> sel(Id(d, groups[k]))
    ensures SumWhere(groups, q) == GroupSum(d, records, Ids(d, groups), sel)
  {
    if groups != [] {
      var m := |groups| - 1;
      SumOfGroups(d, records, groups[..m], sel, q);
      assert Ids(d, groups)[..m] == Ids(d, groups[..m]);
    }
  }

  /** Conservation: a selection made on ids has the same sum before and after grouping. */
  lemma {:induction false} GroupingConserves(d: Dimension, records: seq<Record>, groups: seq<Record>,
                          sel: string -> bool, p: Record -> bool, q: Record -> bool)
    requires IsGrouping(d, records, groups)
    requires forall k | 0 <= k < |records| :: p(records[k]) <==> sel(Id(d, records[k]))
    requires forall k | 0 <= k < |groups| :: q(groups[k]) <==> sel(Id(d, groups[k]))
    ensures SumWhere(groups, q) == SumWhere(records, p)
  {
    SumOfGroups(d, records, groups, sel, q);
    forall k | 0 <= k < |records|
      ensures Id(d, records[k]) in Ids(d, groups)
    {
      assert Id(d, records[k]) == Ids(d, records)[k];
    }
    GroupsPartition(d, records, Ids(d, groups), sel, p);
  }

  // ---- Attribution ----------------------------------------------------------------------------

  /** No cycle id contains the separator of the ledger's keys. */
  ghost predicate SeparatorFree(records: seq<Record>) {
    forall k | 0 <= k < |records| :: KEY_SEP !in records[k].correlationId
  }

  ghost predicate SameIds(r: Record, s: Record) {
    r.correlationId == s.correlationId && r.agentId == s.agentId
  }

  /** The first id is the second one, a separator and more text, which the second worker then starts with. */
  ghost predicate Extends(c: string, a: string, c': string, a': string) {
    exists u: string :: c == c' + [KEY_SEP] + u && a' == u + [KEY_SEP] + a
  }

  lemma LongerCycle(c: string, a: string, c': string, a': string)
    requires Key(c, a) == Key(c', a') && |c| > |c'|
    ensures Extends(c, a, c', a')
  {
    var n, key := |c'|, Key(c, a);
    var u := c[n + 1..];
    assert c' == key[..n] == c[..n];
    assert key[n] == KEY_SEP == c[n];
    assert c == c' + [KEY_SEP] + u;
    assert a' == Key(c', a')[n + 1..] == u + [KEY_SEP] + a;
  }

  lemma ExtendsCollides(c: string, a: string, c': string, a': string)
    requires Extends(c, a, c', a')
    ensures Key(c, a) == Key(c', a') && c != c' && KEY_SEP in c
  {
    var u: string :| c == c' + [KEY_SEP] + u && a' == u + [KEY_SEP] + a;
    assert Key(c, a) == c' + [KEY_SEP] + u + [KEY_SEP] + a == Key(c', a');
    assert c[|c'|] == KEY_SEP;
  }

  /** Two cells share a key exactly when they are the same or a separator moves from a cycle to a worker. */
  lemma KeysCollideExactly(c: string, a: string, c': string, a': string)
    ensures Key(c, a) == Key(c', a') <==>
      (c == c' && a == a') || Extends(c, a, c', a') || Extends(c', a', c, a)
  {
    if Key(c, a) == Key(c', a') {
      if |c| > |c'| {
        LongerCycle(c, a, c', a');
      } else if |c'| > |c| {
        LongerCycle(c', a', c, a);
      } else {
        assert c == Key(c, a)[..|c|] && a == Key(c, a)[|c| + 1..];
        assert c' == Key(c', a')[..|c|] && a' == Key(c', a')[|c| + 1..];
      }
    }
    if Extends(c, a, c', a') {
      ExtendsCollides(c, a, c', a');
    }
    if Extends(c', a', c, a) {
      ExtendsCollides(c', a', c, a);
    }
  }

  /** No two calls of different cells share a key. */
  ghost predicate NoCollision(calls: seq<Record>) {
    forall i, j | 0 <= i < |calls| && 0 <= j < |calls| && Id(ByCell, calls[i]) == Id(ByCell, calls[j]) ::
      SameIds(calls[i], calls[j])
  }

  /** Without separators in cycle ids there is no collision. */
  lemma SeparatorFreeIsEnough(calls: seq<Record>)
    requires SeparatorFree(calls)
    ensures NoCollision(calls)
  {
    forall i, j | 0 <= i < |calls| && 0 <= j < |calls| && Id(ByCell, calls[i]) == Id(ByCell, calls[j])
      ensures SameIds(calls[i], calls[j])
    {
      var r, s := calls[i], calls[j];
      KeysCollideExactly(r.correlationId, r.agentId, s.correlationId, s.agentId);
      if Extends(r.correlationId, r.agentId, s.correlationId, s.agentId) {
        ExtendsCollides(r.correlationId, r.agentId, s.correlationId, s.agentId);
      }
      if Extends(s.correlationId, s.agentId, r.correlationId, r.agentId) {
        ExtendsCollides(s.correlationId, s.agentId, r.correlationId, r.agentId);
      }
    }
  }

  ghost predicate IsFirst(r: Record, calls: seq<Record>, i: nat) {
    && i < |calls| && SameIds(r, calls[i])
    && forall j | 0 <= j < i :: Id(ByCell, calls[j]) != Id(ByCell, r)
  }

  /** The record has the ids of the first call with its key. */
  ghost predicate FirstOfItsKey(r: Record, calls: seq<Record>) {
    exists i: nat :: IsFirst(r, calls, i)
  }

  /** The cells of a ledger: one per key, under the ids of the first call that used it. */
  ghost predicate IsLedgerOf(finished: seq<Record>, cells: seq<Record>) {
    && IsGrouping(ByCell, finished, cells)
    && forall k | 0 <= k < |cells| :: FirstOfItsKey(cells[k], finished)
  }

  function WithIds(r: Record): Record -> bool {
    (s: Record) => s.correlationId == r.correlationId && s.agentId == r.agentId
  }

  lemma {:induction false} SumAlike(records: seq<Record>, p: Record -> bool, q: Record -> bool)
    requires forall k | 0 <= k < |records| :: p(records[k]) == q(records[k])
    ensures SumWhere(records, p) == SumWhere(records, q)
  {
    if records != [] {
      SumAlike(records[..|records| - 1], p, q);
    }
  }

  /** The cycle and worker of a call have a cell of their own, which holds exactly their calls. */
  ghost predicate HasOwnCell(finished: seq<Record>, cells: seq<Record>, r: Record) {
    exists k | 0 <= k < |cells| :: SameIds(cells[k], r) && cells[k].amounts == SumWhere(finished, WithIds(r))
  }

  lemma {:induction false} CellOf(finished: seq<Record>, cells: seq<Record>, i: nat) returns (k: nat)
    requires IsLedgerOf(finished, cells) && i < |finished|
    ensures k < |cells| && Id(ByCell, cells[k]) == Id(ByCell, finished[i])
  {
    assert Id(ByCell, finished[i]) == Ids(ByCell, finished)[i];
    assert Id(ByCell, finished[i]) in Ids(ByCell, cells);
    k :| 0 <= k < |cells| && Ids(ByCell, cells)[k] == Id(ByCell, finished[i]);
  }

  lemma {:induction false} OwnCell(finished: seq<Record>, cells: seq<Record>, i: nat)
    requires IsLedgerOf(finished, cells) && NoCollision(finished) && i < |finished|
    ensures HasOwnCell(finished, cells, finished[i])
  {
    var r := finished[i];
    var k := CellOf(finished, cells, i);
    assert FirstOfItsKey(cells[k], finished);
    var f: nat :| IsFirst(cells[k], finished, f);
    assert Id(ByCell, finished[f]) == Id(ByCell, r);
    assert SameIds(finished[f], r) && SameIds(cells[k], r);
    SumAlike(finished, InGroup(ByCell, Id(ByCell, r)), WithIds(r));
  }

  lemma OneCellPerKey(finished: seq<Record>, cells: seq<Record>, r: Record, s: Record)
    requires Ids(ByCell, cells) == FirstOccurrences(Ids(ByCell, finished)) && Id(ByCell, r) == Id(ByCell, s)
    requires HasOwnCell(finished, cells, r) && HasOwnCell(finished, cells, s)
    ensures SameIds(r, s)
  {
    var k :| 0 <= k < |cells| && SameIds(cells[k], r);
    var m :| 0 <= m < |cells| && SameIds(cells[m], s);
    var ids := Ids(ByCell, cells);
    assert ids[k] == Id(ByCell, r) && ids[m] == Id(ByCell, s);
    assert k == m;
  }

  /** Every cycle and worker gets a record of its own exactly when no two of them share a key. */
  lemma {:induction false} CellsAreOwnExactly(finished: seq<Record>, cells: seq<Record>)
    requires IsLedgerOf(finished, cells)
    ensures (forall i | 0 <= i < |finished| :: HasOwnCell(finished, cells, finished[i])) <==> NoCollision(finished)
  {
    if NoCollision(finished) {
      forall i | 0 <= i < |finished|
        ensures HasOwnCell(finished, cells, finished[i])
      {
        OwnCell(finished, cells, i);
      }
    }
    if forall i | 0 <= i < |finished| :: HasOwnCell(finished, cells, finished[i]) {
      forall i, j | 0 <= i < |finished| && 0 <= j < |finished| && Id(ByCell, finished[i]) == Id(ByCell, finished[j])
        ensures SameIds(finished[i], finished[j])
      {
        assert HasOwnCell(finished, cells, finished[i]) && HasOwnCell(finished, cells, finished[j]);
        OneCellPerKey(finished, cells, finished[i], finished[j]);
      }
    }
  }

  /** Two calls with one key make one cell, under the first call's ids; the second cycle has nothing. */
  lemma {:induction false} CollisionMergesCells(first: Record, second: Record, cells: seq<Record>)
    requires IsLedgerOf([first, second], cells)
    requires Id(ByCell, first) == Id(ByCell, second) && !SameIds(first, second)
    ensures |cells| == 1 && SameIds(cells[0], first)
    ensures cells[0].amounts == Add(Add(ZERO, first.amounts), second.amounts)
    ensures SumWhere(cells, InGroup(ByCorrelation, second.correlationId)) == ZERO
  {
    var calls, key := [first, second], Id(ByCell, first);
    assert calls[..1] == [first] && [first][..0] == [];
    assert Ids(ByCell, calls) == [key, key] && [key, key][..1] == [key] && [key][..0] == [];
    assert FirstOccurrences([]) == [] && FirstOccurrences([key]) == [key];
    assert |Ids(ByCell, cells)| == 1 && Ids(ByCell, cells)[0] == key;
    assert FirstOfItsKey(cells[0], calls);
    var i: nat :| IsFirst(cells[0], calls, i);
    assert i == 0 && SameIds(cells[0], first);
    var p := InGroup(ByCell, key);
    assert SumWhere([first], p) == Add(ZERO, first.amounts);
    assert SumWhere(calls, p) == Add(SumWhere([first], p), second.amounts);
    KeysCollideExactly(first.correlationId, first.agentId, second.correlationId, second.agentId);
    assert cells[..0] == [];
  }

  /** Without collisions, a cycle's or worker's cells hold exactly its calls. */
  lemma {:induction false} AttributionIsExact(d: Dimension, finished: seq<Record>, cells: seq<Record>, id: string)
    requires IsLedgerOf(finished, cells) && NoCollision(finished)
    ensures SumWhere(cells, InGroup(d, id)) == SumWhere(finished, InGroup(d, id))
  {
    var selected := set k | 0 <= k < |finished| && Id(d, finished[k]) == id :: Id(ByCell, finished[k]);
    forall k | 0 <= k < |cells|
      ensures Id(d, cells[k]) == id <==> Id(ByCell, cells[k]) in selected
    {
      assert FirstOfItsKey(cells[k], finished);
      var f: nat :| IsFirst(cells[k], finished, f);
      assert Id(ByCell, cells[k]) == Id(ByCell, finished[f]) && Id(d, cells[k]) == Id(d, finished[f]);
    }
    forall k | 0 <= k < |finished|
      ensures InGroup(d, id)(finished[k]) <==> Id(ByCell, finished[k]) in selected
    {
    }
    GroupingConserves(ByCell, finished, cells, k => k in selected, InGroup(d, id), InGroup(d, id));
  }

  // ---- The port ----------------------------------------------------------------------------------

  datatype Snapshot = Snapshot(totals: Record, byCycle: seq<Record>, byWorker: seq<Record>, cacheHitRatio: real)

  ghost predicate NonNegativeTokens(finished: seq<Record>) {
    forall k | 0 <= k < |finished| :: finished[k].amounts.inputTokens >= 0 && finished[k].amounts.cacheReadTokens >= 0
  }

  /** Errors are calls, and tokens add up without going negative. */
  lemma {:induction false} TotalBounds(finished: seq<Record>)
    requires forall k | 0 <= k < |finished| :: 0 <= finished[k].amounts.errorCount <= finished[k].amounts.callCount
    ensures 0 <= SumWhere(finished, All()).errorCount <= SumWhere(finished, All()).callCount
    ensures NonNegativeTokens(finished) ==>
      SumWhere(finished, All()).inputTokens >= 0 && SumWhere(finished, All()).cacheReadTokens >= 0
  {
    if finished != [] {
      TotalBounds(finished[..|finished| - 1]);
    }
  }

  /** The cell of the key has grown by the call, field by field; a missing one was created from zero, last. */
  ghost predicate UsageAdded(order: seq<string>, ledger: map<string, Record>, posted: Record, key: string,
                             orderAfter: seq<string>, ledgerAfter: map<string, Record>)
  {
    if key in ledger then
      && orderAfter == order
      && ledgerAfter == ledger[key := ledger[key].(amounts := Add(ledger[key].amounts, posted.amounts))]
    else
      && orderAfter == order + [key]
      && ledgerAfter == ledger[key := Record(posted.correlationId, posted.agentId, Add(ZERO, posted.amounts))]
  }

  // ---- What a call contributes ---------------------------------------------------------------

  function Failed(c: Call): bool {
    c.outcome == Threw || (c.outcome.Returned? && c.outcome.finishedWithError)
  }

  /** A number the provider reported; 0 when it did not, or when the call threw. */
  function Reported(c: Call, field: Usage -> Option<int>): int {
    if c.outcome.Returned? && field(c.outcome.usage).Some? then field(c.outcome.usage).value else 0
  }

  /** Sum of a number over the calls that are posted to the records in question. */
  function SumOver(calls: seq<Call>, p: Record -> bool, number: Call -> int): int {
    if calls == [] then 0
    else
      var last := calls[|calls| - 1];
      SumOver(calls[..|calls| - 1], p, number) + if p(Posted(last)) then number(last) else 0
  }

  function CostOver(calls: seq<Call>, p: Record -> bool): real {
    if calls == [] then 0.0
    else
      var last := calls[|calls| - 1];
      CostOver(calls[..|calls| - 1], p)
      + if p(Posted(last)) && last.outcome.Returned? && last.outcome.usage.costUsd.Some?
        then last.outcome.usage.costUsd.value else 0.0
  }

  function PostedAll(calls: seq<Call>): seq<Record>
  {
    seq(|calls|, k requires 0 <= k < |calls| => Posted(calls[k]))
  }

  /** Each amount of an account adds up what its calls reported: one per call, one per failed call, and so on. */
  lemma {:induction false} AmountsAreReported(calls: seq<Call>, p: Record -> bool)
    ensures var total := SumWhere(PostedAll(calls), p);
      && total.callCount == SumOver(calls, p, _ => 1)
      && total.errorCount == SumOver(calls, p, c => if Failed(c) then 1 else 0)
      && total.latencyMs == SumOver(calls, p, (c: Call) => c.latencyMs)
      && total.inputTokens == SumOver(calls, p, c => Reported(c, (u: Usage) => u.inputTokens))
      && total.outputTokens == SumOver(calls, p, c => Reported(c, (u: Usage) => u.outputTokens))
      && total.cacheReadTokens == SumOver(calls, p, c => Reported(c, (u: Usage) => u.cacheReadTokens))
      && total.cacheCreationTokens == SumOver(calls, p, c => Reported(c, (u: Usage) => u.cacheCreationTokens))
      && total.costUsd == CostOver(calls, p)
  {
    if calls != [] {
      var m := |calls| - 1;
      AmountsAreReported(calls[..m], p);
      assert PostedAll(calls)[..m] == PostedAll(calls[..m]);
    }
  }

  /** A call is posted to the cycle and worker it names, and to "unknown" for what it does not name. */
  lemma PostedTo(c: Call)
    ensures Posted(c).correlationId == match c.correlationId case Some(id) => id case None => "unknown"
    ensures Posted(c).agentId == match c.agentId case Some(id) => id case None => "unknown"
  {
  }

  class CostAccountingPort {
    /** The `ledger` Map: its keys in insertion order, and its records. */
    var order: seq<string>
    var ledger: map<string, Record>
    /** The calls finished since the last reset. */
    ghost var finished: seq<Record>

    ghost predicate Valid()
      reads this
    {
      && KeysMatch(order, ledger)
      && IsLedgerOf(finished, Cells(order, ledger))
      && forall i | 0 <= i < |finished| :: 0 <= finished[i].amounts.errorCount <= finished[i].amounts.callCount
    }

    constructor ()
      ensures Valid() && finished == []
    {
      order, ledger, finished := [], map[], [];
      new;
      assert Ids(ByCell, Cells(order, ledger)) == FirstOccurrences(Ids(ByCell, finished));
    }

    /** `ledger.clear()`. */
    method Reset()
      requires Valid()
      modifies this
      ensures Valid() && finished == []
    {
      order, ledger, finished := [], map[], [];
      assert Ids(ByCell, Cells(order, ledger)) == FirstOccurrences(Ids(ByCell, finished));
    }

    /** What `complete` does once the wrapped call has returned or thrown. */
    method Finish(call: Call)
      requires Valid()
      modifies this
      ensures Valid() && finished == old(finished) + [Posted(call)]
    {
      var posted := Posted(call);
      AddUsage(posted, Key(posted.correlationId, posted.agentId));
      UsageIsPosted(old(order), old(ledger), finished, posted, order, ledger);
      finished := finished + [posted];
    }

    /**
     * The totals are the sum over all calls finished since the last reset, and the records
     * per cycle and per worker each add up to them, field by field.
     */
    method TakeSnapshot() returns (s: Snapshot)
      requires Valid()
      ensures s.totals == Record(ROLLUP, ROLLUP, SumWhere(finished, All()))
      ensures IsGrouping(ByCorrelation, Cells(order, ledger), s.byCycle)
      ensures IsGrouping(ByAgent, Cells(order, ledger), s.byWorker)
      ensures (forall g | g in s.byCycle :: g.agentId == ROLLUP) && (forall g | g in s.byWorker :: g.correlationId == ROLLUP)
      ensures SumWhere(s.byCycle, All()) == SumWhere(s.byWorker, All()) == s.totals.amounts
      ensures 0 <= s.totals.amounts.errorCount <= s.totals.amounts.callCount
      ensures NonNegativeTokens(finished) ==> 0.0 <= s.cacheHitRatio <= 1.0
      ensures IsHitRatio(s.cacheHitRatio, s.totals.amounts.inputTokens, s.totals.amounts.cacheReadTokens)
      ensures NoCollision(finished) ==>
        Attributed(ByCorrelation, finished, s.byCycle) && Attributed(ByAgent, finished, s.byWorker)
    {
      var cells := Cells(order, ledger);
      var totals := Rollup(cells);
      GroupingConserves(ByCell, finished, cells, _ => true, All(), All());
      TotalBounds(finished);
      RatioInUnit(finished);
      HitRatioIsRight(totals.amounts.inputTokens, totals.amounts.cacheReadTokens);
      var byCycle := GroupBy(cells, ByCorrelation);
      var byWorker := GroupBy(cells, ByAgent);
      SnapshotGroups(finished, cells, ByCorrelation, byCycle);
      SnapshotGroups(finished, cells, ByAgent, byWorker);
      s := Snapshot(totals, byCycle, byWorker,
                    CacheHitRatio(totals.amounts.inputTokens, totals.amounts.cacheReadTokens));
    }

    /** `addUsage(cell(...), ...)`: the record is created when missing, then added to in place. */
    method AddUsage(posted: Record, key: string)
      modifies this`order, this`ledger
      ensures UsageAdded(old(order), old(ledger), posted, key, order, ledger)
    {
      if key !in ledger {
        ledger := ledger[key := Record(posted.correlationId, posted.agentId, ZERO)];
        order := order + [key];
      }
      var rec := ledger[key];
      ledger := ledger[key := rec.(amounts := Add(rec.amounts, posted.amounts))];
    }
  }

  /** `mergeInto` over all the cells. */
  method Rollup(cells: seq<Record>) returns (totals: Record)
    ensures totals == Record(ROLLUP, ROLLUP, SumWhere(cells, All()))
  {
    totals := Record(ROLLUP, ROLLUP, ZERO);
    for i := 0 to |cells|
      invariant totals == Record(ROLLUP, ROLLUP, SumWhere(cells[..i], All()))
    {
      SumAt(cells, i, All());
      totals := totals.(amounts := Add(totals.amounts, cells[i].amounts));
    }
    assert cells[..|cells|] == cells;
  }

  /** The share of the cache reads in all the tokens read; 0 when there are none. */
  ghost predicate IsHitRatio(ratio: real, inputTokens: int, cacheReadTokens: int) {
    if inputTokens + cacheReadTokens == 0 then ratio == 0.0
    else ratio * (inputTokens + cacheReadTokens) as real == cacheReadTokens as real
  }

  lemma HitRatioIsRight(inputTokens: int, cacheReadTokens: int)
    ensures IsHitRatio(CacheHitRatio(inputTokens, cacheReadTokens), inputTokens, cacheReadTokens)
  {
  }

  function CacheHitRatio(inputTokens: int, cacheReadTokens: int): real {
    var denom := inputTokens + cacheReadTokens;
    if denom == 0 then 0.0 else cacheReadTokens as real / denom as real
  }

  lemma {:induction false} SnapshotGroups(finished: seq<Record>, cells: seq<Record>, d: Dimension, groups: seq<Record>)
    requires IsLedgerOf(finished, cells) && IsGrouping(d, cells, groups)
    ensures SumWhere(groups, All()) == SumWhere(finished, All())
    ensures NoCollision(finished) ==> Attributed(d, finished, groups)
  {
    GroupingConserves(d, cells, groups, _ => true, All(), All());
    GroupingConserves(ByCell, finished, cells, _ => true, All(), All());
    if NoCollision(finished) {
      forall k | 0 <= k < |groups|
        ensures groups[k].amounts == SumWhere(finished, InGroup(d, Id(d, groups[k])))
      {
        AttributionIsExact(d, finished, cells, Id(d, groups[k]));
      }
    }
  }

  /** Every record holds the sum of exactly the calls of its cycle (or worker). */
  ghost predicate Attributed(d: Dimension, finished: seq<Record>, groups: seq<Record>) {
    forall k | 0 <= k < |groups| :: groups[k].amounts == SumWhere(finished, InGroup(d, Id(d, groups[k])))
  }

  lemma {:induction false} RatioInUnit(finished: seq<Record>)
    requires forall k | 0 <= k < |finished| :: 0 <= finished[k].amounts.errorCount <= finished[k].amounts.callCount
    ensures var total := SumWhere(finished, All());
      NonNegativeTokens(finished) ==> 0.0 <= CacheHitRatio(total.inputTokens, total.cacheReadTokens) <= 1.0
  {
    var total := SumWhere(finished, All());
    TotalBounds(finished);
    if NonNegativeTokens(finished) && total.inputTokens + total.cacheReadTokens > 0 {
      var read, denom := total.cacheReadTokens as real, (total.inputTokens + total.cacheReadTokens) as real;
      QuotientOrder(read, denom, 0.0);
      QuotientOrder(read, denom, 1.0);
    }
  }

  /** `groupBy`: one accumulator per id, kept in a Map in order of first use. */
  method GroupBy(cells: seq<Record>, d: Dimension) returns (groups: seq<Record>)
    requires d != ByCell
    ensures IsGrouping(d, cells, groups)
    ensures forall g | g in groups :: (if d == ByCorrelation then g.agentId else g.correlationId) == ROLLUP
  {
    var order: seq<string> := [];
    var accs: map<string, Record> := map[];
    for i := 0 to |cells|
      invariant Accumulators(d, cells[..i], order, accs)
    {
      var key := Id(d, cells[i]);
      AccumulatorStep(d, cells, i, order, accs);
      var acc := if key in accs then accs[key] else FreshGroup(d, key);
      order := if key in accs then order else order + [key];
      accs := accs[key := acc.(amounts := Add(acc.amounts, cells[i].amounts))];
    }
    assert cells[..|cells|] == cells;
    groups := Cells(order, accs);
    assert Ids(d, groups) == order;
  }

  ghost predicate Accumulated(d: Dimension, cells: seq<Record>, key: string, acc: Record) {
    && d != ByCell && Id(d, acc) == key
    && (if d == ByCorrelation then acc.agentId else acc.correlationId) == ROLLUP
    && acc.amounts == SumWhere(cells, InGroup(d, key))
  }

  ghost predicate Accumulators(d: Dimension, cells: seq<Record>, order: seq<string>, accs: map<string, Record>) {
    && order == FirstOccurrences(Ids(d, cells))
    && SameKeys(order, accs)
    && AllAccumulated(d, cells, accs)
  }

  ghost predicate SameKeys(order: seq<string>, accs: map<string, Record>) {
    && (forall k | 0 <= k < |order| :: order[k] in accs)
    && (forall k | k in accs :: k in order)
  }

  ghost predicate AllAccumulated(d: Dimension, cells: seq<Record>, accs: map<string, Record>) {
    forall k | k in accs :: Accumulated(d, cells, k, accs[k])
  }

  function FreshGroup(d: Dimension, key: string): Record {
    if d == ByCorrelation then Record(key, ROLLUP, ZERO) else Record(ROLLUP, key, ZERO)
  }

  lemma AccumulatedStep(d: Dimension, cells: seq<Record>, i: nat, key: string, acc: Record)
    requires i < |cells| && Accumulated(d, cells[..i], key, acc)
    ensures Accumulated(d, cells[..i + 1], key,
                        if Id(d, cells[i]) == key then acc.(amounts := Add(acc.amounts, cells[i].amounts)) else acc)
  {
    SumAt(cells, i, InGroup(d, key));
  }

  lemma SameKeysStep(order: seq<string>, accs: map<string, Record>, key: string, acc: Record)
    requires SameKeys(order, accs)
    ensures SameKeys(if key in accs then order else order + [key], accs[key := acc])
    ensures key in accs <==> key in order
  {
    if key !in accs {
      assert (order + [key])[|order|] == key;
    }
  }

  lemma AllAccumulatedStep(d: Dimension, cells: seq<Record>, i: nat, accs: map<string, Record>, acc: Record)
    requires i < |cells| && AllAccumulated(d, cells[..i], accs)
    requires Accumulated(d, cells[..i], Id(d, cells[i]), acc)
    ensures AllAccumulated(d, cells[..i + 1], accs[Id(d, cells[i]) := acc.(amounts := Add(acc.amounts, cells[i].amounts))])
  {
    var key := Id(d, cells[i]);
    AccumulatedStep(d, cells, i, key, acc);
    forall k | k in accs && k != key
      ensures Accumulated(d, cells[..i + 1], k, accs[k])
    {
      AccumulatedStep(d, cells, i, k, accs[k]);
    }
  }

  lemma AccumulatorStep(d: Dimension, cells: seq<Record>, i: nat, order: seq<string>, accs: map<string, Record>)
    requires i < |cells| && d != ByCell && Accumulators(d, cells[..i], order, accs)
    ensures var key := Id(d, cells[i]);
      var acc := if key in accs then accs[key] else FreshGroup(d, key);
      Accumulators(d, cells[..i + 1], if key in accs then order else order + [key],
                   accs[key := acc.(amounts := Add(acc.amounts, cells[i].amounts))])
  {
    var key := Id(d, cells[i]);
    var acc := if key in accs then accs[key] else FreshGroup(d, key);
    GroupStep(d, cells, i, order);
    SameKeysStep(order, accs, key, acc.(amounts := Add(acc.amounts, cells[i].amounts)));
    assert Accumulated(d, cells[..i], key, acc) by {
      if key !in accs {
        AbsentGroup(d, cells[..i], key);
      }
    }
    AllAccumulatedStep(d, cells, i, accs, acc);
  }

  lemma SumAt(cells: seq<Record>, i: nat, p: Record -> bool)
    requires i < |cells|
    ensures SumWhere(cells[..i + 1], p)
         == if p(cells[i]) then Add(SumWhere(cells[..i], p), cells[i].amounts) else SumWhere(cells[..i], p)
  {
    assert cells[..i + 1][..i] == cells[..i];
  }

  lemma GroupStep(d: Dimension, cells: seq<Record>, i: nat, order: seq<string>)
    requires i < |cells| && order == FirstOccurrences(Ids(d, cells[..i]))
    ensures FirstOccurrences(Ids(d, cells[..i + 1])) == if Id(d, cells[i]) in order then order else order + [Id(d, cells[i])]
    ensures Id(d, cells[i]) in order <==> Id(d, cells[i]) in Ids(d, cells[..i])
  {
    var ids := Ids(d, cells[..i + 1]);
    assert ids[..i] == Ids(d, cells[..i]) && ids[i] == Id(d, cells[i]);
  }

  ghost predicate KeysMatch(order: seq<string>, ledger: map<string, Record>) {
    && (forall i | 0 <= i < |order| :: order[i] in ledger)
    && (forall k | k in ledger :: k in order && Id(ByCell, ledger[k]) == k)
  }

  function Cells(order: seq<string>, ledger: map<string, Record>): (cells: seq<Record>)
    requires forall i | 0 <= i < |order| :: order[i] in ledger
    ensures |cells| == |order| && forall i | 0 <= i < |cells| :: cells[i] == ledger[order[i]]
  {
    seq(|order|, i requires 0 <= i < |order| && order[i] in ledger => ledger[order[i]])
  }

  /** A known key: its record grows in place. */
  lemma CellGrows(order: seq<string>, ledger: map<string, Record>, posted: Record, key: string)
    requires KeysMatch(order, ledger) && key == Id(ByCell, posted) && key in ledger
    ensures var after := ledger[key := ledger[key].(amounts := Add(ledger[key].amounts, posted.amounts))];
      KeysMatch(order, after) && CellPosted(Cells(order, ledger), posted, Cells(order, after))
  {
    assert Ids(ByCell, Cells(order, ledger)) == order;
  }

  /** A new key: a record that starts from zero is appended. */
  lemma CellAppears(order: seq<string>, ledger: map<string, Record>, posted: Record, key: string)
    requires KeysMatch(order, ledger) && key == Id(ByCell, posted) && key !in ledger
    ensures var after := ledger[key := Record(posted.correlationId, posted.agentId, Add(ZERO, posted.amounts))];
      KeysMatch(order + [key], after) && CellPosted(Cells(order, ledger), posted, Cells(order + [key], after))
  {
    var after := ledger[key := Record(posted.correlationId, posted.agentId, Add(ZERO, posted.amounts))];
    assert Ids(ByCell, Cells(order, ledger)) == order;
    assert key !in order;
    assert (order + [key])[|order|] == key;
    forall k | k in after
      ensures k in order + [key]
    {
    }
    assert Cells(order + [key], after) == Cells(order, ledger) + [after[key]];
  }

  /** The cells after one more call: its own cell grew, or was appended. */
  ghost predicate CellPosted(before: seq<Record>, posted: Record, after: seq<Record>) {
    var key := Id(ByCell, posted);
    if key in Ids(ByCell, before) then
      && |after| == |before|
      && forall k | 0 <= k < |before| ::
           after[k] == if Id(ByCell, before[k]) == key then before[k].(amounts := Add(before[k].amounts, posted.amounts))
                       else before[k]
    else after == before + [Record(posted.correlationId, posted.agentId, Add(ZERO, posted.amounts))]
  }

  lemma {:induction false} AbsentGroup(d: Dimension, records: seq<Record>, id: string)
    requires id !in Ids(d, records)
    ensures SumWhere(records, InGroup(d, id)) == ZERO
  {
    if records != [] {
      var m := |records| - 1;
      assert Ids(d, records)[m] == Id(d, records[m]);
      assert forall k | 0 <= k < m :: Ids(d, records[..m])[k] == Ids(d, records)[k];
      AbsentGroup(d, records[..m], id);
    }
  }

  lemma UsageIsPosted(order: seq<string>, ledger: map<string, Record>, finished: seq<Record>, posted: Record,
                      orderAfter: seq<string>, ledgerAfter: map<string, Record>)
    requires KeysMatch(order, ledger) && IsLedgerOf(finished, Cells(order, ledger))
    requires UsageAdded(order, ledger, posted, Id(ByCell, posted), orderAfter, ledgerAfter)
    ensures KeysMatch(orderAfter, ledgerAfter) && IsLedgerOf(finished + [posted], Cells(orderAfter, ledgerAfter))
  {
    if Id(ByCell, posted) in ledger {
      CellGrows(order, ledger, posted, Id(ByCell, posted));
    } else {
      CellAppears(order, ledger, posted, Id(ByCell, posted));
    }
    LedgerStep(finished, Cells(order, ledger), posted, Cells(orderAfter, ledgerAfter));
  }

  lemma LedgerStep(finished: seq<Record>, before: seq<Record>, posted: Record, after: seq<Record>)
    requires IsLedgerOf(finished, before) && CellPosted(before, posted, after)
    ensures IsLedgerOf(finished + [posted], after)
  {
    IdsOfLedger(finished, before, posted, after);
    AmountsOfCells(finished, before, posted, after);
    CellsFromCalls(finished, before, posted, after);
  }

  lemma IdsOfLedger(finished: seq<Record>, before: seq<Record>, posted: Record, after: seq<Record>)
    requires Ids(ByCell, before) == FirstOccurrences(Ids(ByCell, finished)) && CellPosted(before, posted, after)
    ensures Ids(ByCell, after) == FirstOccurrences(Ids(ByCell, finished + [posted]))
  {
    var ids, key := Ids(ByCell, before), Id(ByCell, posted);
    assert FirstOccurrences(Ids(ByCell, finished + [posted])) == if key in ids then ids else ids + [key] by {
      var all, n := finished + [posted], |finished|;
      assert all[..n] == finished && all[..n + 1] == all && all[n] == posted;
      GroupStep(ByCell, all, n, ids);
    }
    IdsOfCells(before, posted, after);
  }

  lemma IdsOfCells(before: seq<Record>, posted: Record, after: seq<Record>)
    requires CellPosted(before, posted, after)
    ensures var ids, key := Ids(ByCell, before), Id(ByCell, posted);
      Ids(ByCell, after) == if key in ids then ids else ids + [key]
  {
  }

  lemma {:induction false} AmountsOfCells(finished: seq<Record>, before: seq<Record>, posted: Record,
                                          after: seq<Record>)
    requires IsLedgerOf(finished, before) && CellPosted(before, posted, after)
    ensures forall k | 0 <= k < |after| ::
      after[k].amounts == SumWhere(finished + [posted], InGroup(ByCell, Id(ByCell, after[k])))
  {
    forall k | 0 <= k < |after|
      ensures after[k].amounts == SumWhere(finished + [posted], InGroup(ByCell, Id(ByCell, after[k])))
    {
      if k < |before| {
        assert Id(ByCell, after[k]) == Id(ByCell, before[k]);
        assert before[k].amounts == SumWhere(finished, InGroup(ByCell, Id(ByCell, before[k])));
        SumSnoc(finished, posted, InGroup(ByCell, Id(ByCell, before[k])));
      } else {
        AbsentGroup(ByCell, finished, Id(ByCell, posted));
        SumSnoc(finished, posted, InGroup(ByCell, Id(ByCell, posted)));
      }
    }
  }

  lemma CellsFromCalls(finished: seq<Record>, before: seq<Record>, posted: Record, after: seq<Record>)
    requires IsLedgerOf(finished, before) && CellPosted(before, posted, after)
    ensures forall k | 0 <= k < |after| :: FirstOfItsKey(after[k], finished + [posted])
  {
    var all := finished + [posted];
    forall k | 0 <= k < |after|
      ensures FirstOfItsKey(after[k], all)
    {
      if k < |before| {
        assert FirstOfItsKey(before[k], finished);
        var i: nat :| IsFirst(before[k], finished, i);
        assert IsFirst(after[k], all, i);
      } else {
        NewKey(finished, before, posted);
        assert IsFirst(after[k], all, |finished|);
      }
    }
  }

  lemma NewKey(finished: seq<Record>, before: seq<Record>, posted: Record)
    requires IsLedgerOf(finished, before) && Id(ByCell, posted) !in Ids(ByCell, before)
    ensures forall j | 0 <= j < |finished| :: Id(ByCell, finished[j]) != Id(ByCell, posted)
  {
    forall j | 0 <= j < |finished|
      ensures Id(ByCell, finished[j]) != Id(ByCell, posted)
    {
      assert Id(ByCell, finished[j]) == Ids(ByCell, finished)[j];
    }
  }
}
