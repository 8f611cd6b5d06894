/**
 * The in-memory approval store (`InMemoryApprovalStore`, src/hitl/approval-channel.ts):
 * requests that wait for one human verdict, and are resolved, cancelled or timed out.
 */
module ApprovalStore {
  import opened Wrappers

  datatype Status = Pending | Resolved | Cancelled | TimedOut

  datatype Approval = Approval(approved: bool, rationale: Option<string>, approver: string, givenAt: string)

  datatype Entry = Entry(
    id: string, request: string, createdAt: int, expiresAt: int, status: Status, verdict: Option<Approval>)

  type Store = map<string, Entry>

  datatype Op =
    | Create(entry: Entry)
    | Resolve(id: string, verdict: Approval)
    | Cancel(id: string)
    | ExpireOverdue(now: int)

  // ---- One operation ----------------------------------------------------------------------

  predicate IsPending(s: Store, id: string) {
    id in s && s[id].status == Pending
  }

  function PendingIds(s: Store): set<string> {
    set id | id in s && s[id].status == Pending
  }

  function OverdueIds(s: Store, now: int): set<string> {
    set id | id in s && s[id].status == Pending && now > s[id].expiresAt
  }

  /** Whether a create, resolve or cancel takes effect. */
  predicate Succeeds(s: Store, op: Op) {
    match op
    case Create(entry) => entry.id !in s
    case Resolve(id, _) => IsPending(s, id)
    case Cancel(id) => IsPending(s, id)
    case ExpireOverdue(_) => true
  }

  /** Expiry of the overdue requests among `ids`. */
  function ExpireAmong(s: Store, ids: set<string>, now: int): Store {
    map id | id in s :: if id in ids && id in OverdueIds(s, now) then s[id].(status := TimedOut) else s[id]
  }

  function Expire(s: Store, now: int): Store {
    ExpireAmong(s, s.Keys, now)
  }

  function Apply(s: Store, op: Op): Store {
    if !Succeeds(s, op) then s
    else match op
      case Create(entry) => s[entry.id := entry]
      case Resolve(id, verdict) => s[id := s[id].(status := Resolved, verdict := Some(verdict))]
      case Cancel(id) => s[id := s[id].(status := Cancelled)]
      case ExpireOverdue(now) => Expire(s, now)
  }

  function Run(s: Store, ops: seq<Op>): Store {
    if ops == [] then s else Apply(Run(s, ops[..|ops| - 1]), ops[|ops| - 1])
  }

  // ---- One transition per request -----------------------------------------------------------

  /** How an entry may have moved: not at all, or out of pending with its request untouched. */
  predicate Moved(before: Entry, after: Entry) {
    || after == before
    || (before.status == Pending && after.status != Pending
        && after == before.(status := after.status, verdict := after.verdict)
        && (after.status != Resolved ==> after.verdict == before.verdict)
        && (after.status == Resolved ==> after.verdict.Some?))
  }

  lemma MovedOnce(s: Store, op: Op)
    ensures forall id | id in s :: id in Apply(s, op) && Moved(s[id], Apply(s, op)[id])
  {
  }

  /**
   * Over any run a request is never dropped, leaves pending at most once, and from then on
   * does not change at all.
   */
  lemma {:induction false} SettledIsFinal(s: Store, ops: seq<Op>)
    ensures forall id | id in s :: id in Run(s, ops) && Moved(s[id], Run(s, ops)[id])
    ensures forall id | id in s && s[id].status != Pending :: Run(s, ops)[id] == s[id]
  {
    if ops != [] {
      var m := |ops| - 1;
      SettledIsFinal(s, ops[..m]);
      MovedOnce(Run(s, ops[..m]), ops[m]);
    }
  }

  /** How often an operation of the run changed the entry `id`. */
  function Changes(s: Store, ops: seq<Op>, id: string): nat
    requires id in s
  {
    if ops == [] then 0
    else
      var before := Run(s, ops[..|ops| - 1]);
      Changes(s, ops[..|ops| - 1], id)
      + (if id in before && id in Apply(before, ops[|ops| - 1]) && Apply(before, ops[|ops| - 1])[id] == before[id]
         then 0 else 1)
  }

  lemma {:induction false} AtMostOneChange(s: Store, ops: seq<Op>, id: string)
    requires id in s
    ensures id in Run(s, ops)
    ensures Changes(s, ops, id) == if s[id].status == Pending && Run(s, ops)[id].status != Pending then 1 else 0
  {
    if ops != [] {
      var m := |ops| - 1;
      AtMostOneChange(s, ops[..m], id);
      SettledIsFinal(s, ops[..m]);
      MovedOnce(Run(s, ops[..m]), ops[m]);
    }
  }

  /** First writer wins: of two settling operations on one request the second always fails. */
  lemma {:induction false} FirstWriterWins(s: Store, first: Op, between: seq<Op>, second: Op, id: string)
    requires first == Cancel(id) || (first.Resolve? && first.id == id)
    requires second == Cancel(id) || (second.Resolve? && second.id == id)
    requires Succeeds(s, first)
    ensures var later := Run(Apply(s, first), between);
      !Succeeds(later, second) && id in later && later[id] == Apply(s, first)[id]
  {
    SettledIsFinal(Apply(s, first), between);
  }

  // ---- Verdicts ----------------------------------------------------------------------------

  /** A verdict is present exactly when the request was resolved. */
  predicate VerdictFits(e: Entry) {
    e.verdict.Some? <==> e.status == Resolved
  }

  ghost predicate AllFit(s: Store) {
    forall id | id in s :: VerdictFits(s[id])
  }

  /** At every moment of the run. */
  ghost predicate FitThroughout(ops: seq<Op>) {
    AllFit(Run(map[], ops)) && (ops != [] ==> FitThroughout(ops[..|ops| - 1]))
  }

  /** Every entry that was accepted had a verdict exactly if it was resolved. */
  ghost predicate CreatesFit(ops: seq<Op>) {
    ops != [] ==>
      var front, op := ops[..|ops| - 1], ops[|ops| - 1];
      CreatesFit(front) && (op.Create? && Succeeds(Run(map[], front), op) ==> VerdictFits(op.entry))
  }

  lemma FitStep(s: Store, op: Op)
    requires AllFit(s)
    ensures AllFit(Apply(s, op)) <==> (op.Create? && Succeeds(s, op) ==> VerdictFits(op.entry))
  {
    if op.Create? && Succeeds(s, op) {
      assert op.entry.id in Apply(s, op);
    }
  }

  /**
   * The store does not check what it is given, so verdicts and statuses agree at every moment
   * of a run exactly when every entry that was accepted already agreed.
   */
  lemma {:induction false} VerdictsFitExactly(ops: seq<Op>)
    ensures FitThroughout(ops) <==> CreatesFit(ops)
  {
    if ops != [] {
      var m := |ops| - 1;
      VerdictsFitExactly(ops[..m]);
      if AllFit(Run(map[], ops[..m])) {
        FitStep(Run(map[], ops[..m]), ops[m]);
      }
    }
  }

  /** An entry may arrive resolved without a verdict, and then stays so. */
  lemma {:induction false} UncheckedEntryStays(entry: Entry, ops: seq<Op>)
    requires entry.status == Resolved && entry.verdict == None
    ensures entry.id in Run(map[entry.id := entry], ops)
    ensures !VerdictFits(Run(map[entry.id := entry], ops)[entry.id])
  {
    SettledIsFinal(map[entry.id := entry], ops);
  }

  // ---- Conservation --------------------------------------------------------------------------

  /** Entries created pending, successful resolves and cancels, and the expiry counts added up. */
  datatype Tally = Tally(created: nat, resolved: nat, cancelled: nat, expired: nat)

  function Count(s: Store, op: Op, t: Tally): Tally {
    if !Succeeds(s, op) then t
    else match op
      case Create(entry) => if entry.status == Pending then t.(created := t.created + 1) else t
      case Resolve(_, _) => t.(resolved := t.resolved + 1)
      case Cancel(_) => t.(cancelled := t.cancelled + 1)
      case ExpireOverdue(now) => t.(expired := t.expired + |OverdueIds(s, now)|)
  }

  function TallyOf(ops: seq<Op>): Tally {
    if ops == [] then Tally(0, 0, 0, 0)
    else Count(Run(map[], ops[..|ops| - 1]), ops[|ops| - 1], TallyOf(ops[..|ops| - 1]))
  }

  lemma PendingAfterSettling(s: Store, id: string, e: Entry)
    requires IsPending(s, id) && e.status != Pending
    ensures |PendingIds(s)| == |PendingIds(s[id := e])| + 1
  {
    assert id in PendingIds(s);
    assert PendingIds(s[id := e]) == PendingIds(s) - {id};
  }

  lemma PendingAfterCreating(s: Store, e: Entry)
    requires e.id !in s
    ensures |PendingIds(s[e.id := e])| == |PendingIds(s)| + (if e.status == Pending then 1 else 0)
  {
    assert e.id !in PendingIds(s);
    assert PendingIds(s[e.id := e]) == if e.status == Pending then PendingIds(s) + {e.id} else PendingIds(s);
  }

  lemma PendingAfterExpiring(s: Store, now: int)
    ensures |PendingIds(s)| == |PendingIds(Expire(s, now))| + |OverdueIds(s, now)|
  {
    assert PendingIds(Expire(s, now)) == PendingIds(s) - OverdueIds(s, now);
    assert OverdueIds(s, now) <= PendingIds(s);
    assert PendingIds(s) == PendingIds(Expire(s, now)) + OverdueIds(s, now);
  }

  lemma PendingStep(s: Store, op: Op, t: Tally)
    requires t.created == |PendingIds(s)| + t.resolved + t.cancelled + t.expired
    ensures var u := Count(s, op, t);
      u.created == |PendingIds(Apply(s, op))| + u.resolved + u.cancelled + u.expired
  {
    if Succeeds(s, op) {
      match op
      case Create(entry) =>
        PendingAfterCreating(s, entry);
      case Resolve(id, verdict) =>
        PendingAfterSettling(s, id, s[id].(status := Resolved, verdict := Some(verdict)));
      case Cancel(id) =>
        PendingAfterSettling(s, id, s[id].(status := Cancelled));
      case ExpireOverdue(now) =>
        PendingAfterExpiring(s, now);
    }
  }

  /** Every request created pending is still pending or was settled exactly once. */
  lemma {:induction false} RequestsAreConserved(ops: seq<Op>)
    ensures var t := TallyOf(ops);
      t.created == |PendingIds(Run(map[], ops))| + t.resolved + t.cancelled + t.expired
  {
    if ops != [] {
      var m := |ops| - 1;
      RequestsAreConserved(ops[..m]);
      PendingStep(Run(map[], ops[..m]), ops[m], TallyOf(ops[..m]));
    } else {
      assert PendingIds(map[]) == {};
    }
  }

  function WithStatus(s: Store, status: Status): set<string> {
    set id | id in s && s[id].status == status
  }

  function CreatedAs(ops: seq<Op>, status: Status): nat {
    if ops == [] then 0
    else
      var front, op := ops[..|ops| - 1], ops[|ops| - 1];
      CreatedAs(front, status)
      + if op.Create? && Succeeds(Run(map[], front), op) && op.entry.status == status then 1 else 0
  }

  /** How many requests the operations of a run moved to the status. */
  function MovedTo(t: Tally, status: Status): nat {
    match status
    case Pending => 0
    case Resolved => t.resolved
    case Cancelled => t.cancelled
    case TimedOut => t.expired
  }

  lemma StatusAfterWriting(s: Store, id: string, e: Entry, status: Status)
    requires id in s ==> s[id].status != status
    ensures |WithStatus(s[id := e], status)| == |WithStatus(s, status)| + if e.status == status then 1 else 0
  {
    assert id !in WithStatus(s, status);
    assert WithStatus(s[id := e], status)
      == if e.status == status then WithStatus(s, status) + {id} else WithStatus(s, status);
  }

  lemma ExpiredIds(s: Store, now: int, status: Status)
    requires status != Pending
    ensures WithStatus(Expire(s, now), status)
      == WithStatus(s, status) + if status == TimedOut then OverdueIds(s, now) else {}
  {
    var t := Expire(s, now);
    assert t.Keys == s.Keys;
    forall id | id in s
      ensures t[id].status == if id in OverdueIds(s, now) then TimedOut else s[id].status
    {
    }
  }

  lemma StatusAfterExpiring(s: Store, now: int, status: Status)
    requires status != Pending
    ensures |WithStatus(Expire(s, now), status)|
      == |WithStatus(s, status)| + if status == TimedOut then |OverdueIds(s, now)| else 0
  {
    ExpiredIds(s, now, status);
    assert WithStatus(s, status) !! OverdueIds(s, now);
  }

  /** A settled status counts the requests that arrived in it and those its own operation moved there. */
  lemma {:induction false} StatusesAreCounted(ops: seq<Op>, status: Status)
    requires status != Pending
    ensures |WithStatus(Run(map[], ops), status)| == CreatedAs(ops, status) + MovedTo(TallyOf(ops), status)
  {
    if ops != [] {
      var m := |ops| - 1;
      var s, op := Run(map[], ops[..m]), ops[m];
      StatusesAreCounted(ops[..m], status);
      if Succeeds(s, op) {
        match op
        case Create(entry) =>
          StatusAfterWriting(s, entry.id, entry, status);
        case Resolve(id, verdict) =>
          StatusAfterWriting(s, id, s[id].(status := Resolved, verdict := Some(verdict)), status);
        case Cancel(id) =>
          StatusAfterWriting(s, id, s[id].(status := Cancelled), status);
        case ExpireOverdue(now) =>
          StatusAfterExpiring(s, now, status);
      }
    } else {
      assert WithStatus(map[], status) == {};
    }
  }

  /** After an expiry sweep no request is both pending and overdue, and a second sweep finds none. */
  lemma SweepIsComplete(s: Store, now: int, earlier: int)
    requires earlier <= now
    ensures OverdueIds(Expire(s, now), earlier) == {}
    ensures Expire(Expire(s, now), earlier) == Expire(s, now)
  {
    assert OverdueIds(Expire(s, now), earlier) == {};
  }

  // ---- The class ---------------------------------------------------------------------------------

  class InMemoryApprovalStore {
    var entries: Store

    constructor ()
      ensures entries == map[]
    {
      entries := map[];
    }

    /** None is the duplicate-id error. */
    method Create(entry: Entry) returns (r: Option<()>)
      modifies this
      ensures entries == Apply(old(entries), Op.Create(entry))
      ensures r == None <==> entry.id in old(entries)
    {
      if entry.id in entries {
        return None;
      }
      entries := entries[entry.id := entry];
      return Some(());
    }

    method Resolve(id: string, verdict: Approval) returns (ok: bool)
      modifies this
      ensures entries == Apply(old(entries), Op.Resolve(id, verdict))
      ensures ok <==> old(IsPending(entries, id))
      ensures ok ==> entries[id].status == Resolved && entries[id].verdict == Some(verdict)
    {
      if id !in entries || entries[id].status != Pending {
        return false;
      }
      entries := entries[id := entries[id].(status := Resolved, verdict := Some(verdict))];
      return true;
    }

    method Cancel(id: string) returns (ok: bool)
      modifies this
      ensures entries == Apply(old(entries), Op.Cancel(id))
      ensures ok <==> old(IsPending(entries, id))
      ensures ok ==> entries == old(entries)[id := old(entries)[id].(status := Cancelled)]
    {
      if id !in entries || entries[id].status != Pending {
        return false;
      }
      entries := entries[id := entries[id].(status := Cancelled)];
      return true;
    }

    /** Visits every entry once; the order makes no difference. */
    method ExpireOverdue(now: int) returns (n: nat)
      modifies this
      ensures entries == Apply(old(entries), Op.ExpireOverdue(now))
      ensures n == |OverdueIds(old(entries), now)|
      ensures entries.Keys == old(entries).Keys
      ensures forall id | id in entries ::
        var e := old(entries)[id];
        entries[id] == if e.status == Pending && now > e.expiresAt then e.(status := TimedOut) else e
    {
      n := 0;
      ghost var before := entries;
      var todo := entries.Keys;
      assert before.Keys - before.Keys == {} && OverdueIds(before, now) * {} == {};
      while todo != {}
        invariant Swept(before, todo, now, entries, n)
        decreases |todo|
      {
        var id :| id in todo;
        SweepOne(before, todo, now, entries, n, id);
        if entries[id].status == Pending && now > entries[id].expiresAt {
          entries := entries[id := entries[id].(status := TimedOut)];
          n := n + 1;
        }
        todo := todo - {id};
      }
      SweepEnds(before, now, entries, n);
    }
  }

  /** All but the requests still to do have been visited. */
  ghost predicate Swept(before: Store, todo: set<string>, now: int, entries: Store, n: nat) {
    && todo <= before.Keys
    && entries == ExpireAmong(before, before.Keys - todo, now)
    && n == |OverdueIds(before, now) * (before.Keys - todo)|
  }

  lemma SweepOne(before: Store, todo: set<string>, now: int, entries: Store, n: nat, id: string)
    requires Swept(before, todo, now, entries, n) && id in todo
    ensures id in entries && entries[id] == before[id]
    ensures if entries[id].status == Pending && now > entries[id].expiresAt
      then Swept(before, todo - {id}, now, entries[id := entries[id].(status := TimedOut)], n + 1)
      else Swept(before, todo - {id}, now, entries, n)
  {
    ExpireOneMore(before, before.Keys - todo, id, now);
    assert before.Keys - (todo - {id}) == before.Keys - todo + {id};
  }

  lemma SweepEnds(before: Store, now: int, entries: Store, n: nat)
    requires Swept(before, {}, now, entries, n)
    ensures entries == Expire(before, now) && n == |OverdueIds(before, now)|
  {
    assert before.Keys - {} == before.Keys;
    assert OverdueIds(before, now) * before.Keys == OverdueIds(before, now);
  }

  lemma ExpireOneMore(s: Store, ids: set<string>, id: string, now: int)
    requires id in s && id !in ids
    ensures var t := ExpireAmong(s, ids, now);
      && t[id] == s[id]
      && (id !in OverdueIds(s, now) ==>
        ExpireAmong(s, ids + {id}, now) == t && OverdueIds(s, now) * (ids + {id}) == OverdueIds(s, now) * ids)
      && (id in OverdueIds(s, now) ==>
        && ExpireAmong(s, ids + {id}, now) == t[id := s[id].(status := TimedOut)]
        && |OverdueIds(s, now) * (ids + {id})| == |OverdueIds(s, now) * ids| + 1)
  {
    if id in OverdueIds(s, now) {
      assert OverdueIds(s, now) * (ids + {id}) == OverdueIds(s, now) * ids + {id};
    } else {
      assert OverdueIds(s, now) * (ids + {id}) == OverdueIds(s, now) * ids;
    }
  }
}
