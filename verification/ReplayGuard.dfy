/**
 * Event verification with replay protection (`verifyEvent`, src/auth/verify-event.ts,
 * over `InMemoryNonceStore`, src/auth/nonce-store.ts). Signing and date parsing are
 * parameters; an unparsable date is NaN. A call reads the clock twice: for the skew check and,
 * a little later, in the nonce store.
 */
module ReplayGuard {
  import opened Wrappers

  const VALID_SOURCES := {"forge", "vauban", "vauban-finance", "brain", "citadel", "glacis", "cc", "tenant"}
  const DEFAULT_MAX_CLOCK_SKEW_MS := 5 * 60 * 1000
  const NONCE_TTL_MS := 10 * 60 * 1000

  datatype Unsigned = Unsigned(kind: string, source: string, timestamp: string, idempotencyKey: string, payload: string)

  datatype Event = Event(body: Unsigned, signature: string)

  datatype Verdict = Accepted | UnknownSource | InvalidSignature | ClockSkew(skewMs: int) | ReplayDetected

  datatype Config = Config(
    sign: Unsigned -> string,
    parseDate: string -> Option<int>,
    maxClockSkewMs: int,
    requireNonceStore: bool)

  // ---- The nonce store ------------------------------------------------------------------

  function Unexpired(store: map<string, int>, now: int): map<string, int> {
    map k | k in store && store[k] > now :: store[k]
  }

  /** The store and the answer after one `setNX`. */
  function Claim(store: map<string, int>, key: string, ttlMs: int, now: int): (map<string, int>, bool) {
    var live := Unexpired(store, now);
    if key in live then (live, false) else (live[key := now + ttlMs], true)
  }

  class InMemoryNonceStore {
    var store: map<string, int>

    constructor ()
      ensures store == map[]
    {
      store := map[];
    }

    method SetNX(key: string, ttlMs: int, now: int) returns (isNew: bool)
      modifies this
      ensures (store, isNew) == Claim(old(store), key, ttlMs, now)
    {
      var keys := store.Keys;
      while keys != {}
        invariant keys <= store.Keys <= old(store).Keys
        invariant forall k | k in store :: store[k] == old(store)[k]
        invariant forall k | k in old(store) && k !in keys :: k in store <==> old(store)[k] > now
        decreases keys
      {
        var k :| k in keys;
        if store[k] <= now {
          store := store - {k};
        }
        keys := keys - {k};
      }
      assert store == Unexpired(old(store), now);
      if key in store {
        return false;
      }
      store := store[key := now + ttlMs];
      return true;
    }
  }

  // ---- Verification ------------------------------------------------------------------------

  function Abs(x: int): int {
    if x < 0 then -x else x
  }

  /** The checks that come before the nonce, in the source's order; None when they all pass. */
  function Screen(cfg: Config, event: Event, now: int): Option<Verdict> {
    if event.body.source !in VALID_SOURCES then Some(UnknownSource)
    else if cfg.sign(event.body) != event.signature then Some(InvalidSignature)
    else
      match cfg.parseDate(event.body.timestamp)
      case None => None // NaN > maxClockSkewMs is false
      case Some(time) => if Abs(now - time) > cfg.maxClockSkewMs then Some(ClockSkew(Abs(now - time))) else None
  }

  /** From a known source, and signed by the holder of the secret. */
  predicate Genuine(cfg: Config, event: Event) {
    event.body.source in VALID_SOURCES && cfg.sign(event.body) == event.signature
  }

  /** Neither too old nor too far ahead; a date that does not parse passes. */
  predicate Timely(cfg: Config, event: Event, now: int) {
    match cfg.parseDate(event.body.timestamp)
    case None => true
    case Some(time) => -cfg.maxClockSkewMs <= now - time <= cfg.maxClockSkewMs
  }

  type Store = Option<map<string, int>>

  /** The nonce store, if the caller supplied one, and the verdict after one call. */
  function Verify(cfg: Config, store: Store, event: Event, now: int, claimAt: int): (Store, Verdict) {
    match Screen(cfg, event, now)
    case Some(v) => (store, v)
    case None =>
      match store
      case None => (None, if cfg.requireNonceStore then ReplayDetected else Accepted)
      case Some(claims) =>
        var (after, isNew) := Claim(claims, event.body.idempotencyKey, NONCE_TTL_MS, claimAt);
        (Some(after), if isNew then Accepted else ReplayDetected)
  }

  /** Rejections on source, signature or skew leave the store alone. */
  method VerifyEvent(cfg: Config, event: Event, nonceStore: InMemoryNonceStore?, now: int, claimAt: int)
    returns (v: Verdict)
    modifies nonceStore
    ensures nonceStore != null ==>
      (Some(nonceStore.store), v) == Verify(cfg, Some(old(nonceStore.store)), event, now, claimAt)
    ensures nonceStore == null ==> v == Verify(cfg, None, event, now, claimAt).1
    ensures v == UnknownSource <==> event.body.source !in VALID_SOURCES
    ensures v == InvalidSignature <==> event.body.source in VALID_SOURCES && cfg.sign(event.body) != event.signature
    ensures v.ClockSkew? <==> Genuine(cfg, event) && !Timely(cfg, event, now)
    ensures nonceStore != null && (v == UnknownSource || v == InvalidSignature || v.ClockSkew?) ==>
      nonceStore.store == old(nonceStore.store)
  {
    if event.body.source !in VALID_SOURCES {
      return UnknownSource;
    }
    var expected := cfg.sign(event.body);
    if expected != event.signature {
      return InvalidSignature;
    }
    var eventTime := cfg.parseDate(event.body.timestamp);
    if eventTime.Some? {
      var skewMs := Abs(now - eventTime.value);
      if skewMs > cfg.maxClockSkewMs {
        return ClockSkew(skewMs);
      }
    }
    if nonceStore != null {
      var isNew := nonceStore.SetNX(event.body.idempotencyKey, NONCE_TTL_MS, claimAt);
      if !isNew {
        return ReplayDetected;
      }
    } else if cfg.requireNonceStore {
      return ReplayDetected;
    }
    return Accepted;
  }

  // ---- Whole runs ------------------------------------------------------------------------------

  datatype Call = Call(event: Event, now: int, claimAt: int)

  /** The clock never goes back, within a call or between calls. */
  ghost predicate Monotone(calls: seq<Call>) {
    && (forall i | 0 <= i < |calls| :: calls[i].now <= calls[i].claimAt)
    && (forall i, j | 0 <= i < j < |calls| :: calls[i].claimAt <= calls[j].now)
  }

  /** No call takes longer than `maxDelay` from its first clock reading to its second. */
  ghost predicate Prompt(calls: seq<Call>, maxDelay: nat) {
    forall i | 0 <= i < |calls| :: calls[i].claimAt - calls[i].now <= maxDelay
  }

  function StoreAfter(cfg: Config, withStore: bool, calls: seq<Call>): (store: Store)
    ensures store.Some? <==> withStore
  {
    if calls == [] then if withStore then Some(map[]) else None
    else
      var last := calls[|calls| - 1];
      Verify(cfg, StoreAfter(cfg, withStore, calls[..|calls| - 1]), last.event, last.now, last.claimAt).0
  }

  function VerdictOf(cfg: Config, withStore: bool, calls: seq<Call>, i: nat): Verdict
    requires i < |calls|
  {
    Verify(cfg, StoreAfter(cfg, withStore, calls[..i]), calls[i].event, calls[i].now, calls[i].claimAt).1
  }

  function KeyAt(calls: seq<Call>, i: nat): string
    requires i < |calls|
  {
    calls[i].event.body.idempotencyKey
  }

  /** An accepted key is still claimed, for at least its TTL, unless that TTL has run out. */
  lemma {:induction false} AcceptedIsClaimed(cfg: Config, calls: seq<Call>, i: nat)
    requires Monotone(calls) && i < |calls| && VerdictOf(cfg, true, calls, i) == Accepted
    ensures var store := StoreAfter(cfg, true, calls).value;
      || (KeyAt(calls, i) in store && store[KeyAt(calls, i)] >= calls[i].claimAt + NONCE_TTL_MS)
      || calls[i].claimAt + NONCE_TTL_MS <= calls[|calls| - 1].claimAt
  {
    var m := |calls| - 1;
    if i < m {
      assert calls[..m][..i] == calls[..i];
      AcceptedIsClaimed(cfg, calls[..m], i);
      assert calls[m - 1].claimAt <= calls[m].now <= calls[m].claimAt;
    } else {
      assert calls[..m] == calls[..i];
    }
  }

  /** Conversely, every claim in the store was made by an acceptance. */
  lemma {:induction false} ClaimedWasAccepted(cfg: Config, calls: seq<Call>, key: string) returns (i: nat)
    requires key in StoreAfter(cfg, true, calls).value
    ensures i < |calls| && KeyAt(calls, i) == key && VerdictOf(cfg, true, calls, i) == Accepted
    ensures StoreAfter(cfg, true, calls).value[key] == calls[i].claimAt + NONCE_TTL_MS
  {
    var m := |calls| - 1;
    if VerdictOf(cfg, true, calls, m) == Accepted && KeyAt(calls, m) == key {
      i := m;
    } else {
      i := ClaimedWasAccepted(cfg, calls[..m], key);
      assert calls[..m][..i] == calls[..i];
    }
  }

  /**
   * In any run, with a nonce store or without: when a call is turned away before the nonce, and
   * that nothing else is accepted than genuine and timely events.
   */
  lemma VerdictExactly(cfg: Config, withStore: bool, calls: seq<Call>, i: nat)
    requires i < |calls|
    ensures var event, now, v := calls[i].event, calls[i].now, VerdictOf(cfg, withStore, calls, i);
      && (v == UnknownSource <==> event.body.source !in VALID_SOURCES)
      && (v == InvalidSignature <==> event.body.source in VALID_SOURCES && cfg.sign(event.body) != event.signature)
      && (v.ClockSkew? <==> Genuine(cfg, event) && !Timely(cfg, event, now))
      && (v.ClockSkew? ==>
        var time := cfg.parseDate(event.body.timestamp).value; v.skewMs == now - time || v.skewMs == time - now)
      && (v == Accepted ==> Genuine(cfg, event) && Timely(cfg, event, now))
      && (!withStore ==> (v == Accepted <==> Genuine(cfg, event) && Timely(cfg, event, now) && !cfg.requireNonceStore))
  {
  }

  /**
   * With a nonce store an event is accepted exactly when it is genuine and timely and no
   * acceptance of its key is younger than the TTL.
   */
  lemma AcceptedExactly(cfg: Config, calls: seq<Call>, i: nat)
    requires Monotone(calls) && i < |calls|
    ensures VerdictOf(cfg, true, calls, i) == Accepted
       <==>
         && Genuine(cfg, calls[i].event) && Timely(cfg, calls[i].event, calls[i].now)
         && forall j | 0 <= j < i && KeyAt(calls, j) == KeyAt(calls, i) && VerdictOf(cfg, true, calls, j) == Accepted ::
              calls[i].claimAt - calls[j].claimAt >= NONCE_TTL_MS
  {
    VerdictExactly(cfg, true, calls, i);
    if VerdictOf(cfg, true, calls, i) == Accepted {
      forall j | 0 <= j < i && KeyAt(calls, j) == KeyAt(calls, i) && VerdictOf(cfg, true, calls, j) == Accepted
        ensures calls[i].claimAt - calls[j].claimAt >= NONCE_TTL_MS
      {
        AcceptancesAreSpaced(cfg, calls, j, i);
      }
    } else if Genuine(cfg, calls[i].event) && Timely(cfg, calls[i].event, calls[i].now) {
      var j := ClaimedWasAccepted(cfg, calls[..i], KeyAt(calls, i));
      assert calls[..i][..j] == calls[..j];
    }
  }

  /** Two acceptances of one key claim it at least a TTL apart. */
  lemma AcceptancesAreSpaced(cfg: Config, calls: seq<Call>, i: nat, j: nat)
    requires Monotone(calls) && i < j < |calls| && KeyAt(calls, i) == KeyAt(calls, j)
    requires VerdictOf(cfg, true, calls, i) == Accepted && VerdictOf(cfg, true, calls, j) == Accepted
    ensures calls[j].claimAt - calls[i].claimAt >= NONCE_TTL_MS
  {
    assert calls[..j][..i] == calls[..i];
    AcceptedIsClaimed(cfg, calls[..j], i);
    assert calls[..j][|calls[..j]| - 1] == calls[j - 1];
    assert calls[j - 1].claimAt <= calls[j].now <= calls[j].claimAt;
  }

  /**
   * With one fixed, parsable timestamp the skew window closes before the TTL runs out: two
   * acceptances need twice the skew, plus the second call's delay between its clock readings,
   * to reach the TTL. At equality they can only be at the two ends of the window.
   */
  lemma SameStampAcceptances(cfg: Config, calls: seq<Call>, i: nat, j: nat, time: int)
    requires Monotone(calls) && i < j < |calls| && KeyAt(calls, i) == KeyAt(calls, j)
    requires cfg.parseDate(calls[i].event.body.timestamp) == Some(time)
    requires calls[i].event.body.timestamp == calls[j].event.body.timestamp
    requires VerdictOf(cfg, true, calls, i) == Accepted && VerdictOf(cfg, true, calls, j) == Accepted
    ensures 2 * cfg.maxClockSkewMs + (calls[j].claimAt - calls[j].now) >= NONCE_TTL_MS
    ensures 2 * cfg.maxClockSkewMs + (calls[j].claimAt - calls[j].now) == NONCE_TTL_MS ==>
      && calls[i].now == calls[i].claimAt == time - cfg.maxClockSkewMs
      && calls[j].now == time + cfg.maxClockSkewMs
  {
    AcceptancesAreSpaced(cfg, calls, i, j);
  }

  ghost predicate AcceptedTwice(cfg: Config, withStore: bool, maxDelay: nat, event: Event, calls: seq<Call>) {
    && Monotone(calls) && Prompt(calls, maxDelay)
    && exists i, j | 0 <= i < j < |calls| ::
         && calls[i].event == event && VerdictOf(cfg, withStore, calls, i) == Accepted
         && calls[j].event == event && VerdictOf(cfg, withStore, calls, j) == Accepted
  }

  /** Two calls that pass the checks are both accepted if they claim a TTL apart, or if nothing is claimed. */
  lemma TwoInstants(cfg: Config, withStore: bool, event: Event, first: Call, second: Call, maxDelay: nat)
    requires first.event == second.event == event
    requires first.now <= first.claimAt <= second.now <= second.claimAt && Prompt([first, second], maxDelay)
    requires Screen(cfg, event, first.now) == None && Screen(cfg, event, second.now) == None
    requires if withStore then second.claimAt >= first.claimAt + NONCE_TTL_MS else !cfg.requireNonceStore
    ensures AcceptedTwice(cfg, withStore, maxDelay, event, [first, second])
  {
    var calls := [first, second];
    assert calls[..0] == [] && calls[..1] == [first] && calls[..1][..0] == [];
    assert VerdictOf(cfg, withStore, calls, 0) == Accepted;
    if withStore {
      assert StoreAfter(cfg, true, calls[..1])
        == Some(Claim(map[], event.body.idempotencyKey, NONCE_TTL_MS, first.claimAt).0);
    }
    assert VerdictOf(cfg, withStore, calls, 1) == Accepted;
  }

  /**
   * When a genuine event can be accepted twice. With a nonce
   * store: if its timestamp does not parse (then the skew test never rejects it), or if twice
   * the allowed skew, plus the longest delay within a call, reaches the TTL. Without one: if
   * the caller did not insist on a store and the skew test can be passed at all.
   */
  predicate ReplayPossible(cfg: Config, withStore: bool, maxDelay: nat, event: Event) {
    var unparsable := cfg.parseDate(event.body.timestamp) == None;
    if withStore then
      unparsable || (cfg.maxClockSkewMs >= 0 && 2 * cfg.maxClockSkewMs + maxDelay >= NONCE_TTL_MS)
    else
      !cfg.requireNonceStore && (unparsable || cfg.maxClockSkewMs >= 0)
  }

  /** Both defaults, no store and 2 * 300000 = 600000, are on the failing side. */
  lemma ReplayPossibleExactly(cfg: Config, withStore: bool, maxDelay: nat, event: Event)
    ensures (exists calls: seq<Call> :: AcceptedTwice(cfg, withStore, maxDelay, event, calls))
       <==> Genuine(cfg, event) && ReplayPossible(cfg, withStore, maxDelay, event)
  {
    if calls: seq<Call> :| AcceptedTwice(cfg, withStore, maxDelay, event, calls) {
      var i, j :| 0 <= i < j < |calls|
        && calls[i].event == event && VerdictOf(cfg, withStore, calls, i) == Accepted
        && calls[j].event == event && VerdictOf(cfg, withStore, calls, j) == Accepted;
      if withStore && cfg.parseDate(event.body.timestamp).Some? {
        SameStampAcceptances(cfg, calls, i, j, cfg.parseDate(event.body.timestamp).value);
      }
      VerdictExactly(cfg, withStore, calls, i);
      assert ReplayPossible(cfg, withStore, maxDelay, event);
    }
    if Genuine(cfg, event) && ReplayPossible(cfg, withStore, maxDelay, event) {
      var time, skew := 0, 0;
      if cfg.parseDate(event.body.timestamp).Some? {
        time, skew := cfg.parseDate(event.body.timestamp).value, cfg.maxClockSkewMs;
      }
      var first := Call(event, time - skew, time - skew);
      var second := Call(event, time + skew, time + skew + maxDelay);
      if cfg.parseDate(event.body.timestamp) == None {
        second := Call(event, NONCE_TTL_MS, NONCE_TTL_MS);
      }
      TwoInstants(cfg, withStore, event, first, second, maxDelay);
    }
  }

  /** A caller that leaves skew and store at their defaults can be replayed, and with a store too. */
  lemma DefaultsAllowReplay(cfg: Config, withStore: bool, event: Event)
    requires cfg.maxClockSkewMs == DEFAULT_MAX_CLOCK_SKEW_MS && !cfg.requireNonceStore && Genuine(cfg, event)
    ensures exists calls: seq<Call> :: AcceptedTwice(cfg, withStore, 0, event, calls)
  {
    ReplayPossibleExactly(cfg, withStore, 0, event);
  }
}
