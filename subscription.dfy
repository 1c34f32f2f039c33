/**
 * The free-tier scan quota: at most three scans per 24-hour window, counted in
 * two keys of the device's key-value store, and the scan decision that combines
 * the counter with the billing provider's Pro answer.
 *
 * Every clock reading is a parameter. `getScanUsage` reads the clock up to three
 * times; the model gives those readings one value, `now`. `canScan` and
 * `getTimeUntilReset` read the clock again after `getScanUsage` returns; that
 * second reading is `later`.
 */
module Subscription {

  const ScanCountKey := "@cryptoshield_scan_count"
  const ScanResetTimeKey := "@cryptoshield_scan_reset_time"
  const FreeScanLimit := 3
  const ResetIntervalMs := 24 * 60 * 60 * 1000

  /** The stored keys with their parsed values (the source stores decimal strings). */
  type Store = map<string, int>

  datatype ScanUsage = ScanUsage(count: int, resetTime: int)

  /** The answer `canScan` gives; `scansRemaining == -1` means unlimited. */
  datatype ScanDecision = ScanDecision(canScan: bool, scansRemaining: int, isPro: bool)

  /** What the billing provider says when asked for the customer's entitlements. */
  datatype BillingAnswer =
    | NoApiKey                              // the API key is not configured
    | Failed                                // the SDK call threw
    | Answered(activeEntitlements: set<string>)

  /** `isPro`: Pro exactly when the provider answered and lists "pro" as active; every failure is "not Pro". */
  function IsPro(billing: BillingAnswer): (r: bool)
    ensures r <==> billing.Answered? && "pro" in billing.activeEntitlements
    ensures billing.NoApiKey? || billing.Failed? ==> !r
  {
    match billing
    case NoApiKey => false
    case Failed => false
    case Answered(active) => "pro" in active
  }

  function Max(a: int, b: int): int { if a >= b then a else b }

  /** The only counts this code ever writes are non-negative. */
  predicate WellFormed(store: Store) {
    ScanCountKey in store ==> store[ScanCountKey] >= 0
  }

  /** The stored count; a missing key reads as 0. */
  function StoredCount(store: Store): int {
    if ScanCountKey in store then store[ScanCountKey] else 0
  }

  /** The usage `getScanUsage` reports at time `now`. */
  function Usage(store: Store, now: int): (u: ScanUsage)
    ensures u.resetTime > now
    ensures WellFormed(store) ==> u.count >= 0
    ensures ScanResetTimeKey !in store ==> u == ScanUsage(StoredCount(store), now + ResetIntervalMs)
    ensures ScanResetTimeKey in store && now >= store[ScanResetTimeKey] ==> u == ScanUsage(0, now + ResetIntervalMs)
    ensures ScanResetTimeKey in store && now < store[ScanResetTimeKey] ==> u == ScanUsage(StoredCount(store), store[ScanResetTimeKey])
  {
    var count := StoredCount(store);
    var resetTime := if ScanResetTimeKey in store then store[ScanResetTimeKey] else now + ResetIntervalMs;
    if now >= resetTime then ScanUsage(0, now + ResetIntervalMs) else ScanUsage(count, resetTime)
  }

  /** The store after `incrementScanCount` at time `now`. */
  function AfterIncrement(store: Store, now: int): (s: Store)
    ensures s.Keys == store.Keys + {ScanCountKey, ScanResetTimeKey}
    ensures s[ScanCountKey] == Usage(store, now).count + 1
    ensures ScanResetTimeKey in store ==> s[ScanResetTimeKey] == store[ScanResetTimeKey]
    ensures ScanResetTimeKey !in store ==> s[ScanResetTimeKey] == now + ResetIntervalMs
    ensures forall k :: k in store && k != ScanCountKey && k != ScanResetTimeKey ==> s[k] == store[k]
    ensures WellFormed(store) ==> WellFormed(s)
  {
    var usage := Usage(store, now);
    var written := store[ScanCountKey := usage.count + 1];
    if ScanResetTimeKey in written then written else written[ScanResetTimeKey := usage.resetTime]
  }

  /** The store after `resetScanCount` at time `now`. */
  function AfterReset(store: Store, now: int): (s: Store)
    ensures s.Keys == store.Keys + {ScanCountKey, ScanResetTimeKey}
    ensures s[ScanCountKey] == 0 && s[ScanResetTimeKey] == now + ResetIntervalMs
    ensures forall k :: k in store && k != ScanCountKey && k != ScanResetTimeKey ==> s[k] == store[k]
    ensures Usage(s, now) == ScanUsage(0, now + ResetIntervalMs)
  {
    store[ScanCountKey := 0][ScanResetTimeKey := now + ResetIntervalMs]
  }

  /**
   * `canScan`: the decision and the store afterwards. A Pro answer decides
   * alone and reads nothing; otherwise the remaining scans are the limit minus
   * the count, never below 0, and scanning is allowed exactly when some remain.
   */
  function Decide(store: Store, billing: BillingAnswer, now: int, later: int): (r: (ScanDecision, Store))
    ensures IsPro(billing) ==> r == (ScanDecision(true, -1, true), store)
    ensures !IsPro(billing) ==> !r.0.isPro && r.0.scansRemaining >= 0 && (r.0.canScan <==> r.0.scansRemaining > 0)
    ensures !IsPro(billing) && WellFormed(store) ==> r.0.scansRemaining <= FreeScanLimit
    ensures r.1 == store || r.1 == AfterReset(store, later)
  {
    if IsPro(billing) then (ScanDecision(true, -1, true), store)
    else
      var usage := Usage(store, now);
      if later >= usage.resetTime then (ScanDecision(true, FreeScanLimit - 1, false), AfterReset(store, later))
      else
        var remaining := Max(0, FreeScanLimit - usage.count);
        (ScanDecision(remaining > 0, remaining, false), store)
  }

  /**
   * The two answers for a free user at any second reading `later`: once the
   * window read at `now` has ended, a fresh window is written and two of the
   * three scans are reported left; before that the store is unchanged and the
   * limit minus the count remains.
   */
  lemma DecideBranches(store: Store, billing: BillingAnswer, now: int, later: int)
    requires !IsPro(billing)
    ensures later >= Usage(store, now).resetTime ==>
      Decide(store, billing, now, later) == (ScanDecision(true, FreeScanLimit - 1, false), AfterReset(store, later))
    ensures later < Usage(store, now).resetTime ==>
      Decide(store, billing, now, later).1 == store &&
      Decide(store, billing, now, later).0 == ScanDecision(Usage(store, now).count < FreeScanLimit, Max(0, FreeScanLimit - Usage(store, now).count), false)
  {
  }

  /** `getTimeUntilReset`: never negative. */
  function TimeUntilReset(store: Store, now: int, later: int): (ms: int)
    ensures ms >= 0
    ensures ms == Max(0, Usage(store, now).resetTime - later)
    ensures later == now ==> ms > 0
  {
    Max(0, Usage(store, now).resetTime - later)
  }

  /** Increments performed one after another at the given clock readings. */
  function IncrementAll(store: Store, times: seq<int>): Store
    decreases |times|
  {
    if |times| == 0 then store else IncrementAll(AfterIncrement(store, times[0]), times[1..])
  }

  /**
   * With a single clock reading the reset branch of `canScan` never runs: the
   * usage it reads always ends after `now`, so nothing is written and the
   * decision is the limit minus the count.
   */
  lemma SingleClockNeverResets(store: Store, billing: BillingAnswer, now: int)
    requires !IsPro(billing)
    ensures Decide(store, billing, now, now).1 == store
    ensures Decide(store, billing, now, now).0.scansRemaining == Max(0, FreeScanLimit - Usage(store, now).count)
  {
  }

  /**
   * Once the stored reset time has passed, increments keep it (they only write
   * one when none is stored), so every later read sees an expired window: the
   * reported count stays 0 and the stored count stays 1, however many scans run.
   */
  lemma {:induction false} StaleWindowNeverRefreshed(store: Store, times: seq<int>, later: int)
    requires ScanResetTimeKey in store
    requires forall k :: 0 <= k < |times| ==> times[k] >= store[ScanResetTimeKey]
    requires later >= store[ScanResetTimeKey]
    ensures ScanResetTimeKey in IncrementAll(store, times)
    ensures IncrementAll(store, times)[ScanResetTimeKey] == store[ScanResetTimeKey]
    ensures |times| > 0 ==> StoredCount(IncrementAll(store, times)) == 1
    ensures Usage(IncrementAll(store, times), later).count == 0
    decreases |times|
  {
    if |times| > 0 {
      var next := AfterIncrement(store, times[0]);
      assert next[ScanCountKey] == 1;
      StaleWindowNeverRefreshed(next, times[1..], later);
      if |times| > 1 {
        assert StoredCount(IncrementAll(store, times)) == StoredCount(IncrementAll(next, times[1..]));
      }
    }
  }

  /** Hence, once the window is stale, `canScan` with one clock reading always reports the full free quota. */
  lemma StaleWindowAlwaysFullQuota(store: Store, times: seq<int>, billing: BillingAnswer, t: int)
    requires !IsPro(billing) && ScanResetTimeKey in store
    requires forall k :: 0 <= k < |times| ==> times[k] >= store[ScanResetTimeKey]
    requires t >= store[ScanResetTimeKey]
    ensures Decide(IncrementAll(store, times), billing, t, t).0 == ScanDecision(true, FreeScanLimit, false)
  {
    StaleWindowNeverRefreshed(store, times, t);
  }

  /** Within one window, each increment adds exactly one to the stored count and keeps the window. */
  lemma {:induction false} IncrementsWithinWindow(store: Store, times: seq<int>)
    requires ScanResetTimeKey in store
    requires forall k :: 0 <= k < |times| ==> times[k] < store[ScanResetTimeKey]
    ensures ScanResetTimeKey in IncrementAll(store, times)
    ensures IncrementAll(store, times)[ScanResetTimeKey] == store[ScanResetTimeKey]
    ensures StoredCount(IncrementAll(store, times)) == StoredCount(store) + |times|
    decreases |times|
  {
    if |times| > 0 {
      IncrementsWithinWindow(AfterIncrement(store, times[0]), times[1..]);
    }
  }

  /**
   * On a fresh install, `n` increments inside the first window leave
   * `canScan` (with one clock reading, inside that window) reporting
   * `max(0, 3 - n)` remaining scans, and allowing a scan exactly when `n < 3`.
   */
  lemma FreshInstallQuota(times: seq<int>, billing: BillingAnswer, t: int)
    requires !IsPro(billing) && |times| >= 1
    requires forall k :: 0 <= k < |times| ==> times[k] < times[0] + ResetIntervalMs
    requires t < times[0] + ResetIntervalMs
    ensures Decide(IncrementAll(map[], times), billing, t, t).0
            == ScanDecision(|times| < FreeScanLimit, Max(0, FreeScanLimit - |times|), false)
  {
    var first := AfterIncrement(map[], times[0]);
    assert first[ScanResetTimeKey] == times[0] + ResetIntervalMs && StoredCount(first) == 1;
    IncrementsWithinWindow(first, times[1..]);
    assert IncrementAll(map[], times) == IncrementAll(first, times[1..]);
  }

  /**
   * The scan-quota counter over the device store. The store is the class's
   * map; every method takes the clock reading it needs.
   */
  class ScanCounter {
    var store: Store

    ghost predicate Valid()
      reads this
    {
      WellFormed(store)
    }

    /** A counter over what is already persisted. */
    constructor(persisted: Store)
      requires WellFormed(persisted)
      ensures Valid() && store == persisted
    {
      store := persisted;
    }

    /** `getScanUsage`: reads both keys; a passed reset time gives a fresh empty window. */
    method GetScanUsage(now: int) returns (u: ScanUsage)
      ensures u == Usage(store, now)
    {
      var count := if ScanCountKey in store then store[ScanCountKey] else 0;
      var resetTime := if ScanResetTimeKey in store then store[ScanResetTimeKey] else now + ResetIntervalMs;
      if now >= resetTime {
        return ScanUsage(0, now + ResetIntervalMs);
      }
      u := ScanUsage(count, resetTime);
    }

    /** `incrementScanCount`: writes the read count plus one; writes a reset time only when none is stored. */
    method IncrementScanCount(now: int)
      requires Valid()
      modifies this
      ensures Valid()
      ensures store == AfterIncrement(old(store), now)
    {
      var usage := GetScanUsage(now);
      var newCount := usage.count + 1;
      store := store[ScanCountKey := newCount];
      if ScanResetTimeKey !in store {
        store := store[ScanResetTimeKey := usage.resetTime];
      }
    }

    /** `resetScanCount`: count 0 and a window ending 24 hours after `now`. */
    method ResetScanCount(now: int)
      requires Valid()
      modifies this
      ensures Valid()
      ensures store == AfterReset(old(store), now)
    {
      store := store[ScanCountKey := 0];
      store := store[ScanResetTimeKey := now + ResetIntervalMs];
    }

    /** `canScan`: the billing answer first, then the usage, then a reset when the second clock reading is past the window. */
    method CanScan(billing: BillingAnswer, now: int, later: int) returns (d: ScanDecision)
      requires Valid()
      modifies this
      ensures Valid()
      ensures (d, store) == Decide(old(store), billing, now, later)
    {
      var pro := IsPro(billing);
      if pro {
        return ScanDecision(true, -1, true);
      }
      var usage := GetScanUsage(now);
      if later >= usage.resetTime {
        ResetScanCount(later);
        return ScanDecision(true, FreeScanLimit - 1, false);
      }
      var scansRemaining := Max(0, FreeScanLimit - usage.count);
      d := ScanDecision(scansRemaining > 0, scansRemaining, false);
    }

    /** `getTimeUntilReset`. */
    method GetTimeUntilReset(now: int, later: int) returns (ms: int)
      ensures ms == TimeUntilReset(store, now, later)
    {
      var usage := GetScanUsage(now);
      ms := Max(0, usage.resetTime - later);
    }
  }

  // ---------------------------------------------------------------- the evidently intended increment

  /**
   * An increment that commits the window it read: the reset time written is
   * the one `getScanUsage` reported, so an expired window is replaced.
   */
  function AfterIncrementCommitted(store: Store, now: int): (s: Store)
    ensures s.Keys == store.Keys + {ScanCountKey, ScanResetTimeKey}
    ensures forall k :: k in store && k != ScanCountKey && k != ScanResetTimeKey ==> s[k] == store[k]
  {
    var usage := Usage(store, now);
    store[ScanCountKey := usage.count + 1][ScanResetTimeKey := usage.resetTime]
  }

  function IncrementAllCommitted(store: Store, times: seq<int>): Store
    decreases |times|
  {
    if |times| == 0 then store else IncrementAllCommitted(AfterIncrementCommitted(store, times[0]), times[1..])
  }

  /** As written, an increment on an expired window is invisible to a read at the same instant. */
  lemma StaleIncrementInvisible(store: Store, now: int)
    requires ScanResetTimeKey in store && now >= store[ScanResetTimeKey]
    ensures Usage(AfterIncrement(store, now), now).count == 0
  {
  }

  /** The committed increment is always visible: a read at the same instant sees the count grow by one. */
  lemma CommittedIncrementVisible(store: Store, now: int)
    ensures Usage(AfterIncrementCommitted(store, now), now).count == Usage(store, now).count + 1
    ensures Usage(AfterIncrementCommitted(store, now), now).resetTime == Usage(store, now).resetTime
  {
  }

  /**
   * With committed increments the quota holds from any state: `n` scans at one
   * instant add `n` to the count that instant reads.
   */
  lemma {:induction false} CommittedQuotaEnforced(store: Store, t: int, times: seq<int>)
    requires forall k :: 0 <= k < |times| ==> times[k] == t
    ensures Usage(IncrementAllCommitted(store, times), t).count == Usage(store, t).count + |times|
    decreases |times|
  {
    if |times| > 0 {
      CommittedIncrementVisible(store, t);
      CommittedQuotaEnforced(AfterIncrementCommitted(store, t), t, times[1..]);
    }
  }

  /**
   * Inside a window that is already committed, with reset time `R`, committed
   * increments at any times before `R` add one each and keep `R`.
   */
  lemma {:induction false} CommittedWithinWindow(s: Store, times: seq<int>, r: int, t: int)
    requires ScanResetTimeKey in s && s[ScanResetTimeKey] == r
    requires forall k :: 0 <= k < |times| ==> times[k] < r
    requires t < r
    ensures Usage(IncrementAllCommitted(s, times), t) == ScanUsage(StoredCount(s) + |times|, r)
    decreases |times|
  {
    if |times| > 0 {
      var next := AfterIncrementCommitted(s, times[0]);
      assert StoredCount(next) == StoredCount(s) + 1 && next[ScanResetTimeKey] == r;
      CommittedWithinWindow(next, times[1..], r, t);
    }
  }

  /**
   * With committed increments the quota holds in every window: after three or
   * more scans, the first opening or continuing a window and the others before
   * its end, `canScan` refuses with 0 remaining at any pair of readings before
   * that end.
   */
  lemma CommittedQuotaRefusesFourthScan(store: Store, times: seq<int>, billing: BillingAnswer, now: int, later: int)
    requires WellFormed(store) && !IsPro(billing)
    requires |times| >= FreeScanLimit
    requires forall k :: 1 <= k < |times| ==> times[k] < Usage(store, times[0]).resetTime
    requires now < Usage(store, times[0]).resetTime && later < Usage(store, times[0]).resetTime
    ensures Decide(IncrementAllCommitted(store, times), billing, now, later).0 == ScanDecision(false, 0, false)
  {
    var r := Usage(store, times[0]).resetTime;
    var first := AfterIncrementCommitted(store, times[0]);
    assert first[ScanResetTimeKey] == r && StoredCount(first) >= 1;
    assert IncrementAllCommitted(store, times) == IncrementAllCommitted(first, times[1..]);
    CommittedWithinWindow(first, times[1..], r, now);
  }
}
