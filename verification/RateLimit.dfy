/** The gateway's rate limiter: a shared counter per time bucket behind a circuit breaker, with a local fallback. */
module RateLimit {
  import opened Prelude

  // ----- Circuit breaker

  datatype Breaker = Breaker(failures: nat, openUntil: Option<nat>)

  datatype BreakerConfig = BreakerConfig(failCount: nat, openWindow: nat)

  const CLOSED_BREAKER := Breaker(0, None)

  /** One request: when it came, and what the shared counter would answer it. */
  datatype Attempt = Attempt(at: nat, ok: bool)

  predicate IsOpen(b: Breaker, now: nat) {
    b.openUntil.Some? && now < b.openUntil.value
  }

  function OnFailure(cfg: BreakerConfig, b: Breaker, now: nat): Breaker {
    if b.failures + 1 >= cfg.failCount then Breaker(0, Some(now + cfg.openWindow)) else b.(failures := b.failures + 1)
  }

  /** While open the counter is not asked; a window that has passed is forgotten first. */
  function AfterAttempt(cfg: BreakerConfig, b: Breaker, a: Attempt): Breaker {
    if IsOpen(b, a.at) then b
    else if a.ok then CLOSED_BREAKER
    else OnFailure(cfg, b.(openUntil := None), a.at)
  }

  function BreakerAfter(cfg: BreakerConfig, attempts: seq<Attempt>): Breaker {
    if attempts == [] then CLOSED_BREAKER
    else AfterAttempt(cfg, BreakerAfter(cfg, attempts[..|attempts| - 1]), attempts[|attempts| - 1])
  }

  /** The i-th attempt reached the counter. */
  predicate Reached(cfg: BreakerConfig, attempts: seq<Attempt>, i: nat)
    requires i < |attempts|
  {
    !IsOpen(BreakerAfter(cfg, attempts[..i]), attempts[i].at)
  }

  predicate InWindow(at: nat, from: nat, length: nat) {
    from <= at < from + length
  }

  /** Counter calls that failed within [from, from + openWindow). */
  function FailedCalls(cfg: BreakerConfig, attempts: seq<Attempt>, from: nat): nat {
    if attempts == [] then 0
    else
      var n := |attempts| - 1;
      FailedCalls(cfg, attempts[..n], from)
      + if Reached(cfg, attempts, n) && !attempts[n].ok && InWindow(attempts[n].at, from, cfg.openWindow) then 1 else 0
  }

  ghost predicate InOrder(attempts: seq<Attempt>) {
    forall i, j :: 0 <= i < j < |attempts| ==> attempts[i].at <= attempts[j].at
  }

  ghost predicate NoSuccessIn(cfg: BreakerConfig, attempts: seq<Attempt>, from: nat) {
    forall i :: 0 <= i < |attempts| && InWindow(attempts[i].at, from, cfg.openWindow) && attempts[i].ok ==>
      !Reached(cfg, attempts, i)
  }

  /** Either the failures of the window are still being counted, or the breaker is open past its end. */
  ghost predicate Contained(cfg: BreakerConfig, b: Breaker, failed: nat, from: nat) {
    || failed == 0
    || failed <= b.failures
    || (failed <= cfg.failCount && b.openUntil.Some? && b.openUntil.value >= from + cfg.openWindow)
  }

  lemma {:induction false} WindowIsContained(cfg: BreakerConfig, attempts: seq<Attempt>, from: nat)
    requires cfg.failCount > 0 && InOrder(attempts) && NoSuccessIn(cfg, attempts, from)
    ensures BreakerAfter(cfg, attempts).failures < cfg.failCount
    ensures FailedCalls(cfg, attempts, from) <= cfg.failCount
    ensures attempts == [] || attempts[|attempts| - 1].at < from + cfg.openWindow ==>
              Contained(cfg, BreakerAfter(cfg, attempts), FailedCalls(cfg, attempts, from), from)
    ensures attempts != [] && attempts[|attempts| - 1].at < from ==> FailedCalls(cfg, attempts, from) == 0
  {
    if attempts != [] {
      var n := |attempts| - 1;
      var front := attempts[..n];
      forall i | 0 <= i < n ensures Reached(cfg, front, i) == Reached(cfg, attempts, i) {
        assert front[..i] == attempts[..i];
      }
      WindowIsContained(cfg, front, from);
      if n > 0 {
        assert attempts[n - 1].at <= attempts[n].at;
      }
    }
  }

  /** In any window as long as the breaker's with no successful counter call, at most failCount calls failed. */
  lemma BreakerBoundsFailures(cfg: BreakerConfig, attempts: seq<Attempt>, from: nat)
    requires cfg.failCount > 0 && InOrder(attempts) && NoSuccessIn(cfg, attempts, from)
    ensures FailedCalls(cfg, attempts, from) <= cfg.failCount
    ensures BreakerAfter(cfg, attempts).failures < cfg.failCount
  {
    WindowIsContained(cfg, attempts, from);
  }

  /** The breaker after more attempts. */
  function Continued(cfg: BreakerConfig, b: Breaker, attempts: seq<Attempt>): Breaker {
    if attempts == [] then b
    else AfterAttempt(cfg, Continued(cfg, b, attempts[..|attempts| - 1]), attempts[|attempts| - 1])
  }

  lemma {:induction false} RunsConcatenate(cfg: BreakerConfig, attempts: seq<Attempt>, more: seq<Attempt>)
    ensures BreakerAfter(cfg, attempts + more) == Continued(cfg, BreakerAfter(cfg, attempts), more)
  {
    if more == [] {
      assert attempts + more == attempts;
    } else {
      var n := |more| - 1;
      RunsConcatenate(cfg, attempts, more[..n]);
      assert (attempts + more)[..|attempts| + n] == attempts + more[..n];
    }
  }

  /** From a closed breaker without failures, failCount failed calls in a row open it for one window, and no fewer. */
  lemma {:induction false} FailuresOpen(cfg: BreakerConfig, b: Breaker, failing: seq<Attempt>)
    requires cfg.failCount > 0 && b.failures == 0 && failing != [] && |failing| <= cfg.failCount
    requires forall i :: 0 <= i < |failing| ==> !failing[i].ok && !IsOpen(b, failing[i].at)
    ensures Continued(cfg, b, failing)
            == if |failing| == cfg.failCount then Breaker(0, Some(failing[|failing| - 1].at + cfg.openWindow))
               else Breaker(|failing|, None)
  {
    var n := |failing| - 1;
    if n > 0 {
      FailuresOpen(cfg, b, failing[..n]);
    } else {
      assert Continued(cfg, b, failing[..n]) == b;
    }
  }

  /** An open breaker lets nothing through and stays as it is until its time has come. */
  lemma {:induction false} OpenBreakerWaits(cfg: BreakerConfig, b: Breaker, attempts: seq<Attempt>)
    requires b.openUntil.Some? && forall i :: 0 <= i < |attempts| ==> attempts[i].at < b.openUntil.value
    ensures Continued(cfg, b, attempts) == b
    ensures forall i :: 0 <= i < |attempts| ==> IsOpen(Continued(cfg, b, attempts[..i]), attempts[i].at)
  {
    if attempts != [] {
      var n := |attempts| - 1;
      OpenBreakerWaits(cfg, b, attempts[..n]);
      forall i | 0 <= i < n ensures IsOpen(Continued(cfg, b, attempts[..i]), attempts[i].at) {
        assert attempts[..n][..i] == attempts[..i];
      }
    }
  }

  /** One run of the breaker: closed, then failCount failures, then a window, then the counter is asked again. */
  ghost predicate IsOutage(cfg: BreakerConfig, before: seq<Attempt>, failing: seq<Attempt>, waiting: seq<Attempt>) {
    && BreakerAfter(cfg, before) == CLOSED_BREAKER && |failing| == cfg.failCount > 0
    && (forall i :: 0 <= i < |failing| ==> !failing[i].ok)
    && forall i :: 0 <= i < |waiting| ==> waiting[i].at < failing[|failing| - 1].at + cfg.openWindow
  }

  /** Once failCount calls in a row have failed, the counter is asked again exactly when the window is over. */
  lemma OutageEnds(cfg: BreakerConfig, before: seq<Attempt>, failing: seq<Attempt>, waiting: seq<Attempt>, a: Attempt)
    requires IsOutage(cfg, before, failing, waiting)
    ensures var attempts := before + failing + waiting + [a];
            Reached(cfg, attempts, |attempts| - 1) <==> a.at >= failing[|failing| - 1].at + cfg.openWindow
  {
    var attempts := before + failing + waiting + [a];
    assert attempts[..|attempts| - 1] == before + failing + waiting;
    RunsConcatenate(cfg, before + failing, waiting);
    RunsConcatenate(cfg, before, failing);
    FailuresOpen(cfg, CLOSED_BREAKER, failing);
    OpenBreakerWaits(cfg, BreakerAfter(cfg, before + failing), waiting);
  }

  /** A call that succeeds closes the breaker and forgets the failures before it. */
  lemma SuccessCloses(cfg: BreakerConfig, attempts: seq<Attempt>, a: Attempt)
    requires a.ok && Reached(cfg, attempts + [a], |attempts|)
    ensures BreakerAfter(cfg, attempts + [a]) == CLOSED_BREAKER
  {
    assert (attempts + [a])[..|attempts|] == attempts;
  }

  // ----- Counter windows

  const SECOND: nat := 1_000_000_000
  const MINUTE: nat := 60 * SECOND

  datatype Counter = Counter(count: nat, expiresAt: nat)

  function Start(now: nat, window: nat): nat
    requires window > 0
  {
    now - now % window
  }

  /** The aligned start of a request's window, in whole seconds, names its counter. */
  function BucketOf(now: nat, window: nat): nat
    requires window > 0
  {
    Start(now, window) / SECOND
  }

  /** INCR then EXPIRE; an expired counter starts over. */
  function Increment(counters: map<nat, Counter>, bucket: nat, now: nat, ttl: nat): map<nat, Counter> {
    var n := if bucket in counters && now < counters[bucket].expiresAt then counters[bucket].count + 1 else 1;
    counters[bucket := Counter(n, now + ttl)]
  }

  function CountersAfter(requests: seq<nat>, window: nat): map<nat, Counter>
    requires window > 0
  {
    if requests == [] then map[]
    else
      var now := requests[|requests| - 1];
      Increment(CountersAfter(requests[..|requests| - 1], window), BucketOf(now, window), now, window + MINUTE)
  }

  /** The counter admits the i-th request of one key. */
  predicate Admitted(requests: seq<nat>, window: nat, limit: nat, i: nat)
    requires window > 0 && i < |requests|
  {
    var counters := CountersAfter(requests[..i + 1], window);
    var bucket := BucketOf(requests[i], window);
    bucket in counters && counters[bucket].count <= limit
  }

  function RequestsIn(requests: seq<nat>, window: nat, bucket: nat): nat
    requires window > 0
  {
    if requests == [] then 0
    else RequestsIn(requests[..|requests| - 1], window, bucket)
         + if BucketOf(requests[|requests| - 1], window) == bucket then 1 else 0
  }

  function AdmittedIn(requests: seq<nat>, window: nat, limit: nat, bucket: nat): nat
    requires window > 0
  {
    if requests == [] then 0
    else
      var n := |requests| - 1;
      AdmittedIn(requests[..n], window, limit, bucket)
      + if BucketOf(requests[n], window) == bucket && Admitted(requests, window, limit, n) then 1 else 0
  }

  ghost predicate Ordered(requests: seq<nat>) {
    forall i, j :: 0 <= i < j < |requests| ==> requests[i] <= requests[j]
  }

  lemma AlignedStart(now: nat, window: nat)
    requires window > 0
    ensures Start(now, window) <= now < Start(now, window) + window
  {
  }

  /** A counter outlives every request that can still hit it. */
  lemma SameBucketIsClose(a: nat, b: nat, window: nat)
    requires window > 0 && a <= b && BucketOf(a, window) == BucketOf(b, window)
    ensures b < a + window + MINUTE
  {
    AlignedStart(a, window);
    AlignedStart(b, window);
  }

  /** The counter of a bucket has counted every request of that bucket. */
  lemma {:induction false} CounterCounts(requests: seq<nat>, window: nat, bucket: nat)
    requires window > 0 && Ordered(requests)
    ensures var counters := CountersAfter(requests, window);
            && (bucket in counters <==> RequestsIn(requests, window, bucket) > 0)
            && (bucket in counters ==>
                  && counters[bucket].count == RequestsIn(requests, window, bucket)
                  && exists i :: 0 <= i < |requests| && BucketOf(requests[i], window) == bucket
                                 && counters[bucket].expiresAt == requests[i] + window + MINUTE)
  {
    if requests != [] {
      var n := |requests| - 1;
      var front, now := requests[..n], requests[n];
      CounterCounts(front, window, bucket);
      var counters := CountersAfter(front, window);
      if BucketOf(now, window) == bucket {
        if bucket in counters {
          var i :| 0 <= i < |front| && BucketOf(front[i], window) == bucket
                   && counters[bucket].expiresAt == front[i] + window + MINUTE;
          assert front[i] == requests[i] <= now;
          SameBucketIsClose(requests[i], now, window);
        }
        assert requests[n] == now;
      } else if bucket in counters {
        var i :| 0 <= i < |front| && BucketOf(front[i], window) == bucket
                 && counters[bucket].expiresAt == front[i] + window + MINUTE;
        assert requests[i] == front[i];
      }
    }
  }

  /** Of n requests in a bucket, exactly min(n, limit) are admitted. */
  lemma {:induction false} BucketAdmitsExactly(requests: seq<nat>, window: nat, limit: nat, bucket: nat)
    requires window > 0 && Ordered(requests)
    ensures AdmittedIn(requests, window, limit, bucket) == Min(RequestsIn(requests, window, bucket), limit)
  {
    if requests != [] {
      var n := |requests| - 1;
      BucketAdmitsExactly(requests[..n], window, limit, bucket);
      assert requests[..n + 1] == requests;
      if BucketOf(requests[n], window) == bucket {
        CounterCounts(requests, window, bucket);
      }
    }
  }

  function AdmittedBetween(requests: seq<nat>, window: nat, limit: nat, from: nat): nat
    requires window > 0
  {
    if requests == [] then 0
    else
      var n := |requests| - 1;
      AdmittedBetween(requests[..n], window, limit, from)
      + if InWindow(requests[n], from, window) && Admitted(requests, window, limit, n) then 1 else 0
  }

  lemma SmallMultiple(k: int, window: nat)
    requires window > 0 && 0 < k * window + window && k * window < 2 * window
    ensures k == 0 || k == 1
  {
  }

  /** Two aligned starts differ by a multiple of the window. */
  lemma StartsAreMultiples(a: nat, b: nat, window: nat)
    requires window > 0
    ensures Start(a, window) - Start(b, window) == (a / window - b / window) * window
  {
    assert a == (a / window) * window + a % window;
    assert b == (b / window) * window + b % window;
  }

  lemma ShiftedStart(a: nat, window: nat)
    requires window > 0
    ensures Start(a + window, window) == Start(a, window) + window
  {
    AlignedStart(a, window);
    AlignedStart(a + window, window);
    StartsAreMultiples(a + window, a, window);
    var k := (a + window) / window - a / window;
    SmallMultiple(k - 1, window);
    assert (k - 1) * window == k * window - window;
  }

  /** An interval of one window's length touches at most two buckets. */
  lemma TwoBuckets(at: nat, from: nat, window: nat)
    requires window > 0 && InWindow(at, from, window)
    ensures BucketOf(at, window) == BucketOf(from, window) || BucketOf(at, window) == BucketOf(from + window, window)
  {
    AlignedStart(at, window);
    AlignedStart(from, window);
    StartsAreMultiples(at, from, window);
    SmallMultiple(at / window - from / window, window);
    ShiftedStart(from, window);
  }

  lemma {:induction false} IntervalWithinBuckets(requests: seq<nat>, window: nat, limit: nat, from: nat)
    requires window > 0
    ensures AdmittedBetween(requests, window, limit, from)
            <= AdmittedIn(requests, window, limit, BucketOf(from, window))
               + AdmittedIn(requests, window, limit, BucketOf(from + window, window))
  {
    if requests != [] {
      var n := |requests| - 1;
      IntervalWithinBuckets(requests[..n], window, limit, from);
      if InWindow(requests[n], from, window) {
        TwoBuckets(requests[n], from, window);
      }
    }
  }

  /** Any interval of one window's length admits at most twice the limit. */
  lemma IntervalAdmitsAtMostTwice(requests: seq<nat>, window: nat, limit: nat, from: nat)
    requires window > 0 && Ordered(requests)
    ensures AdmittedBetween(requests, window, limit, from) <= 2 * limit
  {
    IntervalWithinBuckets(requests, window, limit, from);
    BucketAdmitsExactly(requests, window, limit, BucketOf(from, window));
    BucketAdmitsExactly(requests, window, limit, BucketOf(from + window, window));
  }
}
