/** The back-off delay in 64-bit arithmetic, and exactly when doubling in a loop gives the capped exponential. */
module RetryDelays {
  import opened Prelude
  import opened OutboxProtocol

  function Power2(n: nat): nat {
    if n == 0 then 1 else 2 * Power2(n - 1)
  }

  /** The intended delay before attempt n + 1: base * 2^(n-1), up to a ceiling. */
  function RetryDelay(cfg: Config, attempts: nat): nat {
    var n := if attempts < 1 then 1 else attempts;
    Min(cfg.retryBase * Power2(n - 1), cfg.retryMax)
  }

  /** The loop as it runs. */
  method ComputeRetryDelay(cfg: Config, attempts: int) returns (delay: int)
    ensures delay == Delay64(cfg, Max(attempts, 0))
  {
    var n := if attempts < 1 then 1 else attempts;
    delay := cfg.retryBase;
    for i := 1 to n
      invariant Doubled64(delay, cfg.retryMax, n - i) == Doubled64(cfg.retryBase, cfg.retryMax, n - 1)
    {
      delay := Wrap64(delay * 2);
      if delay >= cfg.retryMax {
        return cfg.retryMax;
      }
    }
    if delay > cfg.retryMax {
      return cfg.retryMax;
    }
  }

  ghost predicate IsDuration(x: int) {
    0 < x < INT64_LIMIT
  }

  /** base * 2^k, by doubling. */
  function Scaled(base: nat, k: nat): nat {
    if k == 0 then base else 2 * Scaled(base, k - 1)
  }

  lemma {:induction false} ScaledIsProduct(base: nat, k: nat)
    ensures Scaled(base, k) == base * Power2(k)
  {
    if k > 0 {
      ScaledIsProduct(base, k - 1);
    }
  }

  lemma {:induction false} ScaledGrows(base: nat, m: nat, n: nat)
    requires m <= n
    ensures Scaled(base, m) <= Scaled(base, n)
  {
    if m < n {
      ScaledGrows(base, m, n - 1);
    }
  }

  /** Every doubling the loop can reach fits in 64 bits. */
  ghost predicate DoublingFits(cfg: Config) {
    forall k: nat :: (k == 0 || Scaled(cfg.retryBase, k) < cfg.retryMax) ==> 2 * Scaled(cfg.retryBase, k) < INT64_LIMIT
  }

  lemma WrapSmall(x: int)
    requires 0 <= x < INT64_LIMIT
    ensures Wrap64(x) == x
  {
  }

  lemma {:induction false} FittingLoop(cfg: Config, k: nat, rounds: nat)
    requires IsDuration(cfg.retryBase) && IsDuration(cfg.retryMax) && DoublingFits(cfg)
    requires k == 0 || Scaled(cfg.retryBase, k) < cfg.retryMax
    ensures Doubled64(Scaled(cfg.retryBase, k), cfg.retryMax, rounds)
            == Min(Scaled(cfg.retryBase, k + rounds), cfg.retryMax)
    decreases rounds
  {
    if rounds > 0 {
      WrapSmall(Scaled(cfg.retryBase, k + 1));
      if Scaled(cfg.retryBase, k + 1) < cfg.retryMax {
        FittingLoop(cfg, k + 1, rounds - 1);
        assert k + 1 + (rounds - 1) == k + rounds;
      } else {
        ScaledGrows(cfg.retryBase, k + 1, k + rounds);
      }
    }
  }

  /** After k doublings below the ceiling, the loop stands at base * 2^k. */
  lemma {:induction false} LoopReaches(cfg: Config, k: nat, extra: nat)
    requires IsDuration(cfg.retryBase) && IsDuration(cfg.retryMax)
    requires k >= 1 ==> Scaled(cfg.retryBase, k) < cfg.retryMax
    ensures Doubled64(cfg.retryBase, cfg.retryMax, k + extra)
            == Doubled64(Scaled(cfg.retryBase, k), cfg.retryMax, extra)
  {
    if k > 0 {
      ScaledGrows(cfg.retryBase, k - 1, k);
      LoopReaches(cfg, k - 1, extra + 1);
      WrapSmall(Scaled(cfg.retryBase, k));
      assert k - 1 + (extra + 1) == k + extra;
    }
  }

  lemma WrapLarge(x: int)
    requires INT64_LIMIT <= x < 2 * INT64_LIMIT
    ensures Wrap64(x) == x - 2 * INT64_LIMIT
  {
  }

  /** If the doubling after the k-th does not fit, the delay after attempt k + 2 is negative. */
  lemma OverflowGoesNegative(cfg: Config, k: nat)
    requires IsDuration(cfg.retryBase) && IsDuration(cfg.retryMax)
    requires k == 0 || Scaled(cfg.retryBase, k) < cfg.retryMax
    requires 2 * Scaled(cfg.retryBase, k) >= INT64_LIMIT
    ensures Delay64(cfg, k + 2) < 0
  {
    LoopReaches(cfg, k, 1);
    WrapLarge(2 * Scaled(cfg.retryBase, k));
  }

  ghost predicate IsCappedExponential(cfg: Config) {
    forall n: nat :: Delay64(cfg, n) == RetryDelay(cfg, n)
  }

  /** The computed delay is min(base * 2^(n-1), max) for every n exactly when every reachable doubling fits. */
  lemma DelayIsCappedExponential(cfg: Config)
    requires IsDuration(cfg.retryBase) && IsDuration(cfg.retryMax)
    ensures IsCappedExponential(cfg) <==> DoublingFits(cfg)
  {
    if DoublingFits(cfg) {
      forall n: nat ensures Delay64(cfg, n) == RetryDelay(cfg, n) {
        FittingLoop(cfg, 0, Max(n, 1) - 1);
        ScaledIsProduct(cfg.retryBase, Max(n, 1) - 1);
      }
    } else {
      var k: nat :| (k == 0 || Scaled(cfg.retryBase, k) < cfg.retryMax) && 2 * Scaled(cfg.retryBase, k) >= INT64_LIMIT;
      OverflowGoesNegative(cfg, k);
      ScaledIsProduct(cfg.retryBase, k + 1);
      assert Delay64(cfg, k + 2) != RetryDelay(cfg, k + 2);
    }
  }

  /** With a ceiling of at most 2^62 a base below 2^62 is safe, and a base of 2^62 itself is not. */
  lemma SafeDelays(cfg: Config)
    requires IsDuration(cfg.retryBase) && IsDuration(cfg.retryMax) && 2 * cfg.retryMax <= INT64_LIMIT
    ensures 2 * cfg.retryBase < INT64_LIMIT ==> IsCappedExponential(cfg)
    ensures 2 * cfg.retryBase == INT64_LIMIT ==> Delay64(cfg, 2) < 0
  {
    DelayIsCappedExponential(cfg);
    if 2 * cfg.retryBase == INT64_LIMIT {
      OverflowGoesNegative(cfg, 0);
    }
  }

  lemma IntendedDelaysGrow(cfg: Config, m: nat, n: nat)
    requires m <= n
    ensures RetryDelay(cfg, m) <= RetryDelay(cfg, n) <= cfg.retryMax
  {
    var i, j := Max(m, 1) - 1, Max(n, 1) - 1;
    ScaledGrows(cfg.retryBase, i, j);
    ScaledIsProduct(cfg.retryBase, i);
    ScaledIsProduct(cfg.retryBase, j);
  }

  /** No wait is negative or exceeds the ceiling, and later attempts never wait less. */
  ghost predicate AreSteady(cfg: Config) {
    && (forall n: nat :: 0 <= Delay64(cfg, n) <= cfg.retryMax)
    && (forall m: nat, n: nat :: m <= n ==> Delay64(cfg, m) <= Delay64(cfg, n))
  }

  /** The computed delays stay in bounds and grow exactly when every reachable doubling fits. */
  lemma DelaysGrow(cfg: Config)
    requires IsDuration(cfg.retryBase) && IsDuration(cfg.retryMax)
    ensures AreSteady(cfg) <==> DoublingFits(cfg)
  {
    DelayIsCappedExponential(cfg);
    if DoublingFits(cfg) {
      forall m: nat, n: nat | m <= n
        ensures 0 <= Delay64(cfg, n) <= cfg.retryMax && Delay64(cfg, m) <= Delay64(cfg, n)
      {
        assert Delay64(cfg, m) == RetryDelay(cfg, m) && Delay64(cfg, n) == RetryDelay(cfg, n);
        IntendedDelaysGrow(cfg, m, n);
      }
    } else {
      var k: nat :| (k == 0 || Scaled(cfg.retryBase, k) < cfg.retryMax) && 2 * Scaled(cfg.retryBase, k) >= INT64_LIMIT;
      OverflowGoesNegative(cfg, k);
    }
  }
}
