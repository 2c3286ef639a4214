/** What each action of the dispatch protocol does to the rows, field by field, and that a retry waits its time out. */
module OutboxEffects {
  import opened Prelude
  import opened OutboxProtocol
  import opened OutboxSafety
  import opened PublishedRows
  import opened RetryDelays

  /** Two rows that carry the same event and have been claimed as often. */
  ghost predicate SameHistory(row: OutboxRow, row': OutboxRow) {
    row'.event == row.event && row'.attempts == row.attempts
  }

  /** All rows but the chosen ones are as they were. */
  ghost predicate OthersKept(s: Sys, s': Sys, chosen: set<nat>) {
    |s'.rows| == |s.rows| && forall i :: 0 <= i < |s.rows| && i !in chosen ==> s'.rows[i] == s.rows[i]
  }

  // ----- Marks

  /** A row has been published now. */
  ghost predicate IsPublishedNow(row: OutboxRow, row': OutboxRow, now: nat) {
    && row'.status == Published && row'.publishedAt == Some(now) && row'.processingAt.None? && row'.nextRetryAt.None?
    && SameHistory(row, row')
  }

  ghost predicate IsDeadNow(row: OutboxRow, row': OutboxRow) {
    && row'.status == Dead && row'.publishedAt == row.publishedAt && row'.processingAt.None? && row'.nextRetryAt.None?
    && SameHistory(row, row')
  }

  /** A row waits for its next attempt from a time on. */
  ghost predicate IsRetriedAt(row: OutboxRow, row': OutboxRow, at: int) {
    && row'.status == Pending && row'.publishedAt == row.publishedAt && row'.processingAt.None?
    && row'.nextRetryAt == Some(at) && SameHistory(row, row')
  }

  /**
    A written mark publishes an accepted row, gives up one that failed at its last allowed attempt, and lets any other
    wait base * 2^(attempts - 1), capped; a mark that is not written changes no row, and no mark changes another row.
   */
  lemma MarkDecides(cfg: Config, s: Sys, a: Action)
    requires Enabled(cfg, s, a) && a.Mark? && Held(s, a.worker)[0].attempts >= 1
    requires IsDuration(cfg.retryBase) && IsDuration(cfg.retryMax) && DoublingFits(cfg)
    ensures var item, s' := Held(s, a.worker)[0], Next(cfg, s, a);
            && OthersKept(s, s', if a.written then {item.index} else {})
            && Held(s', a.worker) == Held(s, a.worker)[1..] && s'.now == s.now
            && (a.written ==>
                  var row, row' := s.rows[item.index], s'.rows[item.index];
                  if item.accepted == Some(true) then IsPublishedNow(row, row', s.now)
                  else if item.attempts >= cfg.maxAttempts then IsDeadNow(row, row')
                  else IsRetriedAt(row, row', s.now + Min(cfg.retryBase * Power2(item.attempts - 1), cfg.retryMax)))
  {
    var item := Held(s, a.worker)[0];
    DelayIsCappedExponential(cfg);
    assert Delay64(cfg, item.attempts) == RetryDelay(cfg, item.attempts);
  }

  // ----- Claims, sweeps and replays

  /**
    A claim takes pending rows whose time has come, counts the attempt, stamps them, and hands the worker one item per
    row that knows the counted attempts; it keeps the retry time.
   */
  lemma ClaimTakes(cfg: Config, s: Sys, a: Action)
    requires Enabled(cfg, s, a) && a.ClaimRows?
    ensures var s' := Next(cfg, s, a);
            && OthersKept(s, s', set i | i in a.indices)
            && |Held(s', a.worker)| == |a.indices|
            && (forall k :: 0 <= k < |a.indices| ==>
                  var i := a.indices[k];
                  && i < |s.rows|
                  && s.rows[i].status == Pending
                  && (s.rows[i].nextRetryAt.Some? ==> s.rows[i].nextRetryAt.value <= s.now)
                  && s'.rows[i].status == Processing && s'.rows[i].processingAt == Some(s.now)
                  && s'.rows[i].attempts == s.rows[i].attempts + 1 && s'.rows[i].event == s.rows[i].event
                  && s'.rows[i].nextRetryAt == s.rows[i].nextRetryAt && s'.rows[i].publishedAt == s.rows[i].publishedAt
                  && Held(s', a.worker)[k] == Item(i, s'.rows[i].attempts, s.now, None))
  {
  }

  /** A claim of the first rows leaves out a pending row whose time has come only for a full batch of lower ids. */
  lemma DueRowsAreTaken(cfg: Config, s: Sys, a: Action, batch: nat, i: nat)
    requires Enabled(cfg, s, a) && a.ClaimRows? && TakesFirst(s, a, batch)
    requires i < |s.rows| && s.rows[i].status == Pending
    requires s.rows[i].nextRetryAt.Some? ==> s.rows[i].nextRetryAt.value <= a.retryableBefore
    ensures var s' := Next(cfg, s, a);
            || (s'.rows[i].status == Processing && exists k :: 0 <= k < |a.indices| && Held(s', a.worker)[k].index == i)
            || (|a.indices| == batch && forall k :: 0 <= k < batch ==> a.indices[k] < i)
  {
    if i in a.indices {
      var k :| 0 <= k < |a.indices| && a.indices[k] == i;
      assert Held(Next(cfg, s, a), a.worker)[k].index == i;
    }
  }

  /** A sweep makes exactly the rows claimed at or before its bound pending again, to be tried at once. */
  lemma SweepReturns(cfg: Config, s: Sys, a: Action, i: nat)
    requires Enabled(cfg, s, a) && a.Requeue? && i < |s.rows|
    ensures var row, row' := s.rows[i], Next(cfg, s, a).rows[i];
            if row.status == Processing && row.processingAt.Some? && row.processingAt.value <= a.staleBefore
            then IsRetriedAt(row, row', s.now) else row' == row
  {
  }

  /** A replay revives dead rows only, those with the lowest ids, as many as it may, to be tried at once. */
  lemma ReplayRevivesLowest(cfg: Config, s: Sys, a: Action)
    requires Enabled(cfg, s, a) && a.ReplayDead?
    ensures var s' := Next(cfg, s, a);
            && |s'.rows| == |s.rows|
            && (forall i :: 0 <= i < |s.rows| && s'.rows[i] != s.rows[i] ==>
                  s.rows[i].status == Dead && IsRetriedAt(s.rows[i], s'.rows[i], s.now))
            && (forall i, j :: 0 <= i < j < |s.rows| && s.rows[i].status == Dead && s'.rows[j] != s.rows[j] ==>
                  s'.rows[i] != s.rows[i])
            && CountDead(s'.rows) == CountDead(s.rows) - Min(CountDead(s.rows), a.limit)
  {
    var s' := Next(cfg, s, a);
    forall i, j | 0 <= i < j < |s.rows| && s.rows[i].status == Dead && s'.rows[j] != s.rows[j]
      ensures s'.rows[i] != s.rows[i]
    {
      DeadBelow(s.rows, i, j);
    }
    RevivedCount(s, a.limit, |s.rows|);
    assert s.rows[..|s.rows|] == s.rows && s'.rows[..|s.rows|] == s'.rows;
  }

  lemma {:induction false} DeadBelow(rows: seq<OutboxRow>, i: nat, j: nat)
    requires i <= j <= |rows|
    ensures CountDead(rows[..i]) <= CountDead(rows[..j])
  {
    if i < j {
      DeadBelow(rows, i, j - 1);
      assert rows[..j][..j - 1] == rows[..j - 1];
    }
  }

  lemma {:induction false} RevivedCount(s: Sys, limit: nat, n: nat)
    requires n <= |s.rows|
    ensures CountDead(Revived(s, limit)[..n]) == CountDead(s.rows[..n]) - Min(CountDead(s.rows[..n]), limit)
  {
    if n > 0 {
      RevivedCount(s, limit, n - 1);
      assert s.rows[..n][..n - 1] == s.rows[..n - 1];
      assert Revived(s, limit)[..n][..n - 1] == Revived(s, limit)[..n - 1];
    }
  }

  // ----- A retry waits its time out

  ghost predicate Waits(s: Sys, i: nat, at: int) {
    i < |s.rows| && s.rows[i].status == Pending && s.rows[i].nextRetryAt == Some(at)
  }

  /** A waiting row stops waiting only by a claim that is not early, or by a mark of a worker that still holds it. */
  lemma WaitEnds(cfg: Config, s: Sys, a: Action, i: nat, at: int)
    requires Enabled(cfg, s, a) && Waits(s, i, at)
    ensures || Waits(Next(cfg, s, a), i, at)
            || (a.ClaimRows? && i in a.indices && at <= s.now)
            || (a.Mark? && a.written && Holds(s, a.worker, 0, i))
  {
  }

  /** In any run in which no sweep took the row from a holder, nobody claims a waiting row before its time. */
  lemma {:induction false} NoEarlyClaim(cfg: Config, run: seq<Action>, n: nat, i: nat, at: int)
    requires IsRun(cfg, run) && NeverRobbed(cfg, run, i) && n <= |run| && IsRun(cfg, run[..n])
    requires Waits(Final(cfg, run[..n]), i, at) && Final(cfg, run).now < at
    ensures Waits(Final(cfg, run), i, at) && Claims(run, i) == Claims(run[..n], i)
  {
    if n == |run| {
      assert run[..n] == run;
    } else {
      var front := run[..|run| - 1];
      var s, a := Final(cfg, front), run[|run| - 1];
      assert front[..n] == run[..n];
      NoEarlyClaim(cfg, front, n, i, at);
      UnrobbedRowIsExclusive(cfg, front, i);
      WaitEnds(cfg, s, a, i, at);
      assert a.Mark? && Holds(s, a.worker, 0, i) ==> IsCurrent(s, Held(s, a.worker)[0]);
    }
  }

  /**
    Back-off over runs: after a written failure of attempt k, short of the last one, the row is not claimed again before
    base * 2^(k-1), capped, has passed, unless a sweep takes it from a holder.
   */
  lemma BackOffHolds(cfg: Config, run: seq<Action>, n: nat, w: nat)
    requires IsRun(cfg, run) && 0 < n <= |run| && IsRun(cfg, run[..n - 1]) && run[n - 1] == Mark(w, true)
    requires IsRun(cfg, run[..n]) && IsDuration(cfg.retryBase) && IsDuration(cfg.retryMax) && DoublingFits(cfg)
    requires Held(Final(cfg, run[..n - 1]), w) != []
    requires var item := Held(Final(cfg, run[..n - 1]), w)[0];
             && item.accepted == Some(false) && 1 <= item.attempts < cfg.maxAttempts
             && NeverRobbed(cfg, run, item.index)
             && Final(cfg, run).now < Final(cfg, run[..n - 1]).now
                                      + Min(cfg.retryBase * Power2(item.attempts - 1), cfg.retryMax)
    ensures var i := Held(Final(cfg, run[..n - 1]), w)[0].index;
            && i < |Final(cfg, run).rows| && Final(cfg, run).rows[i].status == Pending
            && Claims(run, i) == Claims(run[..n], i)
  {
    var s, item := Final(cfg, run[..n - 1]), Held(Final(cfg, run[..n - 1]), w)[0];
    assert run[..n][..n - 1] == run[..n - 1];
    MarkDecides(cfg, s, run[n - 1]);
    NoEarlyClaim(cfg, run, n, item.index, s.now + Min(cfg.retryBase * Power2(item.attempts - 1), cfg.retryMax));
  }
}
