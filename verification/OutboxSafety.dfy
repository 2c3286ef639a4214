/** What every run of the dispatch protocol keeps, and what holding leases adds. */
module OutboxSafety {
  import opened Prelude
  import opened OutboxProtocol

  // ----- Counting what happened to one row

  /** How often row i was claimed. */
  function Claims(run: seq<Action>, i: nat): nat {
    if run == [] then 0
    else
      var a := run[|run| - 1];
      Claims(run[..|run| - 1], i) + if a.ClaimRows? && i in a.indices then 1 else 0
  }

  /** How often the transport accepted row i. */
  ghost function Accepts(cfg: Config, run: seq<Action>, i: nat): nat
    requires IsRun(cfg, run)
  {
    if run == [] then 0
    else
      var s, a := Final(cfg, run[..|run| - 1]), run[|run| - 1];
      Accepts(cfg, run[..|run| - 1], i) + if a.Publish? && a.accepted && Held(s, a.worker)[0].index == i then 1 else 0
  }

  predicate Requeues(s: Sys, a: Action, i: nat) {
    a.Requeue? && i < |s.rows| && IsStale(s.rows[i], a.staleBefore)
  }

  predicate Revives(s: Sys, a: Action, i: nat) {
    a.ReplayDead? && i < |s.rows| && s.rows[i].status == Dead && CountDead(s.rows[..i]) < a.limit
  }

  /** How often a stale claim on row i was taken away, plus how often it was revived from the dead. */
  ghost function Reprieves(cfg: Config, run: seq<Action>, i: nat): nat
    requires IsRun(cfg, run)
  {
    if run == [] then 0
    else
      var s, a := Final(cfg, run[..|run| - 1]), run[|run| - 1];
      Reprieves(cfg, run[..|run| - 1], i) + if Requeues(s, a, i) || Revives(s, a, i) then 1 else 0
  }

  // ----- No row is lost or stuck, whatever fails

  ghost predicate RowIsSound(cfg: Config, run: seq<Action>, i: nat)
    requires IsRun(cfg, run) && i < |Final(cfg, run).rows|
  {
    var row := Final(cfg, run).rows[i];
    && (row.status == Processing <==> row.processingAt.Some?)
    && (row.status == Published ==> Accepts(cfg, run, i) >= 1)
    && row.attempts == Claims(run, i)
    && (row.status == Dead ==> row.attempts >= cfg.maxAttempts)
  }

  /** An item never claims more than its row shows, and its verdict is the transport's. */
  ghost predicate ItemIsSound(cfg: Config, run: seq<Action>, item: Item)
    requires IsRun(cfg, run)
  {
    && item.index < |Final(cfg, run).rows|
    && item.attempts <= Final(cfg, run).rows[item.index].attempts
    && (item.accepted == Some(true) ==> Accepts(cfg, run, item.index) >= 1)
  }

  ghost predicate Sound(cfg: Config, run: seq<Action>)
    requires IsRun(cfg, run)
  {
    && (forall i :: 0 <= i < |Final(cfg, run).rows| ==> RowIsSound(cfg, run, i))
    && (forall i :: i >= |Final(cfg, run).rows| ==> Claims(run, i) == 0)
    && (forall w, k :: 0 <= k < |Held(Final(cfg, run), w)| ==> ItemIsSound(cfg, run, Held(Final(cfg, run), w)[k]))
  }

  /**
    Under crashes, failed writes, requeues and replays, and with no assumption on timing: a row is processing
    exactly while it has a processing time, published only if the transport took it, has been claimed as often
    as its attempts say, and is dead only after the allowed attempts.
   */
  lemma {:induction false} NoRowIsLost(cfg: Config, run: seq<Action>)
    requires IsRun(cfg, run)
    ensures Sound(cfg, run)
  {
    if run != [] {
      NoRowIsLost(cfg, run[..|run| - 1]);
      RowsStaySound(cfg, run);
      ItemsStaySound(cfg, run);
    }
  }

  lemma RowStaysSound(cfg: Config, run: seq<Action>, i: nat)
    requires IsRun(cfg, run) && run != [] && Sound(cfg, run[..|run| - 1]) && i < |Final(cfg, run).rows|
    ensures RowIsSound(cfg, run, i)
  {
    var front := run[..|run| - 1];
    var s, a := Final(cfg, front), run[|run| - 1];
    RowMoves(cfg, s, a, i);
    if i < |s.rows| {
      assert RowIsSound(cfg, front, i);
      if a.Mark? {
        assert ItemIsSound(cfg, front, Held(s, a.worker)[0]);
      }
    } else {
      assert Claims(front, i) == 0;
    }
  }

  predicate MarksRow(s: Sys, a: Action, i: nat) {
    a.Mark? && Held(s, a.worker) != [] && Held(s, a.worker)[0].index == i
  }

  /** What a single action does to a single row. */
  lemma RowMoves(cfg: Config, s: Sys, a: Action, i: nat)
    requires Enabled(cfg, s, a) && i < |Next(cfg, s, a).rows|
    ensures var row' := Next(cfg, s, a).rows[i];
            if i >= |s.rows| then
              a.Append? && row'.status == Pending && row'.processingAt.None? && row'.attempts == 0
            else
              var row := s.rows[i];
              && row'.attempts == row.attempts + (if a.ClaimRows? && i in a.indices then 1 else 0)
              && ((row.status == Processing <==> row.processingAt.Some?) ==>
                    (row'.status == Processing <==> row'.processingAt.Some?))
              && (row'.status == Published ==>
                    row.status == Published || (MarksRow(s, a, i) && Held(s, a.worker)[0].accepted == Some(true)))
              && (row'.status == Dead ==>
                    row.status == Dead || (MarksRow(s, a, i) && Held(s, a.worker)[0].attempts >= cfg.maxAttempts))
  {
  }

  lemma RowsStaySound(cfg: Config, run: seq<Action>)
    requires IsRun(cfg, run) && run != [] && Sound(cfg, run[..|run| - 1])
    ensures forall i :: 0 <= i < |Final(cfg, run).rows| ==> RowIsSound(cfg, run, i)
    ensures forall i :: i >= |Final(cfg, run).rows| ==> Claims(run, i) == 0
  {
    var front := run[..|run| - 1];
    var s, a := Final(cfg, front), run[|run| - 1];
    forall i | 0 <= i < |Final(cfg, run).rows| ensures RowIsSound(cfg, run, i) {
      RowStaysSound(cfg, run, i);
    }
  }

  lemma ItemsStaySound(cfg: Config, run: seq<Action>)
    requires IsRun(cfg, run) && run != [] && Sound(cfg, run[..|run| - 1])
    ensures forall w, k :: 0 <= k < |Held(Final(cfg, run), w)| ==> ItemIsSound(cfg, run, Held(Final(cfg, run), w)[k])
  {
    var front := run[..|run| - 1];
    var s, a := Final(cfg, front), run[|run| - 1];
    forall w, k | 0 <= k < |Held(Final(cfg, run), w)| ensures ItemIsSound(cfg, run, Held(Final(cfg, run), w)[k]) {
      var item := Held(Final(cfg, run), w)[k];
      if a.ClaimRows? && a.worker == w {
        assert item.index == a.indices[k];
      } else if a.Mark? && a.worker == w {
        assert ItemIsSound(cfg, front, Held(s, w)[k + 1]);
      } else {
        assert ItemIsSound(cfg, front, Held(s, w)[k]);
      }
    }
  }

  /** A claim older than the timeout is always found and put back by the next sweep. */
  lemma {:induction false} StaleClaimsComeBack(cfg: Config, run: seq<Action>, i: nat)
    requires IsRun(cfg, run) && i < |Final(cfg, run).rows|
    requires Final(cfg, run).rows[i].status == Processing
    ensures Final(cfg, run).rows[i].processingAt.Some?
    ensures var s := Final(cfg, run);
            s.rows[i].processingAt.value + cfg.processingTimeout <= s.now ==>
              Next(cfg, s, Requeue(s.now - cfg.processingTimeout)).rows[i].status == Pending
  {
    NoRowIsLost(cfg, run);
    assert RowIsSound(cfg, run, i);
  }

  // ----- Exclusive claims

  /** Item k of worker w is the row's current claim. */
  ghost predicate IsCurrent(s: Sys, item: Item) {
    && item.index < |s.rows|
    && s.rows[item.index].status == Processing
    && s.rows[item.index].attempts == item.attempts
    && s.rows[item.index].processingAt == Some(item.claimedAt)
  }

  /** Every held item is current, and no row is held twice. */
  ghost predicate Exclusive(s: Sys) {
    && (forall w, k :: 0 <= k < |Held(s, w)| ==> IsCurrent(s, Held(s, w)[k]))
    && (forall w, k, w', k' :: 0 <= k < |Held(s, w)| && 0 <= k' < |Held(s, w')| && (w != w' || k != k') ==>
          Held(s, w)[k].index != Held(s, w')[k'].index)
  }

  /** Item k of worker w is a claim on row i. */
  ghost predicate Holds(s: Sys, w: nat, k: int, i: nat) {
    0 <= k < |Held(s, w)| && Held(s, w)[k].index == i
  }

  /** The same for a single row. */
  ghost predicate ExclusiveOn(s: Sys, i: nat) {
    && (forall w, k :: Holds(s, w, k, i) ==> IsCurrent(s, Held(s, w)[k]))
    && (forall w, k, w', k' :: Holds(s, w, k, i) && Holds(s, w', k', i) ==> w == w' && k == k')
  }

  lemma ExclusiveByRow(s: Sys)
    ensures Exclusive(s) <==> forall i: nat :: ExclusiveOn(s, i)
  {
    if forall i: nat :: ExclusiveOn(s, i) {
      forall w, k | 0 <= k < |Held(s, w)| ensures IsCurrent(s, Held(s, w)[k]) {
        assert ExclusiveOn(s, Held(s, w)[k].index) && Holds(s, w, k, Held(s, w)[k].index);
      }
      forall w, k, w', k' | 0 <= k < |Held(s, w)| && 0 <= k' < |Held(s, w')| && (w != w' || k != k')
        ensures Held(s, w)[k].index != Held(s, w')[k'].index
      {
        var i := Held(s, w)[k].index;
        assert ExclusiveOn(s, i) && Holds(s, w, k, i);
        assert !Holds(s, w', k', i);
      }
    }
  }

  /** A sweep that takes row i from a worker still holding it. */
  ghost predicate RobsRow(s: Sys, a: Action, i: nat) {
    Requeues(s, a, i) && exists w, k :: Holds(s, w, k, i)
  }

  /** A sweep that takes some row from a worker still holding it. */
  ghost predicate Robs(s: Sys, a: Action) {
    exists i: nat :: RobsRow(s, a, i)
  }

  /** No sweep of the run robs a worker. */
  ghost predicate IsFair(cfg: Config, run: seq<Action>)
    requires IsRun(cfg, run)
  {
    run == [] || (IsFair(cfg, run[..|run| - 1]) && !Robs(Final(cfg, run[..|run| - 1]), run[|run| - 1]))
  }

  /** The item of the old state that an item of the new state came from, if it was held before. */
  function Origin(a: Action, w: nat, k: nat): nat {
    if a.Mark? && a.worker == w then k + 1 else k
  }

  lemma OriginOf(cfg: Config, s: Sys, a: Action, w: nat, k: nat)
    requires Enabled(cfg, s, a) && k < |Held(Next(cfg, s, a), w)| && !(a.ClaimRows? && a.worker == w)
    ensures Holds(s, w, Origin(a, w, k), Held(Next(cfg, s, a), w)[k].index)
    ensures Held(Next(cfg, s, a), w)[k].attempts == Held(s, w)[Origin(a, w, k)].attempts
    ensures Held(Next(cfg, s, a), w)[k].claimedAt == Held(s, w)[Origin(a, w, k)].claimedAt
  {
  }

  /** A row in processing changes only when it is swept or marked. */
  lemma ClaimedRowStays(cfg: Config, s: Sys, a: Action, i: nat)
    requires Enabled(cfg, s, a) && i < |s.rows| && s.rows[i].status == Processing
    requires !Requeues(s, a, i) && (a.Mark? ==> !Holds(s, a.worker, 0, i))
    ensures i < |Next(cfg, s, a).rows| && Next(cfg, s, a).rows[i] == s.rows[i]
  {
  }

  lemma CurrentStaysCurrent(cfg: Config, s: Sys, a: Action, i: nat, w: nat, k: nat)
    requires Enabled(cfg, s, a) && ExclusiveOn(s, i) && !RobsRow(s, a, i) && Holds(Next(cfg, s, a), w, k, i)
    ensures IsCurrent(Next(cfg, s, a), Held(Next(cfg, s, a), w)[k])
  {
    if !(a.ClaimRows? && a.worker == w) {
      OriginOf(cfg, s, a, w, k);
      assert IsCurrent(s, Held(s, w)[Origin(a, w, k)]);
      assert a.Mark? ==> !Holds(s, a.worker, 0, i);
      ClaimedRowStays(cfg, s, a, i);
    }
  }

  lemma DistinctStaysDistinct(cfg: Config, s: Sys, a: Action, i: nat, w: nat, k: nat, w': nat, k': nat)
    requires Enabled(cfg, s, a) && ExclusiveOn(s, i)
    requires Holds(Next(cfg, s, a), w, k, i) && Holds(Next(cfg, s, a), w', k', i)
    ensures w == w' && k == k'
  {
    if !(a.ClaimRows? && a.worker == w) {
      OriginOf(cfg, s, a, w, k);
      assert IsCurrent(s, Held(s, w)[Origin(a, w, k)]);
    }
    if !(a.ClaimRows? && a.worker == w') {
      OriginOf(cfg, s, a, w', k');
      assert IsCurrent(s, Held(s, w')[Origin(a, w', k')]);
    }
    assert a.ClaimRows? ==> forall m, n :: 0 <= m < n < |a.indices| ==> a.indices[m] != a.indices[n];
  }

  /** A row's exclusiveness survives every action except exactly the sweeps that take the row from a holder. */
  lemma OnlyRobbingBreaksRow(cfg: Config, s: Sys, a: Action, i: nat)
    requires Enabled(cfg, s, a) && ExclusiveOn(s, i)
    ensures ExclusiveOn(Next(cfg, s, a), i) <==> !RobsRow(s, a, i)
  {
    var s' := Next(cfg, s, a);
    if RobsRow(s, a, i) {
      var w, k :| Holds(s, w, k, i);
      assert Holds(s', w, k, i) && !IsCurrent(s', Held(s', w)[k]);
    } else {
      forall w, k | Holds(s', w, k, i) ensures IsCurrent(s', Held(s', w)[k]) {
        CurrentStaysCurrent(cfg, s, a, i, w, k);
      }
      forall w, k, w', k' | Holds(s', w, k, i) && Holds(s', w', k', i) ensures w == w' && k == k' {
        DistinctStaysDistinct(cfg, s, a, i, w, k, w', k');
      }
    }
  }

  /** Exclusiveness survives every action except exactly the sweeps that rob a worker. */
  lemma OnlyRobbingBreaksClaims(cfg: Config, s: Sys, a: Action)
    requires Enabled(cfg, s, a) && Exclusive(s)
    ensures Exclusive(Next(cfg, s, a)) <==> !Robs(s, a)
  {
    var s' := Next(cfg, s, a);
    ExclusiveByRow(s);
    ExclusiveByRow(s');
    forall i: nat ensures ExclusiveOn(s', i) <==> !RobsRow(s, a, i) {
      assert ExclusiveOn(s, i);
      OnlyRobbingBreaksRow(cfg, s, a, i);
    }
  }

  /** In a fair run no row is ever held by two workers, and every write lands on the worker's own claim. */
  lemma {:induction false} FairRunsAreExclusive(cfg: Config, run: seq<Action>)
    requires IsRun(cfg, run) && IsFair(cfg, run)
    ensures Exclusive(Final(cfg, run))
  {
    if run != [] {
      FairRunsAreExclusive(cfg, run[..|run| - 1]);
      OnlyRobbingBreaksClaims(cfg, Final(cfg, run[..|run| - 1]), run[|run| - 1]);
    }
  }

  /** In a fair run, claims never exceed the allowed attempts plus the reprieves; a pending row has one left. */
  lemma {:induction false} DeliveryEffortIsBounded(cfg: Config, run: seq<Action>, i: nat)
    requires IsRun(cfg, run) && IsFair(cfg, run) && i < |Final(cfg, run).rows| && cfg.maxAttempts > 0
    ensures Claims(run, i) == Final(cfg, run).rows[i].attempts
    ensures Claims(run, i) <= cfg.maxAttempts + Reprieves(cfg, run, i)
    ensures Final(cfg, run).rows[i].status == Pending ==> Claims(run, i) < cfg.maxAttempts + Reprieves(cfg, run, i)
  {
    NoRowIsLost(cfg, run);
    assert RowIsSound(cfg, run, i);
    if run != [] {
      var front := run[..|run| - 1];
      var s, a := Final(cfg, front), run[|run| - 1];
      NoRowIsLost(cfg, front);
      if i < |s.rows| {
        DeliveryEffortIsBounded(cfg, front, i);
        FairRunsAreExclusive(cfg, front);
        if a.Mark? {
          assert IsCurrent(s, Held(s, a.worker)[0]);
        }
      } else {
        assert Claims(front, i) == 0;
      }
    }
  }

  // ----- Two ways to be fair

  /** Every worker finishes with an item, or dies, within the processing timeout of its claim. */
  ghost predicate IsLeased(cfg: Config, run: seq<Action>)
    requires IsRun(cfg, run)
  {
    && (run == [] || IsLeased(cfg, run[..|run| - 1]))
    && forall w, k :: 0 <= k < |Held(Final(cfg, run), w)| ==>
         Final(cfg, run).now < Held(Final(cfg, run), w)[k].claimedAt + cfg.processingTimeout
  }

  lemma {:induction false} LeasedRunsAreFair(cfg: Config, run: seq<Action>)
    requires IsRun(cfg, run) && IsLeased(cfg, run)
    ensures IsFair(cfg, run)
  {
    if run != [] {
      var front := run[..|run| - 1];
      var s, a := Final(cfg, front), run[|run| - 1];
      LeasedRunsAreFair(cfg, front);
      FairRunsAreExclusive(cfg, front);
      forall i: nat, w, k | Holds(s, w, k, i) ensures !Requeues(s, a, i) {
        assert IsCurrent(s, Held(s, w)[k]);
      }
    }
  }

  /** One dispatcher: only worker 0 claims, and it sweeps only between batches. */
  ghost predicate IsSolo(cfg: Config, run: seq<Action>)
    requires IsRun(cfg, run)
  {
    run == [] ||
    (var s, a := Final(cfg, run[..|run| - 1]), run[|run| - 1];
     && IsSolo(cfg, run[..|run| - 1])
     && (a.ClaimRows? ==> a.worker == 0)
     && (a.Requeue? ==> Held(s, 0) == []))
  }

  lemma {:induction false} SoloRunsAreFair(cfg: Config, run: seq<Action>)
    requires IsRun(cfg, run) && IsSolo(cfg, run)
    ensures IsFair(cfg, run)
    ensures forall w :: w in Final(cfg, run).held && w != 0 ==> Final(cfg, run).held[w] == []
  {
    if run != [] {
      SoloRunsAreFair(cfg, run[..|run| - 1]);
    }
  }
}
