/** When a published row stays published: exactly which writes undo it, and which sweeps make those writes possible. */
module PublishedRows {
  import opened Prelude
  import opened ChatModel
  import opened OutboxProtocol
  import opened OutboxSafety

  /** The action writes a failure on row i. */
  ghost predicate FailsRow(s: Sys, a: Action, i: nat) {
    && a.Mark? && a.written && Held(s, a.worker) != []
    && Held(s, a.worker)[0].index == i && Held(s, a.worker)[0].accepted == Some(false)
  }

  /** A published row stops being published by exactly the writes of a failure on it; all else leaves it published. */
  lemma PublishedLeavesByFailure(cfg: Config, s: Sys, a: Action, i: nat)
    requires Enabled(cfg, s, a) && i < |s.rows| && s.rows[i].status == Published
    ensures i < |Next(cfg, s, a).rows|
    ensures Next(cfg, s, a).rows[i].status != Published <==> FailsRow(s, a, i)
  {
  }

  // ----- Only after a sweep that took the row from a holder

  /** No sweep of the run takes row i from a worker still holding it. */
  ghost predicate NeverRobbed(cfg: Config, run: seq<Action>, i: nat)
    requires IsRun(cfg, run)
  {
    run == [] || (NeverRobbed(cfg, run[..|run| - 1], i) && !RobsRow(Final(cfg, run[..|run| - 1]), run[|run| - 1], i))
  }

  lemma {:induction false} FairRunsRobNoRow(cfg: Config, run: seq<Action>, i: nat)
    requires IsRun(cfg, run) && IsFair(cfg, run)
    ensures NeverRobbed(cfg, run, i)
  {
    if run != [] {
      FairRunsRobNoRow(cfg, run[..|run| - 1], i);
    }
  }

  /** A row nobody was robbed of is held at most once, by its current claim, whatever happened to other rows. */
  lemma {:induction false} UnrobbedRowIsExclusive(cfg: Config, run: seq<Action>, i: nat)
    requires IsRun(cfg, run) && NeverRobbed(cfg, run, i)
    ensures ExclusiveOn(Final(cfg, run), i)
  {
    if run != [] {
      UnrobbedRowIsExclusive(cfg, run[..|run| - 1], i);
      OnlyRobbingBreaksRow(cfg, Final(cfg, run[..|run| - 1]), run[|run| - 1], i);
    }
  }

  /** Action n of the run is a sweep that takes row i from a holder. */
  ghost predicate RobsAt(cfg: Config, run: seq<Action>, n: nat, i: nat) {
    n < |run| && IsRun(cfg, run[..n]) && RobsRow(Final(cfg, run[..n]), run[n], i)
  }

  lemma {:induction false} RobberyIsOnRecord(cfg: Config, run: seq<Action>, i: nat) returns (n: nat)
    requires IsRun(cfg, run) && !NeverRobbed(cfg, run, i)
    ensures RobsAt(cfg, run, n, i)
  {
    n := |run| - 1;
    if !RobsRow(Final(cfg, run[..n]), run[n], i) {
      var front := run[..n];
      n := RobberyIsOnRecord(cfg, front, i);
      assert front[..n] == run[..n] && front[n] == run[n];
    }
  }

  /** A row that was never taken from a holder stays as it is once it is published. */
  lemma {:induction false} PublishedIsFinal(cfg: Config, run: seq<Action>, n: nat, i: nat)
    requires IsRun(cfg, run) && NeverRobbed(cfg, run, i) && n <= |run|
    requires IsRun(cfg, run[..n]) && i < |Final(cfg, run[..n]).rows| && Final(cfg, run[..n]).rows[i].status == Published
    ensures i < |Final(cfg, run).rows| && Final(cfg, run).rows[i] == Final(cfg, run[..n]).rows[i]
  {
    if n == |run| {
      assert run[..n] == run;
    } else {
      var front := run[..|run| - 1];
      assert front[..n] == run[..n];
      PublishedIsFinal(cfg, front, n, i);
      UnrobbedRowIsExclusive(cfg, front, i);
      var s, a := Final(cfg, front), run[|run| - 1];
      assert a.Mark? ==> !Holds(s, a.worker, 0, i);
    }
  }

  /**
    In every run, with no assumption on timing: a row that stops being published does so by a failure that a worker
    writes on it, and only after an earlier sweep took that row from a worker still holding it.
   */
  lemma UnpublishingFollowsARobbery(cfg: Config, run: seq<Action>, i: nat) returns (n: nat)
    requires IsRun(cfg, run) && run != [] && i < |Final(cfg, run[..|run| - 1]).rows|
    requires Final(cfg, run[..|run| - 1]).rows[i].status == Published
    requires i < |Final(cfg, run).rows| && Final(cfg, run).rows[i].status != Published
    ensures FailsRow(Final(cfg, run[..|run| - 1]), run[|run| - 1], i)
    ensures n < |run| - 1 && RobsAt(cfg, run, n, i)
  {
    var front := run[..|run| - 1];
    var s, a := Final(cfg, front), run[|run| - 1];
    PublishedLeavesByFailure(cfg, s, a, i);
    if NeverRobbed(cfg, front, i) {
      UnrobbedRowIsExclusive(cfg, front, i);
      assert Holds(s, a.worker, 0, i);
      assert false;
    }
    n := RobberyIsOnRecord(cfg, front, i);
    assert front[..n] == run[..n] && front[n] == run[n];
  }

  // ----- Without leases, published is not final

  /** Worker 0 claims and stalls past the timeout; worker 1 delivers; worker 0 then fails and marks the row. */
  function StalledRun(cfg: Config, e: Event): seq<Action> {
    [Append([e]), ClaimRows(0, [0], 0), Tick(cfg.processingTimeout), Requeue(0),
     ClaimRows(1, [0], cfg.processingTimeout),
     Publish(1, true), Mark(1, true), Publish(0, false), Mark(0, true)]
  }

  /** The states that run passes through. */
  function StalledState(cfg: Config, e: Event, i: nat): Sys {
    var t := cfg.processingTimeout;
    var claimed := ClaimRow(NewRow(e), 0);
    var back := RequeueRow(claimed, t);
    var again := ClaimRow(back, t);
    var done := MarkPublishedRow(again, t);
    var one, two := Item(0, 1, 0, None), Item(0, 2, t, None);
    var lost := one.(accepted := Some(false));
    if i == 0 then START
    else if i == 1 then Sys(0, [NewRow(e)], map[])
    else if i == 2 then Sys(0, [claimed], map[0 := [one]])
    else if i == 3 then Sys(t, [claimed], map[0 := [one]])
    else if i == 4 then Sys(t, [back], map[0 := [one]])
    else if i == 5 then Sys(t, [again], map[0 := [one], 1 := [two]])
    else if i == 6 then Sys(t, [again], map[0 := [one], 1 := [two.(accepted := Some(true))]])
    else if i == 7 then Sys(t, [done], map[0 := [one], 1 := []])
    else if i == 8 then Sys(t, [done], map[0 := [lost], 1 := []])
    else Sys(t, [OutcomeRow(cfg, done, lost, t)], map[0 := [], 1 := []])
  }

  lemma StalledStepEarly(cfg: Config, e: Event, i: nat)
    requires ValidConfig(cfg) && i < 5
    ensures Enabled(cfg, StalledState(cfg, e, i), StalledRun(cfg, e)[i])
    ensures Next(cfg, StalledState(cfg, e, i), StalledRun(cfg, e)[i]) == StalledState(cfg, e, i + 1)
  {
    var s, s' := StalledState(cfg, e, i), StalledState(cfg, e, i + 1);
    if i == 1 || i == 4 {
      assert Claimed(s, [0]) == s'.rows;
      assert ClaimItems(s, [0]) == Held(s', if i == 1 then 0 else 1);
    } else if i == 3 {
      assert Requeued(s, 0) == s'.rows;
    }
  }

  lemma StalledStepLate(cfg: Config, e: Event, i: nat)
    requires ValidConfig(cfg) && 5 <= i < 9
    ensures Enabled(cfg, StalledState(cfg, e, i), StalledRun(cfg, e)[i])
    ensures Next(cfg, StalledState(cfg, e, i), StalledRun(cfg, e)[i]) == StalledState(cfg, e, i + 1)
  {
    var n, s' := Next(cfg, StalledState(cfg, e, i), StalledRun(cfg, e)[i]), StalledState(cfg, e, i + 1);
    assert n.rows == s'.rows;
    assert Held(n, 0) == Held(s', 0) && Held(n, 1) == Held(s', 1);
    assert n.held == s'.held;
  }

  lemma {:induction false} StalledPrefix(cfg: Config, e: Event, i: nat)
    requires ValidConfig(cfg) && i <= 9
    ensures IsRun(cfg, StalledRun(cfg, e)[..i]) && Final(cfg, StalledRun(cfg, e)[..i]) == StalledState(cfg, e, i)
  {
    if i > 0 {
      StalledPrefix(cfg, e, i - 1);
      if i <= 5 {
        StalledStepEarly(cfg, e, i - 1);
      } else {
        StalledStepLate(cfg, e, i - 1);
      }
      assert StalledRun(cfg, e)[..i][..i - 1] == StalledRun(cfg, e)[..i - 1];
    }
  }

  /** A worker that outlives its lease undoes a published row. */
  lemma StalledWorkerUnpublishes(cfg: Config, e: Event)
    requires ValidConfig(cfg)
    ensures IsRun(cfg, StalledRun(cfg, e)) && IsRun(cfg, StalledRun(cfg, e)[..7])
    ensures Final(cfg, StalledRun(cfg, e)[..7]).rows[0].status == Published
    ensures Final(cfg, StalledRun(cfg, e)).rows[0].status != Published
  {
    StalledPrefix(cfg, e, 7);
    StalledPrefix(cfg, e, 9);
    assert StalledRun(cfg, e)[..9] == StalledRun(cfg, e);
  }

  // ----- The worker that undoes it need not be the one that was robbed

  function Pause(cfg: Config): nat {
    if Delay64(cfg, 1) > 0 then Delay64(cfg, 1) else 0
  }

  /**
    As before up to worker 1's claim. Then the robbed worker 0 fails and puts the row back under worker 1, worker 2
    delivers it, and worker 1, which nobody robbed, fails and undoes that.
   */
  function BystanderRun(cfg: Config, e: Event): seq<Action> {
    var t := cfg.processingTimeout;
    [Append([e]), ClaimRows(0, [0], 0), Tick(t), Requeue(0), ClaimRows(1, [0], t),
     Publish(0, false), Mark(0, true), Tick(Pause(cfg)), ClaimRows(2, [0], t + Pause(cfg)),
     Publish(2, true), Mark(2, true), Publish(1, false), Mark(1, true)]
  }

  function BystanderState(cfg: Config, e: Event, i: nat): Sys {
    var t, u := cfg.processingTimeout, cfg.processingTimeout + Pause(cfg);
    var again := ClaimRow(RequeueRow(ClaimRow(NewRow(e), 0), t), t);
    var back := MarkForRetryRow(again, t + Delay64(cfg, 1));
    var third := ClaimRow(back, u);
    var done := MarkPublishedRow(third, u);
    var one, two, three := Item(0, 1, 0, Some(false)), Item(0, 2, t, None), Item(0, 3, u, None);
    var lost := two.(accepted := Some(false));
    if i <= 5 then StalledState(cfg, e, i)
    else if i == 6 then Sys(t, [again], map[0 := [one], 1 := [two]])
    else if i == 7 then Sys(t, [back], map[0 := [], 1 := [two]])
    else if i == 8 then Sys(u, [back], map[0 := [], 1 := [two]])
    else if i == 9 then Sys(u, [third], map[0 := [], 1 := [two], 2 := [three]])
    else if i == 10 then Sys(u, [third], map[0 := [], 1 := [two], 2 := [three.(accepted := Some(true))]])
    else if i == 11 then Sys(u, [done], map[0 := [], 1 := [two], 2 := []])
    else if i == 12 then Sys(u, [done], map[0 := [], 1 := [lost], 2 := []])
    else Sys(u, [OutcomeRow(cfg, done, lost, u)], map[0 := [], 1 := [], 2 := []])
  }

  lemma BystanderStep(cfg: Config, e: Event, i: nat)
    requires ValidConfig(cfg) && cfg.maxAttempts > 1 && 5 <= i < 13
    ensures Enabled(cfg, BystanderState(cfg, e, i), BystanderRun(cfg, e)[i])
    ensures Next(cfg, BystanderState(cfg, e, i), BystanderRun(cfg, e)[i]) == BystanderState(cfg, e, i + 1)
  {
    if i < 8 {
      BystanderGoesBack(cfg, e, i);
    } else if i == 8 {
      BystanderThirdClaim(cfg, e);
    } else {
      BystanderEnds(cfg, e, i);
    }
  }

  lemma BystanderGoesBack(cfg: Config, e: Event, i: nat)
    requires ValidConfig(cfg) && cfg.maxAttempts > 1 && 5 <= i < 8
    ensures Enabled(cfg, BystanderState(cfg, e, i), BystanderRun(cfg, e)[i])
    ensures Next(cfg, BystanderState(cfg, e, i), BystanderRun(cfg, e)[i]) == BystanderState(cfg, e, i + 1)
  {
    var n, s' := Next(cfg, BystanderState(cfg, e, i), BystanderRun(cfg, e)[i]), BystanderState(cfg, e, i + 1);
    assert n.rows == s'.rows;
    assert Held(n, 0) == Held(s', 0) && Held(n, 1) == Held(s', 1);
    assert n.held == s'.held;
  }

  lemma BystanderThirdClaim(cfg: Config, e: Event)
    requires ValidConfig(cfg) && cfg.maxAttempts > 1
    ensures Enabled(cfg, BystanderState(cfg, e, 8), BystanderRun(cfg, e)[8])
    ensures Next(cfg, BystanderState(cfg, e, 8), BystanderRun(cfg, e)[8]) == BystanderState(cfg, e, 9)
  {
    var s, s' := BystanderState(cfg, e, 8), BystanderState(cfg, e, 9);
    assert IsEligible(s.rows[0], s.now);
    assert Claimed(s, [0]) == s'.rows;
    assert ClaimItems(s, [0]) == Held(s', 2);
    assert s.held[2 := Held(s', 2)] == s'.held;
  }

  lemma BystanderEnds(cfg: Config, e: Event, i: nat)
    requires ValidConfig(cfg) && cfg.maxAttempts > 1 && 9 <= i < 13
    ensures Enabled(cfg, BystanderState(cfg, e, i), BystanderRun(cfg, e)[i])
    ensures Next(cfg, BystanderState(cfg, e, i), BystanderRun(cfg, e)[i]) == BystanderState(cfg, e, i + 1)
  {
    var n, s' := Next(cfg, BystanderState(cfg, e, i), BystanderRun(cfg, e)[i]), BystanderState(cfg, e, i + 1);
    assert n.rows == s'.rows;
    assert Held(n, 0) == Held(s', 0) && Held(n, 1) == Held(s', 1) && Held(n, 2) == Held(s', 2);
    assert n.held == s'.held;
  }

  lemma {:induction false} BystanderPrefix(cfg: Config, e: Event, i: nat)
    requires ValidConfig(cfg) && cfg.maxAttempts > 1 && i <= 13
    ensures IsRun(cfg, BystanderRun(cfg, e)[..i])
    ensures Final(cfg, BystanderRun(cfg, e)[..i]) == BystanderState(cfg, e, i)
  {
    if i <= 5 {
      StalledPrefix(cfg, e, i);
      assert BystanderRun(cfg, e)[..i] == StalledRun(cfg, e)[..i];
    } else {
      BystanderPrefix(cfg, e, i - 1);
      BystanderStep(cfg, e, i - 1);
      assert BystanderRun(cfg, e)[..i][..i - 1] == BystanderRun(cfg, e)[..i - 1];
    }
  }

  /** The run's one sweep comes before worker 1 holds anything. */
  lemma BystanderIsNotRobbed(cfg: Config, e: Event, n: nat)
    requires ValidConfig(cfg) && cfg.maxAttempts > 1 && n < 13 && BystanderRun(cfg, e)[n].Requeue?
    ensures IsRun(cfg, BystanderRun(cfg, e)[..n]) && Held(Final(cfg, BystanderRun(cfg, e)[..n]), 1) == []
  {
    BystanderPrefix(cfg, e, 3);
  }

  /** Worker 1 undoes a published row although no sweep of the run takes anything from it. */
  lemma BystanderUnpublishes(cfg: Config, e: Event)
    requires ValidConfig(cfg) && cfg.maxAttempts > 1
    ensures IsRun(cfg, BystanderRun(cfg, e)[..12]) && IsRun(cfg, BystanderRun(cfg, e)[..13])
    ensures Final(cfg, BystanderRun(cfg, e)[..12]).rows[0].status == Published
    ensures BystanderRun(cfg, e)[12] == Mark(1, true)
    ensures FailsRow(Final(cfg, BystanderRun(cfg, e)[..12]), Mark(1, true), 0)
    ensures Final(cfg, BystanderRun(cfg, e)[..13]).rows[0].status != Published
    ensures forall n :: 0 <= n < 13 && BystanderRun(cfg, e)[n].Requeue? ==>
              IsRun(cfg, BystanderRun(cfg, e)[..n]) && Held(Final(cfg, BystanderRun(cfg, e)[..n]), 1) == []
  {
    BystanderPrefix(cfg, e, 12);
    BystanderPrefix(cfg, e, 13);
    forall n | 0 <= n < 13 && BystanderRun(cfg, e)[n].Requeue?
      ensures IsRun(cfg, BystanderRun(cfg, e)[..n]) && Held(Final(cfg, BystanderRun(cfg, e)[..n]), 1) == []
    {
      BystanderIsNotRobbed(cfg, e, n);
    }
  }
}
