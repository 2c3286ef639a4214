/** The outbox table and a dispatcher's round as they run: loops over rows that update them in place. */
module OutboxDispatchers {
  import opened Prelude
  import opened OutboxProtocol

  /** One item of a round: the time passing before and during its publish, and what transport and database answer. */
  datatype Turn = Turn(wait: nat, accepted: bool, took: nat, written: bool)

  /** How a round begins: whether its sweep and its claiming transaction fail, and the time between them. */
  datatype Opening = Opening(sweepFails: bool, pause: nat, fetchFails: bool)

  function SweepOf(cfg: Config, now: nat, opening: Opening): seq<Action> {
    (if opening.sweepFails then [] else [Requeue(now - cfg.processingTimeout)]) + [Tick(opening.pause)]
  }

  function TurnOf(worker: nat, turn: Turn): seq<Action> {
    [Tick(turn.wait), Publish(worker, turn.accepted), Tick(turn.took), Mark(worker, turn.written)]
  }

  /** Publishing and marking one item after the other. */
  function Handled(worker: nat, turns: seq<Turn>): seq<Action> {
    if turns == [] then []
    else
      Handled(worker, turns[..|turns| - 1]) + TurnOf(worker, turns[|turns| - 1])
  }

  lemma HandledSnoc(worker: nat, turns: seq<Turn>, turn: Turn)
    ensures Handled(worker, turns + [turn]) == Handled(worker, turns) + TurnOf(worker, turn)
  {
    assert (turns + [turn])[..|turns|] == turns;
  }

  ghost predicate Reaches(cfg: Config, run: seq<Action>, s: Sys) {
    IsRun(cfg, run) && Final(cfg, run) == s
  }

  lemma FourMore(run: seq<Action>, a: Action, b: Action, c: Action, d: Action)
    ensures run + [a] + [b] + [c] + [d] == run + [a, b, c, d]
  {
  }

  class OutboxTable {
    var now: nat
    var rows: seq<OutboxRow>
    var held: map<nat, seq<Item>>

    function State(): Sys
      reads this
    {
      Sys(now, rows, held)
    }

    /** Claims the eligible rows with the lowest ids, up to the limit. */
    method FetchPendingForUpdate(cfg: Config, worker: nat, limit: int, retryableBefore: nat)
      returns (items: seq<Item>, ghost a: Action)
      requires Held(State(), worker) == [] && retryableBefore <= now
      modifies this
      ensures a.ClaimRows? && a.worker == worker && a.retryableBefore == retryableBefore
              && Enabled(cfg, old(State()), a)
      ensures State() == Next(cfg, old(State()), a) && items == Held(State(), worker)
      ensures TakesFirst(old(State()), a, LimitOf(limit))
      ensures |items| == |a.indices| <= LimitOf(limit) && |rows| == |old(rows)|
      ensures forall k :: 0 <= k < |items| ==> items[k].index < |rows| && items[k].accepted.None?
      ensures forall w :: w != worker ==> Held(State(), w) == Held(old(State()), w)
    {
      var ids: seq<nat> := [];
      var i := 0;
      while i < |rows| && |ids| < LimitOf(limit)
        invariant 0 <= i <= |rows| && |ids| <= LimitOf(limit)
        invariant Ascending(ids)
        invariant forall j :: 0 <= j < i && IsEligible(rows[j], retryableBefore) ==> j in ids
        invariant forall k :: 0 <= k < |ids| ==> ids[k] < i && IsEligible(rows[ids[k]], retryableBefore)
      {
        if IsEligible(rows[i], retryableBefore) {
          ids := ids + [i];
        }
        i := i + 1;
      }
      a := ClaimRows(worker, ids, retryableBefore);
      items := ClaimSelected(ids);
      held := held[worker := items];
    }

    /** Takes the selected rows, bumping each row's attempts. */
    method ClaimSelected(ids: seq<nat>) returns (items: seq<Item>)
      requires Ascending(ids) && forall k :: 0 <= k < |ids| ==> ids[k] < |rows|
      modifies this`rows
      ensures rows == Claimed(old(State()), ids) && items == ClaimItems(old(State()), ids)
    {
      items := [];
      ghost var before := State();
      for k := 0 to |ids|
        modifies this`rows
        invariant State() == before.(rows := rows) && |rows| == |before.rows|
        invariant forall j :: 0 <= j < |rows| ==>
            rows[j] == if j in ids[..k] then ClaimRow(before.rows[j], now) else before.rows[j]
        invariant items == ClaimItems(before, ids)[..k]
      {
        assert ids[..k + 1] == ids[..k] + [ids[k]];
        forall j | 0 <= j < k ensures ids[j] != ids[k] {
        }
        rows := rows[ids[k] := ClaimRow(rows[ids[k]], now)];
        items := items + [Item(ids[k], rows[ids[k]].attempts, now, None)];
      }
      assert ids[..|ids|] == ids;
      assert rows == Claimed(before, ids);
      assert items == ClaimItems(before, ids);
    }

    method RequeueStaleProcessing(staleBefore: int)
      modifies this`rows
      ensures rows == Requeued(old(State()), staleBefore)
    {
      for i := 0 to |rows|
        modifies this`rows
        invariant |rows| == |old(rows)|
        invariant forall j :: 0 <= j < |rows| ==>
            rows[j] == if j < i && IsStale(old(rows)[j], staleBefore) then RequeueRow(old(rows)[j], now)
                       else old(rows)[j]
      {
        if IsStale(rows[i], staleBefore) {
          rows := rows[i := RequeueRow(rows[i], now)];
        }
      }
    }

    method ReplayDead(limit: int) returns (revived: nat)
      modifies this`rows
      ensures rows == Revived(old(State()), LimitOf(limit))
      ensures revived == Min(CountDead(old(rows)), LimitOf(limit))
    {
      revived := 0;
      for i := 0 to |rows|
        modifies this`rows
        invariant |rows| == |old(rows)|
        invariant revived == Min(CountDead(old(rows)[..i]), LimitOf(limit))
        invariant forall j :: 0 <= j < |rows| ==>
            rows[j] == if j < i && old(rows)[j].status == Dead && CountDead(old(rows)[..j]) < LimitOf(limit)
                       then RequeueRow(old(rows)[j], now) else old(rows)[j]
      {
        assert old(rows)[..i + 1][..i] == old(rows)[..i];
        if rows[i].status == Dead && revived < LimitOf(limit) {
          rows := rows[i := RequeueRow(rows[i], now)];
          revived := revived + 1;
        }
      }
      assert old(rows)[..|old(rows)|] == old(rows);
    }

    /** The write after a publish attempt, by row id alone. */
    method WriteOutcome(cfg: Config, item: Item)
      requires item.index < |rows| && item.accepted.Some?
      modifies this`rows
      ensures rows == old(rows)[item.index := OutcomeRow(cfg, old(rows)[item.index], item, now)]
    {
      var row := rows[item.index];
      if item.accepted.value {
        row := row.(status := Published, publishedAt := Some(now), processingAt := None, nextRetryAt := None);
      } else if item.attempts >= cfg.maxAttempts {
        row := row.(status := Dead, processingAt := None, nextRetryAt := None);
      } else {
        row := row.(status := Pending, processingAt := None, nextRetryAt := Some(now + Delay64(cfg, item.attempts)));
      }
      rows := rows[item.index := row];
    }

    /**
      One round of a dispatcher: sweep stale claims, claim a batch, then publish and mark each item in turn.
      Whatever the transport and the database answer, the round is exactly these actions of the protocol.
     */
    method DispatchOnce(cfg: Config, worker: nat, batch: int, opening: Opening, turns: seq<Turn>,
                        ghost run: seq<Action>)
      returns (ghost run': seq<Action>, ghost claim: Action)
      requires Reaches(cfg, run, State()) && Held(State(), worker) == []
      requires |turns| >= LimitOf(batch)
      modifies this
      ensures Reaches(cfg, run', State())
      ensures opening.fetchFails ==> run' == run + SweepOf(cfg, old(now), opening)
      ensures !opening.fetchFails ==>
                && claim.ClaimRows? && claim.worker == worker && claim.retryableBefore == old(now) + opening.pause
                && |claim.indices| <= |turns|
                && run' == run + SweepOf(cfg, old(now), opening) + [claim] + Handled(worker, turns[..|claim.indices|])
                && IsRun(cfg, run + SweepOf(cfg, old(now), opening))
                && TakesFirst(Final(cfg, run + SweepOf(cfg, old(now), opening)), claim, LimitOf(batch))
      ensures Held(State(), worker) == []
      ensures forall w :: w != worker ==> Held(State(), w) == Held(old(State()), w)
    {
      ghost var swept := SweepStale(cfg, opening, run);
      claim := Crash(worker);
      if opening.fetchFails {
        return swept, claim;
      }
      var items;
      items, claim := ClaimBatch(cfg, worker, batch, swept);
      run' := HandleItems(cfg, worker, items, turns, swept + [claim]);
    }

    method SweepStale(cfg: Config, opening: Opening, ghost run: seq<Action>) returns (ghost run': seq<Action>)
      requires Reaches(cfg, run, State())
      modifies this`rows, this`now
      ensures run' == run + SweepOf(cfg, old(now), opening) && Reaches(cfg, run', State())
      ensures now == old(now) + opening.pause
    {
      run' := run;
      if !opening.sweepFails {
        RequeueStaleProcessing(now - cfg.processingTimeout);
        RunSnoc(cfg, run, Requeue(now - cfg.processingTimeout));
        run' := run + [Requeue(now - cfg.processingTimeout)];
      }
      RunSnoc(cfg, run', Tick(opening.pause));
      run' := run' + [Tick(opening.pause)];
      now := now + opening.pause;
    }

    method ClaimBatch(cfg: Config, worker: nat, batch: int, ghost run: seq<Action>)
      returns (items: seq<Item>, ghost claim: Action)
      requires Reaches(cfg, run, State()) && Held(State(), worker) == []
      modifies this
      ensures claim.ClaimRows? && claim.worker == worker && claim.retryableBefore == old(now)
      ensures |claim.indices| == |items|
      ensures TakesFirst(old(State()), claim, LimitOf(batch)) && |items| <= LimitOf(batch)
      ensures Reaches(cfg, run + [claim], State()) && items == Held(State(), worker)
      ensures forall k :: 0 <= k < |items| ==> items[k].index < |rows| && items[k].accepted.None?
      ensures forall w :: w != worker ==> Held(State(), w) == Held(old(State()), w)
    {
      items, claim := FetchPendingForUpdate(cfg, worker, batch, now);
      RunSnoc(cfg, run, claim);
    }

    method HandleItems(cfg: Config, worker: nat, items: seq<Item>, turns: seq<Turn>, ghost run: seq<Action>)
      returns (ghost run': seq<Action>)
      requires Reaches(cfg, run, State()) && Held(State(), worker) == items && |turns| >= |items|
      requires forall k :: 0 <= k < |items| ==> items[k].index < |rows| && items[k].accepted.None?
      modifies this
      ensures run' == run + Handled(worker, turns[..|items|]) && Reaches(cfg, run', State())
      ensures Held(State(), worker) == []
      ensures forall w :: w != worker ==> Held(State(), w) == Held(old(State()), w)
    {
      run' := run;
      for i := 0 to |items|
        modifies this
        invariant run' == run + Handled(worker, turns[..i]) && Reaches(cfg, run', State())
        invariant Held(State(), worker) == items[i..] && |rows| == |old(rows)|
        invariant forall w :: w != worker ==> Held(State(), w) == Held(old(State()), w)
      {
        assert items[i..][1..] == items[i + 1..];
        assert turns[..i + 1] == turns[..i] + [turns[i]];
        HandledSnoc(worker, turns[..i], turns[i]);
        run' := HandleItem(cfg, worker, items[i], turns[i], run');
      }
    }

    method Wait(cfg: Config, elapsed: nat, ghost run: seq<Action>) returns (ghost run': seq<Action>)
      requires Reaches(cfg, run, State())
      modifies this`now
      ensures run' == run + [Tick(elapsed)] && Reaches(cfg, run', State())
    {
      RunSnoc(cfg, run, Tick(elapsed));
      run' := run + [Tick(elapsed)];
      now := now + elapsed;
    }

    method PublishItem(cfg: Config, worker: nat, item: Item, accepted: bool, ghost run: seq<Action>)
      returns (sent: Item, ghost run': seq<Action>)
      requires Reaches(cfg, run, State())
      requires Held(State(), worker) != [] && Held(State(), worker)[0] == item
      requires item.index < |rows| && item.accepted.None?
      modifies this`held
      ensures run' == run + [Publish(worker, accepted)] && Reaches(cfg, run', State())
      ensures sent == item.(accepted := Some(accepted))
      ensures Held(State(), worker) == [sent] + Held(old(State()), worker)[1..]
      ensures forall w :: w != worker ==> Held(State(), w) == Held(old(State()), w)
    {
      sent := item.(accepted := Some(accepted));
      var rest := held[worker][1..];
      RunSnoc(cfg, run, Publish(worker, accepted));
      run' := run + [Publish(worker, accepted)];
      assert held[worker][0 := sent] == [sent] + rest;
      held := held[worker := [sent] + rest];
    }

    method MarkItem(cfg: Config, worker: nat, sent: Item, written: bool, ghost run: seq<Action>)
      returns (ghost run': seq<Action>)
      requires Reaches(cfg, run, State())
      requires Held(State(), worker) != [] && Held(State(), worker)[0] == sent
      requires sent.index < |rows| && sent.accepted.Some?
      modifies this`held, this`rows
      ensures run' == run + [Mark(worker, written)] && Reaches(cfg, run', State())
      ensures Held(State(), worker) == Held(old(State()), worker)[1..] && |rows| == |old(rows)|
      ensures forall w :: w != worker ==> Held(State(), w) == Held(old(State()), w)
    {
      RunSnoc(cfg, run, Mark(worker, written));
      run' := run + [Mark(worker, written)];
      if written {
        WriteOutcome(cfg, sent);
      }
      held := held[worker := held[worker][1..]];
    }

    /** Publishes the first held item and writes the outcome. */
    method HandleItem(cfg: Config, worker: nat, item: Item, turn: Turn, ghost run: seq<Action>)
      returns (ghost run': seq<Action>)
      requires Reaches(cfg, run, State())
      requires Held(State(), worker) != [] && Held(State(), worker)[0] == item
      requires item.index < |rows| && item.accepted.None?
      modifies this
      ensures run' == run + TurnOf(worker, turn) && Reaches(cfg, run', State())
      ensures Held(State(), worker) == Held(old(State()), worker)[1..] && |rows| == |old(rows)|
      ensures forall w :: w != worker ==> Held(State(), w) == Held(old(State()), w)
    {
      ghost var r1 := Wait(cfg, turn.wait, run);
      var sent;
      ghost var r2;
      sent, r2 := PublishItem(cfg, worker, item, turn.accepted, r1);
      ghost var r3 := Wait(cfg, turn.took, r2);
      run' := MarkItem(cfg, worker, sent, turn.written, r3);
      FourMore(run, Tick(turn.wait), Publish(worker, turn.accepted), Tick(turn.took), Mark(worker, turn.written));
    }
  }

  lemma RunSnoc(cfg: Config, run: seq<Action>, a: Action)
    requires IsRun(cfg, run) && Enabled(cfg, Final(cfg, run), a)
    ensures IsRun(cfg, run + [a]) && Final(cfg, run + [a]) == Next(cfg, Final(cfg, run), a)
  {
    assert (run + [a])[..|run|] == run;
  }
}
