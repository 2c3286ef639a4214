/**
  With one dispatcher and no failure, events reach the transport in log order, so that a subscriber
  always sees the conversation as the server once had it, up to a torn read report.
 */
module OutboxOrder {
  import opened Prelude
  import opened ChatModel
  import opened EventLog
  import opened OutboxProtocol
  import opened TornViews

  /** One dispatcher, batches in id order, every publish accepted and every write done. */
  ghost predicate IsSmooth(cfg: Config, batch: nat, run: seq<Action>)
    requires IsRun(cfg, run)
  {
    run == [] ||
    (var s, a := Final(cfg, run[..|run| - 1]), run[|run| - 1];
     && IsSmooth(cfg, batch, run[..|run| - 1])
     && (a.ClaimRows? ==> a.worker == 0 && TakesFirst(s, a, batch))
     && (a.Requeue? ==> Held(s, 0) == [])
     && (a.Publish? ==> a.accepted)
     && (a.Mark? ==> a.written)
     && !a.Crash? && !a.ReplayDead?)
  }

  /** The events handed to the transport, in order. */
  ghost function Calls(cfg: Config, run: seq<Action>): seq<Event>
    requires IsRun(cfg, run)
  {
    if run == [] then []
    else
      var s, a := Final(cfg, run[..|run| - 1]), run[|run| - 1];
      Calls(cfg, run[..|run| - 1]) + if a.Publish? then [s.rows[Held(s, a.worker)[0].index].event] else []
  }

  function Log(rows: seq<OutboxRow>): seq<Event> {
    seq(|rows|, i requires 0 <= i < |rows| => rows[i].event)
  }

  /** Rows below p are published, rows from p to q are in the dispatcher's hands, the rest wait. */
  ghost predicate Pipeline(s: Sys, p: nat, q: nat) {
    && p <= q <= |s.rows|
    && (forall w :: w in s.held && w != 0 ==> s.held[w] == [])
    && |Held(s, 0)| == q - p
    && (forall k :: 0 <= k < q - p ==> Held(s, 0)[k].index == p + k)
    && (forall k :: 1 <= k < q - p ==> Held(s, 0)[k].accepted.None?)
    && (q > p ==> Held(s, 0)[0].accepted != Some(false))
    && (forall i :: 0 <= i < p ==> s.rows[i].status == Published)
    && (forall i :: p <= i < q ==> s.rows[i].status == Processing)
    && (forall i :: q <= i < |s.rows| ==> s.rows[i].status == Pending && s.rows[i].nextRetryAt.None?)
  }

  /** How many rows the transport has taken. */
  function Taken(s: Sys, p: nat): nat {
    if Held(s, 0) != [] && Held(s, 0)[0].accepted.Some? then p + 1 else p
  }

  lemma {:induction false} BatchIsContiguous(cfg: Config, s: Sys, a: Action, batch: nat, q: nat, k: nat)
    requires Enabled(cfg, s, a) && a.ClaimRows? && TakesFirst(s, a, batch) && Pipeline(s, q, q) && k < |a.indices|
    ensures a.indices[k] == q + k
  {
    assert IsEligible(s.rows[a.indices[k]], a.retryableBefore);
    if k > 0 {
      BatchIsContiguous(cfg, s, a, batch, q, k - 1);
    }
    if a.indices[k] != q + k {
      assert q + k < a.indices[k];
      forall j | 0 <= j < |a.indices| ensures a.indices[j] != q + k {
        if j < k - 1 {
          assert a.indices[j] < a.indices[k - 1];
        }
      }
      assert IsEligible(s.rows[q + k], a.retryableBefore);
      assert false;
    }
  }

  lemma PipelineStep(cfg: Config, batch: nat, s: Sys, a: Action, p: nat, q: nat) returns (p': nat, q': nat)
    requires Enabled(cfg, s, a) && Pipeline(s, p, q)
    requires a.ClaimRows? ==> a.worker == 0 && TakesFirst(s, a, batch)
    requires (a.Requeue? ==> Held(s, 0) == []) && (a.Publish? ==> a.accepted) && (a.Mark? ==> a.written)
    requires !a.Crash? && !a.ReplayDead?
    ensures Pipeline(Next(cfg, s, a), p', q')
    ensures Taken(Next(cfg, s, a), p') == Taken(s, p) + if a.Publish? then 1 else 0
    ensures a.Publish? ==> Held(s, a.worker)[0].index == Taken(s, p)
  {
    p', q' := p, q;
    if a.ClaimRows? {
      q' := q + |a.indices|;
      PipelineClaim(cfg, batch, s, a, q);
    } else if a.Mark? {
      p' := p + 1;
      assert a.worker == 0;
    } else if a.Publish? {
      assert a.worker == 0;
    }
  }

  lemma PipelineClaim(cfg: Config, batch: nat, s: Sys, a: Action, q: nat)
    requires Enabled(cfg, s, a) && a.ClaimRows? && a.worker == 0 && TakesFirst(s, a, batch) && Pipeline(s, q, q)
    ensures Pipeline(Next(cfg, s, a), q, q + |a.indices|)
    ensures Taken(Next(cfg, s, a), q) == q
  {
    forall k | 0 <= k < |a.indices| ensures a.indices[k] == q + k {
      BatchIsContiguous(cfg, s, a, batch, q, k);
    }
    if |a.indices| > 0 {
      assert a.indices[|a.indices| - 1] == q + |a.indices| - 1;
    }
    forall i | q <= i < q + |a.indices| ensures i in a.indices {
      assert a.indices[i - q] == i;
    }
  }

  lemma {:induction false} SmoothRunsPipeline(cfg: Config, batch: nat, run: seq<Action>) returns (p: nat, q: nat)
    requires IsRun(cfg, run) && IsSmooth(cfg, batch, run)
    ensures Pipeline(Final(cfg, run), p, q)
    ensures Taken(Final(cfg, run), p) <= |Final(cfg, run).rows|
    ensures Calls(cfg, run) == Log(Final(cfg, run).rows)[..Taken(Final(cfg, run), p)]
  {
    if run == [] {
      p, q := 0, 0;
    } else {
      var front := run[..|run| - 1];
      var s, a := Final(cfg, front), run[|run| - 1];
      p, q := SmoothRunsPipeline(cfg, batch, front);
      ghost var before := Taken(s, p);
      p, q := PipelineStep(cfg, batch, s, a, p, q);
      CallsExtend(cfg, run, before);
    }
  }

  lemma CallsExtend(cfg: Config, run: seq<Action>, taken: nat)
    requires IsRun(cfg, run) && run != []
    requires var s := Final(cfg, run[..|run| - 1]);
             taken <= |s.rows| && Calls(cfg, run[..|run| - 1]) == Log(s.rows)[..taken]
             && (run[|run| - 1].Publish? ==> Held(s, run[|run| - 1].worker)[0].index == taken < |s.rows|)
    ensures var taken' := taken + if run[|run| - 1].Publish? then 1 else 0;
            taken' <= |Final(cfg, run).rows| && Calls(cfg, run) == Log(Final(cfg, run).rows)[..taken']
  {
    var s, a := Final(cfg, run[..|run| - 1]), run[|run| - 1];
    LogOnlyGrows(cfg, s, a);
    LogPrefix(s.rows, Final(cfg, run).rows, taken);
  }

  lemma LogPrefix(before: seq<OutboxRow>, after: seq<OutboxRow>, n: nat)
    requires Log(before) <= Log(after) && n <= |before|
    ensures |before| <= |after| && Log(after)[..n] == Log(before)[..n]
    ensures n < |before| ==> Log(after)[..n + 1] == Log(before)[..n] + [before[n].event]
  {
    assert |Log(before)| == |before| && |Log(after)| == |after|;
  }

  lemma LogOnlyGrows(cfg: Config, s: Sys, a: Action)
    requires Enabled(cfg, s, a)
    ensures Log(s.rows) <= Log(Next(cfg, s, a).rows)
  {
  }

  /** The transport calls are always a prefix of the log. */
  lemma CallsFollowTheLog(cfg: Config, batch: nat, run: seq<Action>)
    requires IsRun(cfg, run) && IsSmooth(cfg, batch, run)
    ensures Calls(cfg, run) <= Log(Final(cfg, run).rows)
  {
    var p, q := SmoothRunsPipeline(cfg, batch, run);
  }

  // ----- What a subscriber of one conversation makes of them

  /** Delivered events as rows, numbered as they come. */
  function AsRows(events: seq<Event>): seq<Row> {
    seq(|events|, i requires 0 <= i < |events| => Row(i, events[i]))
  }

  ghost predicate SameEvents(a: seq<Row>, b: seq<Row>) {
    |a| == |b| && forall i :: 0 <= i < |a| ==> a[i].event == b[i].event
  }

  lemma {:induction false} IdsDoNotMatter(a: seq<Row>, b: seq<Row>, c: nat)
    requires SameEvents(a, b)
    ensures EventsOf(a, c) == EventsOf(b, c)
  {
    if a != [] {
      IdsDoNotMatter(a[..|a| - 1], b[..|b| - 1], c);
    }
  }

  lemma {:induction false} EventsOfPrefix(rows: seq<Row>, n: nat, c: nat)
    requires n <= |rows|
    ensures EventsOf(rows[..n], c) <= EventsOf(rows, c)
  {
    if n == |rows| {
      assert rows[..n] == rows;
    } else {
      var front := rows[..|rows| - 1];
      assert front[..n] == rows[..n];
      EventsOfPrefix(front, n, c);
    }
  }

  /** The dispatcher's rows carry the events of the tables' outbox. */
  ghost predicate Carries(s: Sys, db: Db) {
    SameEvents(AsRows(Log(s.rows)), db.outbox)
  }

  /**
    A subscriber that folds the delivered events of a conversation has the view of a state the server was in
    exactly when they do not stop between the halves of a split receipt.
   */
  lemma SubscriberSeesThePast(cfg: Config, batch: nat, run: seq<Action>, ops: seq<Op>, c: nat) returns (k: nat)
    requires IsRun(cfg, run) && IsSmooth(cfg, batch, run) && Carries(Final(cfg, run), After(ops))
    ensures var seen := EventsOf(AsRows(Calls(cfg, run)), c);
            && k <= |EventsOf(After(ops).outbox, c)| && seen == EventsOf(After(ops).outbox, c)[..k]
            && ((exists i :: 0 <= i <= |ops| && Fold(seen) == ServerView(After(ops[..i]), c))
                <==> !IsTorn(EventsOf(After(ops).outbox, c), c, k))
  {
    var calls, outbox := Calls(cfg, run), After(ops).outbox;
    CallsFollowTheLog(cfg, batch, run);
    EventsOfPrefix(outbox, |calls|, c);
    IdsDoNotMatter(AsRows(calls), outbox[..|calls|], c);
    k := |EventsOf(AsRows(calls), c)|;
    LogTellsPastStates(ops, c, k);
  }
}
