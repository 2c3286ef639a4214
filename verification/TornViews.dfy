/**
  Telling from the log alone whether a prefix of it shows a state the server was in: it does unless it stops
  between an agent receipt and the assistant receipt with the same bound right after it.
 */
module TornViews {
  import opened ChatModel
  import opened EventLog
  import opened PastViews

  /** A receipt for the agent alone is written only when the assistant has nothing unread below the bound. */
  lemma ReceiptPlans(db: Db, op: Op)
    requires PlanOf(db, op).Ok?
    ensures var writes := PlanOf(db, op).value.writes;
            |writes| == 1 && writes[0].MarkRange? && writes[0].sender == Agent ==>
              CountUnread(db.messages, writes[0].id, Ai, writes[0].upTo) == 0
  {
  }

  lemma WriteKeepsAiCount(db: Db, w: Write, c: nat, upTo: nat)
    requires EventFor(db, w, c) == [] || (w.MarkRange? && w.sender == Agent)
    ensures CountUnread(Apply(db, w).messages, c, Ai, upTo) == CountUnread(db.messages, c, Ai, upTo)
  {
    match w {
      case InsertMessage(_, _, _, _, _, _) => assert Apply(db, w).messages[..|db.messages|] == db.messages;
      case MarkRange(id, sender, bound) => MarkingKeepsOthers(db.messages, id, sender, bound, c, Ai, upTo);
      case _ =>
    }
  }

  predicate EndsWithReceipt(events: seq<Event>, c: nat, upTo: nat) {
    events != [] && events[|events| - 1] == StatusRange(c, Agent, upTo)
  }

  ghost predicate IsSettled(db: Db, c: nat, upTo: nat) {
    EndsWithReceipt(EventsOf(db.outbox, c), c, upTo) ==> CountUnread(db.messages, c, Ai, upTo) == 0
  }

  lemma OneWriteSettles(db: Db, w: Write, c: nat, upTo: nat)
    requires IsSettled(db, c, upTo)
    requires w.MarkRange? && w.sender == Agent ==> CountUnread(db.messages, w.id, Ai, w.upTo) == 0
    ensures IsSettled(Apply(db, w), c, upTo)
  {
    WriteAppends(db, w, c);
    if EventFor(db, w, c) == [] || (w.MarkRange? && w.sender == Agent) {
      WriteKeepsAiCount(db, w, c, upTo);
    }
  }

  lemma TwoWritesSettle(db: Db, writes: seq<Write>, c: nat, upTo: nat)
    requires IsSettled(db, c, upTo) && |writes| == 2 && IsPlanShape(writes)
    ensures IsSettled(Commit(db, writes), c, upTo)
  {
    var mid := Apply(db, writes[0]);
    assert writes[1..] == [writes[1]];
    assert Commit(mid, writes[1..]) == Commit(Apply(mid, writes[1]), []);
    WriteAppends(db, writes[0], c);
    WriteAppends(mid, writes[1], c);
    if EventFor(mid, writes[1], c) == [] {
      WriteKeepsAiCount(db, writes[0], c, upTo);
      WriteKeepsAiCount(mid, writes[1], c, upTo);
    }
  }

  /** After every committed transaction, a log ending with an agent receipt leaves the assistant nothing unread. */
  lemma CommitSettles(db: Db, op: Op, c: nat, upTo: nat)
    requires PlanOf(db, op).Ok? && IsSettled(db, c, upTo)
    ensures IsSettled(Commit(db, PlanOf(db, op).value.writes), c, upTo)
  {
    var writes := PlanOf(db, op).value.writes;
    ReceiptPlans(db, op);
    PlanShape(db, op);
    if |writes| == 1 {
      assert writes[1..] == [];
      OneWriteSettles(db, writes[0], c, upTo);
    } else if |writes| == 2 {
      TwoWritesSettle(db, writes, c, upTo);
    }
  }

  /** Whenever the log ends with an agent receipt, the assistant has nothing unread below its bound. */
  lemma {:induction false} ReceiptIsComplete(ops: seq<Op>, c: nat, upTo: nat)
    requires EndsWithReceipt(EventsOf(After(ops).outbox, c), c, upTo)
    ensures CountUnread(After(ops).messages, c, Ai, upTo) == 0
  {
    var front, op := ops[..|ops| - 1], ops[|ops| - 1];
    var before := After(front);
    if EndsWithReceipt(EventsOf(before.outbox, c), c, upTo) {
      ReceiptIsComplete(front, c, upTo);
    }
    if PlanOf(before, op).Ok? && !op.fault {
      CommitSettles(before, op, c, upTo);
    }
  }

  lemma EarnedByOne(db: Db, w: Write, c: nat, upTo: nat)
    requires LegalWrite(db, w) && |EventsOf(Apply(db, w).outbox, c)| > |EventsOf(db.outbox, c)|
    requires EventsOf(Apply(db, w).outbox, c)[|EventsOf(db.outbox, c)|] == StatusRange(c, Ai, upTo)
    ensures CountUnread(db.messages, c, Ai, upTo) > 0
  {
    WriteAppends(db, w, c);
    assert EventFor(db, w, c)[0] == StatusRange(c, Ai, upTo);
  }

  /** A call whose first event is an assistant receipt found something of the assistant's to mark. */
  lemma AiReceiptIsEarned(db: Db, op: Op, c: nat, upTo: nat)
    requires |EventsOf(Step(db, op).db.outbox, c)| > |EventsOf(db.outbox, c)|
    requires EventsOf(Step(db, op).db.outbox, c)[|EventsOf(db.outbox, c)|] == StatusRange(c, Ai, upTo)
    ensures CountUnread(db.messages, c, Ai, upTo) > 0
  {
    assert PlanOf(db, op).Ok? && !op.fault;
    var writes := PlanOf(db, op).value.writes;
    PlanShape(db, op);
    PlansAreLegal(db, op);
    if |writes| == 1 {
      assert writes[1..] == [] && Commit(Apply(db, writes[0]), []) == Apply(db, writes[0]);
      assert Step(db, op).db == Apply(db, writes[0]);
      EarnedByOne(db, writes[0], c, upTo);
    } else if |writes| == 2 {
      TwoWritesAppend(db, writes, c);
    }
  }

  /** Some prefix of the log stops between the halves of a split receipt. */
  predicate IsTorn(events: seq<Event>, c: nat, k: nat) {
    0 < k < |events| && IsSplitReceipt(events[k - 1..k + 1], c)
  }

  lemma {:induction false} TornIsInside(ops: seq<Op>, c: nat, k: nat)
    requires IsTorn(EventsOf(After(ops).outbox, c), c, k)
    ensures !IsCommitBoundary(ops, c, k)
  {
    var n := |ops| - 1;
    var front, all := ops[..n], EventsOf(After(ops).outbox, c);
    var earlier := EventsOf(After(front).outbox, c);
    var added := CallAppends(After(front), ops[n], c);
    if k < |earlier| {
      assert all[k - 1..k + 1] == earlier[k - 1..k + 1];
      TornIsInside(front, c, k);
    } else if k == |earlier| {
      var upTo := all[k - 1..k + 1][0].upTo;
      assert all[k - 1] == all[k - 1..k + 1][0] && all[k] == all[k - 1..k + 1][1];
      ReceiptIsComplete(front, c, upTo);
      AiReceiptIsEarned(After(front), ops[n], c, upTo);
    }
    NoBoundary(ops, c, k);
  }

  /** A call's boundary is the end of its own events or an earlier one. */
  lemma NoBoundary(ops: seq<Op>, c: nat, k: nat)
    requires ops != [] && k < |EventsOf(After(ops).outbox, c)|
    requires k > |EventsOf(After(ops[..|ops| - 1]).outbox, c)| || !IsCommitBoundary(ops[..|ops| - 1], c, k)
    ensures !IsCommitBoundary(ops, c, k)
  {
    var front := ops[..|ops| - 1];
    forall i | 0 <= i <= |ops| ensures EventsAfter(ops, i, c) != k {
      if i == |ops| {
        assert ops[..i] == ops;
      } else {
        assert front[..i] == ops[..i];
        LogGrows(front, i, c);
        assert EventsAfter(front, i, c) == EventsAfter(ops, i, c);
      }
    }
  }

  /**
    A subscriber can tell from the log itself: the view after k events is one the server had, unless event k - 1
    is an agent receipt and event k the assistant receipt with the same bound.
   */
  lemma LogTellsPastStates(ops: seq<Op>, c: nat, k: nat)
    requires k <= |EventsOf(After(ops).outbox, c)|
    ensures ShowsPastState(ops, c, k) <==> !IsTorn(EventsOf(After(ops).outbox, c), c, k)
  {
    PrefixShowsPastState(ops, c, k);
    if IsTorn(EventsOf(After(ops).outbox, c), c, k) {
      TornIsInside(ops, c, k);
    } else if k == 0 {
      assert EventsAfter(ops, 0, c) == 0;
    } else if k == |EventsOf(After(ops).outbox, c)| {
      assert ops[..|ops|] == ops;
      assert EventsAfter(ops, |ops|, c) == k;
    } else if !IsCommitBoundary(ops, c, k) {
      OnlySplitReceiptsTear(ops, c, k);
    }
  }
}
