/**
  Which prefixes of the log show a state the server was really in.

  A subscriber that has folded the first k events of a conversation sees a past server state exactly
  when k is a commit boundary; the only commits with an inside are visitors' read reports that
  mark both agent and assistant messages.
 */
module PastViews {
  import opened Prelude
  import opened ChatModel
  import opened EventLog

  function CountRead(messages: seq<Message>): nat {
    if messages == [] then 0
    else CountRead(messages[..|messages| - 1]) + if messages[|messages| - 1].status == Read then 1 else 0
  }

  /** How far a conversation has come: every event moves it strictly forward. */
  function Progress(v: View): nat {
    |v.messages| + CountRead(v.messages) + if v.closed then 1 else 0
  }

  ghost predicate Steady(events: seq<Event>) {
    forall k :: 0 <= k < |events| ==> Progress(Fold(events[..k])) < Progress(Fold(events[..k + 1]))
  }

  lemma CountReadAppend(messages: seq<Message>, m: Message)
    ensures CountRead(messages + [m]) == CountRead(messages) + if m.status == Read then 1 else 0
  {
    assert (messages + [m])[..|messages|] == messages;
  }

  lemma {:induction false} MarkingCounts(messages: seq<Message>, c: nat, sender: Sender, upTo: nat)
    ensures CountRead(MessagesOf(MarkRows(messages, c, sender, upTo), c))
            == CountRead(MessagesOf(messages, c)) + CountUnread(messages, c, sender, upTo)
    ensures |MessagesOf(MarkRows(messages, c, sender, upTo), c)| == |MessagesOf(messages, c)|
  {
    if messages != [] {
      var n := |messages| - 1;
      var front, last := messages[..n], messages[n];
      var last' := MarkRow(last, c, sender, upTo);
      MarkingCounts(front, c, sender, upTo);
      assert messages == front + [last];
      assert MarkRows(messages, c, sender, upTo) == MarkRows(front, c, sender, upTo) + [last'];
      MessagesOfAppend(front, last, c);
      MessagesOfAppend(MarkRows(front, c, sender, upTo), last', c);
      CountReadAppend(MessagesOf(front, c), last);
      CountReadAppend(MessagesOf(MarkRows(front, c, sender, upTo), c), last');
    }
  }

  lemma WriteAdvances(db: Db, w: Write, c: nat)
    requires KeysBelowCounter(db) && LegalWrite(db, w)
    requires |Apply(db, w).outbox| > |db.outbox| && Apply(db, w).outbox[|db.outbox|].event.conversation == c
    ensures Progress(ServerView(db, c)) < Progress(ServerView(Apply(db, w), c))
  {
    match w {
      case InsertMessage(_, _, _, _, _, _) =>
        var m := Apply(db, w).messages[|db.messages|];
        MessagesOfAppend(db.messages, m, c);
        CountReadAppend(MessagesOf(db.messages, c), m);
      case MarkRange(_, sender, upTo) => MarkingCounts(db.messages, c, sender, upTo);
      case _ =>
    }
  }

  lemma SteadyAppend(events: seq<Event>, e: Event)
    requires Steady(events) && Progress(Fold(events)) < Progress(Fold(events + [e]))
    ensures Steady(events + [e])
  {
    var events' := events + [e];
    forall k | 0 <= k < |events'| ensures Progress(Fold(events'[..k])) < Progress(Fold(events'[..k + 1])) {
      assert events'[..k] == events[..k];
      if k < |events| {
        assert events'[..k + 1] == events[..k + 1];
      } else {
        assert events[..k] == events && events'[..k + 1] == events';
      }
    }
  }

  lemma WriteKeepsSteady(db: Db, w: Write, c: nat)
    requires KeysBelowCounter(db) && LegalWrite(db, w) && Rebuilt(db, c) && Steady(EventsOf(db.outbox, c))
    ensures Steady(EventsOf(Apply(db, w).outbox, c))
  {
    WriteRebuilds(db, w, c);
    var db' := Apply(db, w);
    if |db'.outbox| > |db.outbox| {
      var row := db'.outbox[|db.outbox|];
      assert db'.outbox == db.outbox + [row];
      EventsOfAppend(db.outbox, row, c);
      if row.event.conversation == c {
        WriteAdvances(db, w, c);
        SteadyAppend(EventsOf(db.outbox, c), row.event);
      }
    }
  }

  lemma {:induction false} CommitKeepsSteady(db: Db, writes: seq<Write>, c: nat)
    requires KeysBelowCounter(db) && LegalWrites(db, writes) && Rebuilt(db, c) && Steady(EventsOf(db.outbox, c))
    ensures Steady(EventsOf(Commit(db, writes).outbox, c))
    decreases |writes|
  {
    if writes != [] {
      WriteRebuilds(db, writes[0], c);
      WriteKeepsSteady(db, writes[0], c);
      CommitKeepsSteady(Apply(db, writes[0]), writes[1..], c);
    }
  }

  lemma {:induction false} EveryEventAdvances(ops: seq<Op>, c: nat)
    ensures Steady(EventsOf(After(ops).outbox, c))
  {
    if ops != [] {
      var before, op := After(ops[..|ops| - 1]), ops[|ops| - 1];
      EveryEventAdvances(ops[..|ops| - 1], c);
      LogRebuildsTables(ops[..|ops| - 1], c);
      if PlanOf(before, op).Ok? {
        PlansAreLegal(before, op);
        CommitKeepsSteady(before, PlanOf(before, op).value.writes, c);
      }
    }
  }

  lemma {:induction false} LaterIsFurther(events: seq<Event>, j: nat, k: nat)
    requires Steady(events) && j < k <= |events|
    ensures Progress(Fold(events[..j])) < Progress(Fold(events[..k]))
  {
    if j + 1 < k {
      LaterIsFurther(events, j, k - 1);
    }
  }

  // ----- What one call appends

  function EventOf(db: Db, w: Write): seq<Event> {
    match w
    case PutConversation(_) => []
    case SaveConversation(_, _) => []
    case CloseConversation(id, _) => [ConversationClosed(id)]
    case InsertMessage(c, sender, senderAgent, content, clientMsgId, createdAt) =>
      [MessageNew(c, Message(db.nextMessage, c, sender, senderAgent, content, clientMsgId, Sent, createdAt))]
    case MarkRange(c, sender, upTo) => [StatusRange(c, sender, upTo)]
  }

  /** A receipt that one visitor report splits over two events. */
  predicate IsSplitReceipt(events: seq<Event>, c: nat) {
    && |events| == 2 && events[0].StatusRange?
    && events == [StatusRange(c, Agent, events[0].upTo), StatusRange(c, Ai, events[0].upTo)]
  }

  /** What a write appends to c's events. */
  function EventFor(db: Db, w: Write, c: nat): seq<Event> {
    if EventOf(db, w) != [] && EventOf(db, w)[0].conversation == c then EventOf(db, w) else []
  }

  lemma WriteAppends(db: Db, w: Write, c: nat)
    ensures EventsOf(Apply(db, w).outbox, c) == EventsOf(db.outbox, c) + EventFor(db, w, c)
  {
    var db' := Apply(db, w);
    if |db'.outbox| > |db.outbox| {
      EventsOfAppend(db.outbox, db'.outbox[|db.outbox|], c);
    }
  }

  /** The shapes of transaction the operations plan. */
  predicate IsPlanShape(writes: seq<Write>) {
    || |writes| <= 1
    || (|writes| == 2 && writes[0].SaveConversation? && writes[1].InsertMessage?)
    || (|writes| == 2 && writes[0].MarkRange?
        && writes == [MarkRange(writes[0].id, Agent, writes[0].upTo), MarkRange(writes[0].id, Ai, writes[0].upTo)])
  }

  lemma PlanShape(db: Db, op: Op)
    requires PlanOf(db, op).Ok?
    ensures IsPlanShape(PlanOf(db, op).value.writes)
  {
  }

  lemma TwoWritesAppend(db: Db, writes: seq<Write>, c: nat)
    requires |writes| == 2
    ensures EventsOf(Commit(db, writes).outbox, c)
            == EventsOf(db.outbox, c) + (EventFor(db, writes[0], c) + EventFor(Apply(db, writes[0]), writes[1], c))
  {
    assert writes == [writes[0], writes[1]];
    CommitOfTwo(db, writes[0], writes[1]);
    WriteAppends(db, writes[0], c);
    WriteAppends(Apply(db, writes[0]), writes[1], c);
  }

  lemma CommitAppends(db: Db, writes: seq<Write>, c: nat) returns (added: seq<Event>)
    requires IsPlanShape(writes)
    ensures EventsOf(Commit(db, writes).outbox, c) == EventsOf(db.outbox, c) + added
    ensures |added| <= 1 || IsSplitReceipt(added, c)
  {
    added := [];
    if |writes| == 1 {
      WriteAppends(db, writes[0], c);
      added := EventFor(db, writes[0], c);
      assert writes[1..] == [];
    } else if |writes| == 2 {
      TwoWritesAppend(db, writes, c);
      added := EventFor(db, writes[0], c) + EventFor(Apply(db, writes[0]), writes[1], c);
    }
  }

  /** Every call appends nothing, one event, or the two halves of a split receipt. */
  lemma CallAppends(db: Db, op: Op, c: nat) returns (added: seq<Event>)
    ensures EventsOf(Step(db, op).db.outbox, c) == EventsOf(db.outbox, c) + added
    ensures |added| <= 1 || IsSplitReceipt(added, c)
  {
    if PlanOf(db, op).Ok? && !op.fault {
      PlanShape(db, op);
      added := CommitAppends(db, PlanOf(db, op).value.writes, c);
    } else {
      added := [];
      assert EventsOf(db.outbox, c) + [] == EventsOf(db.outbox, c);
    }
  }

  lemma {:induction false} LogGrows(ops: seq<Op>, i: nat, c: nat)
    requires i <= |ops|
    ensures EventsOf(After(ops[..i]).outbox, c) <= EventsOf(After(ops).outbox, c)
  {
    if i == |ops| {
      assert ops[..i] == ops;
    } else {
      var front := ops[..|ops| - 1];
      assert front[..i] == ops[..i];
      LogGrows(front, i, c);
      var added := CallAppends(After(front), ops[|ops| - 1], c);
    }
  }

  /** How many of c's events the log held after the first i calls. */
  function EventsAfter(ops: seq<Op>, i: nat, c: nat): nat
    requires i <= |ops|
  {
    |EventsOf(After(ops[..i]).outbox, c)|
  }

  ghost predicate ShowsPastState(ops: seq<Op>, c: nat, k: nat)
    requires k <= |EventsOf(After(ops).outbox, c)|
  {
    exists i :: 0 <= i <= |ops| && Fold(EventsOf(After(ops).outbox, c)[..k]) == ServerView(After(ops[..i]), c)
  }

  ghost predicate IsCommitBoundary(ops: seq<Op>, c: nat, k: nat) {
    exists i :: 0 <= i <= |ops| && EventsAfter(ops, i, c) == k
  }

  /** A prefix of the log shows a state the server was in exactly when it ends at a commit. */
  lemma PrefixShowsPastState(ops: seq<Op>, c: nat, k: nat)
    requires k <= |EventsOf(After(ops).outbox, c)|
    ensures ShowsPastState(ops, c, k) <==> IsCommitBoundary(ops, c, k)
  {
    var events := EventsOf(After(ops).outbox, c);
    EveryEventAdvances(ops, c);
    forall i | 0 <= i <= |ops|
      ensures Fold(events[..k]) == ServerView(After(ops[..i]), c) <==> EventsAfter(ops, i, c) == k
    {
      LogGrows(ops, i, c);
      LogRebuildsTables(ops[..i], c);
      var n := EventsAfter(ops, i, c);
      assert events[..n] == EventsOf(After(ops[..i]).outbox, c);
      if n < k {
        LaterIsFurther(events, n, k);
      } else if k < n {
        LaterIsFurther(events, k, n);
      }
    }
  }

  /** The only prefixes that end inside a commit stop between the halves of a split receipt. */
  lemma {:induction false} OnlySplitReceiptsTear(ops: seq<Op>, c: nat, k: nat)
    requires 0 < k < |EventsOf(After(ops).outbox, c)|
    requires !IsCommitBoundary(ops, c, k)
    ensures IsSplitReceipt(EventsOf(After(ops).outbox, c)[k - 1..k + 1], c)
  {
    if ops == [] {
      assert false;
    } else {
      var n := |ops| - 1;
      var front := ops[..n];
      var earlier := EventsOf(After(front).outbox, c);
      var added := CallAppends(After(front), ops[n], c);
      assert EventsAfter(ops, n, c) == |earlier|;
      if k < |earlier| {
        forall i | 0 <= i <= n ensures EventsAfter(front, i, c) == EventsAfter(ops, i, c) {
          assert front[..i] == ops[..i];
        }
        OnlySplitReceiptsTear(front, c, k);
        assert EventsOf(After(ops).outbox, c)[k - 1..k + 1] == earlier[k - 1..k + 1];
      } else {
        assert k != |earlier|;
        assert EventsOf(After(ops).outbox, c)[k - 1..k + 1] == added;
      }
    }
  }

  /** A visitor's first report on a conversation holding an agent's and an assistant's message. */
  function SplitReceiptRun(): seq<Op> {
    [CreateConversation("s", "v", false),
     Claim(1, 7, false),
     CreateMessage(1, Some(Agent), Some(7), "x", "m1", "", 1, false),
     CreateMessage(1, Some(Ai), None, "y", "m2", "", 2, false),
     MarkMessagesRead(1, 9, VisitorActor, 0, "v", false)]
  }

  lemma AfterSnoc(ops: seq<Op>, op: Op)
    ensures After(ops + [op]) == Step(After(ops), op).db
  {
    assert (ops + [op])[..|ops|] == ops;
  }

  /** The tables after the run's first i calls, up to the report. */
  function SplitReceiptDb(i: nat): Db
    requires i <= 4
  {
    var row := Conversation("s", "v", true, None, None, None, None, None, None);
    var claimed := row.(owner := Some(7));
    var m1 := Message(1, 1, Agent, Some(7), "x", "m1", Sent, 1);
    var m2 := Message(2, 1, Ai, None, "y", "m2", Sent, 2);
    if i == 0 then EMPTY_DB
    else if i == 1 then Db(map[1 := row], [], [], 2, 1, 1)
    else if i == 2 then Db(map[1 := claimed], [], [], 2, 1, 1)
    else if i == 3 then Db(map[1 := claimed], [m1], [Row(1, MessageNew(1, m1))], 2, 2, 2)
    else Db(map[1 := claimed], [m1, m2], [Row(1, MessageNew(1, m1)), Row(2, MessageNew(1, m2))], 2, 3, 3)
  }

  lemma SplitReceiptStep(i: nat)
    requires i < 4
    ensures Step(SplitReceiptDb(i), SplitReceiptRun()[i]).db == SplitReceiptDb(i + 1)
  {
    var db, op := SplitReceiptDb(i), SplitReceiptRun()[i];
    if i == 0 {
      assert LatestOpen(EMPTY_DB.conversations, "s", "v", 1).None?;
      assert Text.Trim("s") == "s" && Text.Trim("v") == "v";
    } else if i == 2 {
      assert Text.Trim("x") == "x";
    } else if i == 3 {
      assert Text.Trim("y") == "y";
      assert FindByClientId(db.messages, 1, "m2").None?;
    }
    var writes := PlanOf(db, op).value.writes;
    assert writes[1..] == [];
    assert Commit(db, writes) == Commit(Apply(db, writes[0]), []);
  }

  lemma {:induction false} SplitReceiptPrefix(i: nat)
    requires i <= 4
    ensures After(SplitReceiptRun()[..i]) == SplitReceiptDb(i)
  {
    if i > 0 {
      var ops := SplitReceiptRun();
      SplitReceiptPrefix(i - 1);
      SplitReceiptStep(i - 1);
      assert ops[..i] == ops[..i - 1] + [ops[i - 1]];
      AfterSnoc(ops[..i - 1], ops[i - 1]);
    }
  }

  lemma SplitReceiptEvents(i: nat)
    requires i <= 4
    ensures |EventsOf(SplitReceiptDb(i).outbox, 1)| == Max(0, i - 2)
  {
    if i >= 3 {
      var rows, last := SplitReceiptDb(i - 1).outbox, SplitReceiptDb(i).outbox[i - 3];
      SplitReceiptEvents(i - 1);
      EventsOfAppend(rows, last, 1);
      assert rows + [last] == SplitReceiptDb(i).outbox;
    }
  }

  lemma SplitReceiptLast()
    ensures |EventsOf(After(SplitReceiptRun()).outbox, 1)| == 4
  {
    var ops := SplitReceiptRun();
    SplitReceiptPrefix(4);
    SplitReceiptEvents(4);
    assert ops == ops[..4] + [ops[4]];
    AfterSnoc(ops[..4], ops[4]);
    SplitReceiptCommit(SplitReceiptDb(4), ops[4]);
  }

  /** Torn prefixes do occur: the subscriber sees the agent's message read and the assistant's not. */
  lemma SplitReceiptTears()
    ensures |EventsOf(After(SplitReceiptRun()).outbox, 1)| == 4
    ensures !ShowsPastState(SplitReceiptRun(), 1, 3)
  {
    var ops := SplitReceiptRun();
    SplitReceiptLast();
    PrefixShowsPastState(ops, 1, 3);
    forall i | 0 <= i <= |ops| ensures EventsAfter(ops, i, 1) != 3 {
      if i == 5 {
        assert ops[..5] == ops;
      } else {
        SplitReceiptPrefix(i);
        SplitReceiptEvents(i);
      }
    }
  }

  lemma SplitReceiptCommit(db: Db, op: Op)
    requires op.MarkMessagesRead? && !op.fault && op.conversation != 0 && op.lastRead != 0
    requires op.actorType == VisitorActor
    requires op.conversation in db.conversations && db.conversations[op.conversation].visitor == op.visitorToken
    requires Text.Trim(op.visitorToken) != ""
    requires CountUnread(db.messages, op.conversation, Agent, op.lastRead) > 0
    requires CountUnread(db.messages, op.conversation, Ai, op.lastRead) > 0
    ensures EventsOf(Step(db, op).db.outbox, op.conversation)
            == EventsOf(db.outbox, op.conversation)
               + [StatusRange(op.conversation, Agent, op.lastRead), StatusRange(op.conversation, Ai, op.lastRead)]
  {
    var c := op.conversation;
    var writes := [MarkRange(c, Agent, op.lastRead), MarkRange(c, Ai, op.lastRead)];
    assert PlanOf(db, op).value.writes == writes;
    TwoWritesAppend(db, writes, c);
  }
}
