/** A run after which the visitor's screen does not show the table: two client ids that differ in a leading blank. */
module PaddedIds {
  import opened Prelude
  import opened ChatModel
  import opened EventLog
  import opened PastViews
  import opened WidgetLog

  function PaddedRun(): seq<Op> {
    [CreateConversation("s", "v", false),
     CreateMessage(1, Some(Ai), None, "x", "m", "", 1, false),
     CreateMessage(1, Some(Ai), None, "y", " m", "", 2, false)]
  }

  /** The tables after the run's first i calls. */
  function PaddedDb(i: nat): Db {
    var rows := map[1 := Conversation("s", "v", true, None, None, None, None, None, None)];
    var m1, m2 := Message(1, 1, Ai, None, "x", "m", Sent, 1), Message(2, 1, Ai, None, "y", " m", Sent, 2);
    if i == 0 then EMPTY_DB
    else if i == 1 then Db(rows, [], [], 2, 1, 1)
    else if i == 2 then Db(rows, [m1], [Row(1, MessageNew(1, m1))], 2, 2, 2)
    else Db(rows, [m1, m2], [Row(1, MessageNew(1, m1)), Row(2, MessageNew(1, m2))], 2, 3, 3)
  }

  lemma PaddedStep(i: nat)
    requires i < 3
    ensures Step(PaddedDb(i), PaddedRun()[i]).db == PaddedDb(i + 1)
  {
    var db, op := PaddedDb(i), PaddedRun()[i];
    if i == 0 {
      assert LatestOpen(EMPTY_DB.conversations, "s", "v", 1).None?;
      assert Text.Trim("s") == "s" && Text.Trim("v") == "v";
    } else if i == 1 {
      assert Text.Trim("x") == "x";
    } else {
      assert Text.Trim("y") == "y";
      assert FindByClientId(db.messages, 1, " m").None?;
    }
    var w := PlanOf(db, op).value.writes[0];
    assert PlanOf(db, op).value.writes == [w];
    CommitOfTwo(db, w, w);
  }

  lemma {:induction false} PaddedPrefix(i: nat)
    requires i <= 3
    ensures After(PaddedRun()[..i]) == PaddedDb(i)
  {
    if i > 0 {
      var ops := PaddedRun();
      PaddedPrefix(i - 1);
      PaddedStep(i - 1);
      assert ops[..i] == ops[..i - 1] + [ops[i - 1]];
      AfterSnoc(ops[..i - 1], ops[i - 1]);
    }
  }

  lemma TwoMessages(a: Message, b: Message, c: nat)
    requires a.conversation == c == b.conversation
    ensures MessagesOf([a, b], c) == [a, b]
  {
    assert [a, b][..1] == [a] && [a][..0] == [];
    assert MessagesOf([a], c) == [] + [a];
  }

  /** The server stores both messages, and a widget that handled the whole log in order does not show both. */
  lemma PaddedIdsCollide()
    ensures |MessagesOf(After(PaddedRun()).messages, 1)| == 2
    ensures ShowEvents(EventsOf(After(PaddedRun()).outbox, 1)) != Entries(MessagesOf(After(PaddedRun()).messages, 1))
  {
    var ops := PaddedRun();
    PaddedPrefix(3);
    assert ops[..3] == ops;
    var messages := After(ops).messages;
    TwoMessages(messages[0], messages[1], 1);
    assert JsText.Trim("m") == "m" && JsText.Trim(" m") == "m";
    assert JsText.Trim(messages[0].clientMsgId) == JsText.Trim(messages[1].clientMsgId) != "";
    assert !TrimsApart(MessagesOf(messages, 1));
    WidgetShowsTheTable(ops, 1);
  }
}
