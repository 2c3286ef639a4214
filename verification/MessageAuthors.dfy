/** Who may post: every stored message goes back to the one call that posted it, and what held of its caller then. */
module MessageAuthors {
  import opened Prelude
  import opened ChatModel
  import opened EventLog
  import opened ChatHistory
  import opened CallEffects
  import PastViews
  import Text

  /** The call posts the message: as its sender sent it, or as a transfer step's notice. */
  ghost predicate Posted(db: Db, op: Op, m: Message) {
    && !op.fault
    && if op.CreateMessage? then
         && PostRefusal(db, op).None?
         && m == Message(db.nextMessage, op.conversation, op.sender.value, op.senderAgent, op.content, op.clientMsgId,
                         Sent, op.now)
       else
         && (op.Transfer? || op.ConfirmTransfer? || op.RejectTransfer?)
         && m == Message(db.nextMessage, op.conversation, System, None, op.notice.text, op.notice.clientMsgId, Sent,
                         op.now)
  }

  lemma WritesPost(db: Db, writes: seq<Write>)
    requires PastViews.IsPlanShape(writes)
    ensures |Commit(db, writes).messages| > |db.messages| ==>
              var w := writes[|writes| - 1];
              w.InsertMessage? && Commit(db, writes).messages
                == db.messages + [Message(db.nextMessage, w.id, w.sender, w.senderAgent, w.content, w.clientMsgId,
                                          Sent, w.createdAt)]
  {
    if |writes| == 1 {
      CommitOfTwo(db, writes[0], writes[0]);
      assert writes == [writes[0]];
    } else if |writes| == 2 {
      CommitOfTwo(db, writes[0], writes[1]);
      assert writes == [writes[0], writes[1]];
    }
  }

  /** A call adds at most one message, and then it is the one the call posts. */
  lemma CallPosts(db: Db, op: Op)
    ensures |db.messages| <= |Step(db, op).db.messages| <= |db.messages| + 1
    ensures |Step(db, op).db.messages| > |db.messages| ==>
              Posted(db, op, Step(db, op).db.messages[|db.messages|])
  {
    if PlanOf(db, op).Ok? && !op.fault {
      CommitExtends(db, PlanOf(db, op).value.writes);
      PastViews.PlanShape(db, op);
      WritesPost(db, PlanOf(db, op).value.writes);
      if |Step(db, op).db.messages| > |db.messages| {
        PlannedInsert(db, op);
      }
    }
  }

  lemma PlannedInsert(db: Db, op: Op)
    requires PlanOf(db, op).Ok? && PlanOf(db, op).value.writes != []
    ensures var writes := PlanOf(db, op).value.writes;
            var w := writes[|writes| - 1];
            w.InsertMessage? ==>
              if op.CreateMessage? then
                && PostRefusal(db, op).None?
                && w == InsertMessage(op.conversation, op.sender.value, op.senderAgent, op.content, op.clientMsgId,
                                      op.now)
              else
                && (op.Transfer? || op.ConfirmTransfer? || op.RejectTransfer?)
                && w == InsertMessage(op.conversation, System, None, op.notice.text, op.notice.clientMsgId, op.now)
  {
  }

  /** In every run each stored message was posted by one call, and has changed in its status alone since. */
  lemma {:induction false} EveryMessageWasPosted(ops: seq<Op>, k: nat) returns (i: nat)
    requires k < |After(ops).messages|
    ensures i < |ops| && |After(ops[..i]).messages| == k < |After(ops[..i + 1]).messages|
    ensures var m := After(ops[..i + 1]).messages[k];
            Posted(After(ops[..i]), ops[i], m) && After(ops).messages[k] == m.(status := After(ops).messages[k].status)
  {
    var n := |ops| - 1;
    var front := ops[..n];
    CallPosts(After(front), ops[n]);
    if k < |After(front).messages| {
      i := EveryMessageWasPosted(front, k);
      assert front[..i] == ops[..i] && front[..i + 1] == ops[..i + 1];
      HistoryExtends(ops, n);
      assert After(ops).messages[..|After(front).messages|][k] == After(ops).messages[k];
    } else {
      i := n;
      assert ops[..n + 1] == ops;
    }
  }

  /**
    In every run: a message was posted into a conversation that was open then; its content is not blank and at most
    2000 characters long unless it is a transfer notice; a visitor's came with the conversation's own token, and an
    agent's from the owner of that moment.
   */
  lemma PostersAreEntitled(ops: seq<Op>, k: nat) returns (i: nat)
    requires k < |After(ops).messages|
    ensures i < |ops| && After(ops).messages[k].conversation in After(ops[..i]).conversations
    ensures var m, op := After(ops).messages[k], ops[i];
            var row := After(ops[..i]).conversations[m.conversation];
            && row.open && (op.CreateMessage? || m.sender == System)
            && (op.CreateMessage? ==> Text.Trim(m.content) != "" && |m.content| <= 2000)
            && (m.sender == Visitor ==> op.CreateMessage? && Text.Trim(op.visitorToken) == row.visitor != "")
            && (m.sender == Agent ==> m.senderAgent.Some? && m.senderAgent.value != 0 && row.owner == m.senderAgent)
  {
    i := EveryMessageWasPosted(ops, k);
    assert ops[..i + 1][..i] == ops[..i];
    assert After(ops[..i + 1]) == Step(After(ops[..i]), ops[i]).db;
    PostedIntoOpen(After(ops[..i]), ops[i]);
  }

  /** A call that adds a message finds its conversation open. */
  lemma PostedIntoOpen(db: Db, op: Op)
    requires |Step(db, op).db.messages| > |db.messages|
    ensures !op.CreateConversation? && op.conversation in db.conversations && db.conversations[op.conversation].open
  {
    CallPosts(db, op);
    PlansAreLegal(db, op);
    PastViews.PlanShape(db, op);
    WritesPost(db, PlanOf(db, op).value.writes);
    PlannedInsert(db, op);
  }
}
