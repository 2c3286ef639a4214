/**
  What every sequence of calls keeps: closing is final and announced once, a message is stored and
  announced once however often it is sent, and ownership moves only through a confirmed request.
 */
module ChatHistory {
  import opened Prelude
  import opened ChatModel
  import opened EventLog
  import PastViews

  // ----- Rows are only added, and a stored row changes in its status only

  ghost predicate SameRows(a: seq<Message>, b: seq<Message>) {
    |a| == |b| && forall i :: 0 <= i < |a| ==> a[i] == b[i].(status := a[i].status)
  }

  ghost predicate Extends(older: seq<Message>, newer: seq<Message>) {
    |older| <= |newer| && SameRows(older, newer[..|older|])
  }

  lemma {:induction false} CommitExtends(db: Db, writes: seq<Write>)
    ensures Extends(db.messages, Commit(db, writes).messages)
    decreases |writes|
  {
    if writes != [] {
      CommitExtends(Apply(db, writes[0]), writes[1..]);
    }
  }

  lemma {:induction false} HistoryExtends(ops: seq<Op>, i: nat)
    requires i <= |ops|
    ensures Extends(After(ops[..i]).messages, After(ops).messages)
  {
    if i == |ops| {
      assert ops[..i] == ops;
    } else {
      var front := ops[..|ops| - 1];
      assert front[..i] == ops[..i];
      HistoryExtends(front, i);
      var plan := PlanOf(After(front), ops[|ops| - 1]);
      if plan.Ok? {
        CommitExtends(After(front), plan.value.writes);
      }
    }
  }

  // ----- Closing

  function CountClosed(events: seq<Event>): nat {
    if events == [] then 0
    else CountClosed(events[..|events| - 1]) + if events[|events| - 1].ConversationClosed? then 1 else 0
  }

  ghost predicate ClosedOnce(db: Db, c: nat) {
    && CountClosed(EventsOf(db.outbox, c)) == (if IsClosed(db, c) then 1 else 0)
    && (c in db.conversations ==> (db.conversations[c].closedAt.Some? <==> !db.conversations[c].open))
  }

  lemma WriteKeepsClosedOnce(db: Db, w: Write, c: nat)
    requires KeysBelowCounter(db) && SoundWrite(db, w) && ClosedOnce(db, c)
    ensures ClosedOnce(Apply(db, w), c)
  {
    var events, more := EventsOf(db.outbox, c), PastViews.EventFor(db, w, c);
    PastViews.WriteAppends(db, w, c);
    if more == [] {
      assert events + more == events;
    } else {
      assert more == [more[0]];
      CountClosedAppend(events, more[0]);
    }
  }

  lemma CountClosedAppend(events: seq<Event>, e: Event)
    ensures CountClosed(events + [e]) == CountClosed(events) + if e.ConversationClosed? then 1 else 0
  {
    assert (events + [e])[..|events|] == events;
  }

  lemma {:induction false} CommitKeepsClosedOnce(db: Db, writes: seq<Write>, c: nat)
    requires KeysBelowCounter(db) && LegalWrites(db, writes) && ClosedOnce(db, c)
    ensures ClosedOnce(Commit(db, writes), c)
    decreases |writes|
  {
    if writes != [] {
      WriteKeepsClosedOnce(db, writes[0], c);
      CommitKeepsClosedOnce(Apply(db, writes[0]), writes[1..], c);
    }
  }

  /** A closed conversation has exactly one closed event and a closing time; an open one has neither. */
  lemma {:induction false} CloseIsAnnouncedOnce(ops: seq<Op>, c: nat)
    ensures CountClosed(EventsOf(After(ops).outbox, c)) == if IsClosed(After(ops), c) then 1 else 0
    ensures c in After(ops).conversations ==>
              (After(ops).conversations[c].closedAt.Some? <==> !After(ops).conversations[c].open)
  {
    if ops != [] {
      var before, op := After(ops[..|ops| - 1]), ops[|ops| - 1];
      CloseIsAnnouncedOnce(ops[..|ops| - 1], c);
      LogRebuildsTables(ops[..|ops| - 1], c);
      CallKeepsClosedOnce(before, op, c);
    }
  }

  lemma CallKeepsClosedOnce(db: Db, op: Op, c: nat)
    requires KeysBelowCounter(db) && ClosedOnce(db, c)
    ensures ClosedOnce(Step(db, op).db, c)
  {
    if PlanOf(db, op).Ok? {
      PlansAreLegal(db, op);
      CommitKeepsClosedOnce(db, PlanOf(db, op).value.writes, c);
    }
  }

  lemma WriteLeavesClosedAlone(db: Db, w: Write, c: nat)
    requires KeysBelowCounter(db) && LegalWrite(db, w) && IsClosed(db, c)
    ensures c in Apply(db, w).conversations && Apply(db, w).conversations[c] == db.conversations[c]
    ensures SameRows(MessagesOf(db.messages, c), MessagesOf(Apply(db, w).messages, c))
  {
    match w {
      case InsertMessage(_, _, _, _, _, _) => MessagesOfAppend(db.messages, Apply(db, w).messages[|db.messages|], c);
      case MarkRange(id, sender, upTo) =>
        MarkRowsFiltered(db.messages, id, sender, upTo, c);
        SeenKeepsRows(MessagesOf(db.messages, c), sender, upTo);
      case _ =>
    }
  }

  lemma {:induction false} SeenKeepsRows(messages: seq<Message>, sender: Sender, upTo: nat)
    ensures SameRows(messages, Seen(messages, sender, upTo))
  {
    if messages != [] {
      SeenKeepsRows(messages[..|messages| - 1], sender, upTo);
    }
  }

  lemma {:induction false} CommitLeavesClosedAlone(db: Db, writes: seq<Write>, c: nat)
    requires KeysBelowCounter(db) && LegalWrites(db, writes) && IsClosed(db, c)
    ensures IsClosed(Commit(db, writes), c) && Commit(db, writes).conversations[c] == db.conversations[c]
    ensures SameRows(MessagesOf(db.messages, c), MessagesOf(Commit(db, writes).messages, c))
    decreases |writes|
  {
    if writes != [] {
      WriteLeavesClosedAlone(db, writes[0], c);
      CommitLeavesClosedAlone(Apply(db, writes[0]), writes[1..], c);
    }
  }

  /** Once closed, the row never changes again and no message joins it; only read marks still land. */
  lemma {:induction false} ClosedIsFinal(ops: seq<Op>, i: nat, c: nat)
    requires i <= |ops| && IsClosed(After(ops[..i]), c)
    ensures IsClosed(After(ops), c)
    ensures After(ops).conversations[c] == After(ops[..i]).conversations[c]
    ensures SameRows(MessagesOf(After(ops[..i]).messages, c), MessagesOf(After(ops).messages, c))
  {
    if i == |ops| {
      assert ops[..i] == ops;
    } else {
      var front := ops[..|ops| - 1];
      assert front[..i] == ops[..i];
      ClosedIsFinal(front, i, c);
      LogRebuildsTables(front, c);
      var before, op := After(front), ops[|ops| - 1];
      if PlanOf(before, op).Ok? {
        PlansAreLegal(before, op);
        CommitLeavesClosedAlone(before, PlanOf(before, op).value.writes, c);
      }
    }
  }

  // ----- One row and one event per client message

  ghost predicate UniqueKeys(messages: seq<Message>) {
    forall i, j :: 0 <= i < j < |messages| && messages[i].conversation == messages[j].conversation ==>
      messages[i].clientMsgId != messages[j].clientMsgId
  }

  ghost predicate AscendingIds(db: Db) {
    && (forall i, j :: 0 <= i < j < |db.messages| ==> db.messages[i].id < db.messages[j].id)
    && (forall i :: 0 <= i < |db.messages| ==> 1 <= db.messages[i].id < db.nextMessage)
    && 1 <= db.nextMessage
  }

  /** The messages announced by the log, in log order. */
  function Announced(rows: seq<Row>): seq<Message> {
    if rows == [] then []
    else
      var last := rows[|rows| - 1].event;
      Announced(rows[..|rows| - 1]) + if last.MessageNew? then [last.message] else []
  }

  ghost predicate StoredAsAnnounced(db: Db) {
    SameRows(Announced(db.outbox), db.messages)
  }

  ghost predicate Delivered(db: Db) {
    UniqueKeys(db.messages) && AscendingIds(db) && StoredAsAnnounced(db)
  }

  lemma WriteKeepsDelivered(db: Db, w: Write)
    requires SoundWrite(db, w) && Delivered(db)
    ensures Delivered(Apply(db, w))
  {
    var db' := Apply(db, w);
    if |db'.outbox| > |db.outbox| {
      assert db'.outbox[..|db.outbox|] == db.outbox;
    }
    WriteKeepsKeys(db, w);
  }

  lemma WriteKeepsKeys(db: Db, w: Write)
    requires SoundWrite(db, w) && UniqueKeys(db.messages) && AscendingIds(db)
    ensures UniqueKeys(Apply(db, w).messages) && AscendingIds(Apply(db, w))
  {
    if w.InsertMessage? {
      forall i | 0 <= i < |db.messages| && db.messages[i].conversation == w.id
        ensures db.messages[i].clientMsgId != w.clientMsgId
      {
        assert db.messages[i] in db.messages;
      }
    }
  }

  lemma {:induction false} CommitKeepsDelivered(db: Db, writes: seq<Write>)
    requires LegalWrites(db, writes) && Delivered(db)
    ensures Delivered(Commit(db, writes)) && Commit(db, writes).nextMessage >= db.nextMessage
    decreases |writes|
  {
    if writes != [] {
      WriteKeepsDelivered(db, writes[0]);
      CommitKeepsDelivered(Apply(db, writes[0]), writes[1..]);
    }
  }

  /**
    However often and in whatever order copies of a message arrive, the table holds at most one row per
    client id, ids ascend, and the log announces each stored row exactly once, in order, as first stored.
   */
  lemma {:induction false} EachMessageStoredAndAnnouncedOnce(ops: seq<Op>)
    ensures UniqueKeys(After(ops).messages)
    ensures AscendingIds(After(ops))
    ensures SameRows(Announced(After(ops).outbox), After(ops).messages)
  {
    if ops != [] {
      var before, op := After(ops[..|ops| - 1]), ops[|ops| - 1];
      EachMessageStoredAndAnnouncedOnce(ops[..|ops| - 1]);
      if PlanOf(before, op).Ok? {
        PlansAreLegal(before, op);
        CommitKeepsDelivered(before, PlanOf(before, op).value.writes);
      }
    }
  }

  /** The answer to the i-th call. */
  function AnswerTo(ops: seq<Op>, i: nat): Result<Reply, Error>
    requires i < |ops|
  {
    Step(After(ops[..i]), ops[i]).answer
  }

  /** A successful create leaves its row in the table. */
  lemma CreatedRowIsStored(db: Db, op: Op)
    requires op.CreateMessage? && Step(db, op).answer.Ok?
    ensures Step(db, op).answer.value.MessageReply?
    ensures var m := Step(db, op).answer.value.message;
            m in Step(db, op).db.messages && m.conversation == op.conversation && m.clientMsgId == op.clientMsgId
  {
    var writes := PlanOf(db, op).value.writes;
    if writes != [] {
      assert writes[1..] == [];
      assert Commit(db, writes) == Commit(Apply(db, writes[0]), []);
    }
  }

  /** Every successful copy of a client message is answered with the same id. */
  lemma RetriesGetTheSameId(ops: seq<Op>, i: nat, j: nat)
    requires i < j < |ops| && ops[i].CreateMessage? && ops[j].CreateMessage?
    requires ops[i].conversation == ops[j].conversation && ops[i].clientMsgId == ops[j].clientMsgId
    requires AnswerTo(ops, i).Ok? && AnswerTo(ops, j).Ok?
    ensures AnswerTo(ops, i).value.MessageReply? && AnswerTo(ops, j).value.MessageReply?
    ensures AnswerTo(ops, i).value.message.id == AnswerTo(ops, j).value.message.id
  {
    CreatedRowIsStored(After(ops[..i]), ops[i]);
    CreatedRowIsStored(After(ops[..j]), ops[j]);
    var first := AnswerTo(ops, i).value.message;
    var stored, table := After(ops[..i + 1]).messages, After(ops[..j]).messages;
    assert ops[..i + 1][..i] == ops[..i];
    var k :| 0 <= k < |stored| && stored[k] == first;
    assert ops[..j][..i + 1] == ops[..i + 1];
    HistoryExtends(ops[..j], i + 1);
    assert table[k] == table[..|stored|][k];
    assert table[k] in table && table[k].id == first.id;
    EachMessageStoredAndAnnouncedOnce(ops[..j]);
    var found := FindByClientId(table, ops[j].conversation, ops[j].clientMsgId);
    assert found.Some?;
    var l :| 0 <= l < |table| && table[l] == found.value;
    assert l == k;
  }

  // ----- Two-phase handoff

  ghost predicate Handoff(row: Conversation) {
    && (row.pendingTo.Some? <==> row.pendingFrom.Some?)
    && (row.pendingTo.Some? <==> row.pendingAt.Some?)
    && (row.pendingTo.Some? ==> row.owner.Some? && row.pendingFrom == row.owner && row.pendingTo != row.owner)
  }

  /** The mutation a call runs on its conversation's row. */
  function MutationOf(db: Db, op: Op): Mutation
    requires !op.CreateConversation? && op.conversation in db.conversations
  {
    var row := db.conversations[op.conversation];
    match op
    case Claim(_, agent, _) => ClaimMutation(row, agent)
    case Transfer(_, actor, role, to, now, _, _) => TransferMutation(row, actor, role, to, now)
    case ConfirmTransfer(_, actor, role, _, _, _) => ConfirmMutation(row, actor, role)
    case RejectTransfer(_, actor, role, _, _, _) => RejectMutation(row, actor, role)
    case Close(_, actor, role, now, _) => CloseMutation(row, actor, role, now)
    case CloseIdle(c, cutoff, now, _) => IdleMutation(row, LatestNonSystem(db.messages, c), cutoff, now)
    case _ => Keep
  }

  predicate PutsRow(w: Write, c: nat) {
    (w.SaveConversation? || w.CloseConversation?) && w.id == c
  }

  /** A row that a transaction writes is the row the call is about, as its mutation returns it. */
  lemma PlannedRow(db: Db, op: Op)
    requires PlanOf(db, op).Ok?
    ensures var writes := PlanOf(db, op).value.writes;
            writes != [] && (writes[0].SaveConversation? || writes[0].CloseConversation?) ==>
              && !op.CreateConversation? && op.conversation == writes[0].id && op.conversation in db.conversations
              && MutationOf(db, op) == Save(writes[0].conversation)
  {
  }

  lemma CommitChanges(db: Db, writes: seq<Write>, c: nat)
    requires KeysBelowCounter(db) && c in db.conversations && PastViews.IsPlanShape(writes)
    ensures c in Commit(db, writes).conversations
    ensures Commit(db, writes).conversations[c]
            == if writes != [] && PutsRow(writes[0], c) then writes[0].conversation else db.conversations[c]
  {
    if |writes| == 1 {
      CommitOfTwo(db, writes[0], writes[0]);
      assert writes == [writes[0]];
    } else if |writes| == 2 {
      CommitOfTwo(db, writes[0], writes[1]);
      assert writes == [writes[0], writes[1]];
    }
  }

  /** A row changes only as the mutation of a call on that very conversation says. */
  lemma RowChanges(db: Db, op: Op, c: nat)
    requires KeysBelowCounter(db) && c in db.conversations
    ensures c in Step(db, op).db.conversations
    ensures Step(db, op).db.conversations[c] != db.conversations[c] ==>
              && !op.CreateConversation? && op.conversation == c
              && MutationOf(db, op) == Save(Step(db, op).db.conversations[c])
  {
    if PlanOf(db, op).Ok? && !op.fault {
      PlannedRow(db, op);
      PastViews.PlanShape(db, op);
      CommitChanges(db, PlanOf(db, op).value.writes, c);
    }
  }

  lemma WriteAddsBlankRows(db: Db, w: Write, c: nat)
    requires LegalWrite(db, w) && c !in db.conversations && c in Apply(db, w).conversations
    ensures w.PutConversation? && Apply(db, w).conversations[c] == w.conversation
  {
  }

  /** Only creating a conversation adds a row, and it starts open, unowned and with nothing pending. */
  lemma NewRowsAreBlank(db: Db, op: Op, c: nat)
    requires c !in db.conversations && c in Step(db, op).db.conversations
    ensures var row := Step(db, op).db.conversations[c];
            row.open && row.owner.None? && row.pendingTo.None? && row.pendingFrom.None? && row.pendingAt.None?
  {
    PlansAreLegal(db, op);
    PastViews.PlanShape(db, op);
    CommitAddsBlankRows(db, PlanOf(db, op).value.writes, c);
  }

  lemma TwoWritesAddNoRow(db: Db, writes: seq<Write>, c: nat)
    requires PastViews.IsPlanShape(writes) && |writes| == 2 && LegalWrites(db, writes)
    ensures c in Commit(db, writes).conversations ==> c in db.conversations
  {
    CommitOfTwo(db, writes[0], writes[1]);
    assert writes == [writes[0], writes[1]];
  }

  lemma CommitAddsBlankRows(db: Db, writes: seq<Write>, c: nat)
    requires PastViews.IsPlanShape(writes) && LegalWrites(db, writes)
    requires c !in db.conversations && c in Commit(db, writes).conversations
    ensures var row := Commit(db, writes).conversations[c];
            row.open && row.owner.None? && row.pendingTo.None? && row.pendingFrom.None? && row.pendingAt.None?
  {
    CommitOfTwo(db, writes[0], writes[|writes| - 1]);
    if |writes| == 1 {
      assert writes == [writes[0]];
      WriteAddsBlankRows(db, writes[0], c);
    } else {
      TwoWritesAddNoRow(db, writes, c);
    }
  }

  /** The pending fields are all set or all empty, and when set name the owner and somebody else. */
  lemma {:induction false} HandoffIsConsistent(ops: seq<Op>, c: nat)
    requires c in After(ops).conversations
    ensures Handoff(After(ops).conversations[c])
  {
    var front := ops[..|ops| - 1];
    var before, op := After(front), ops[|ops| - 1];
    LogRebuildsTables(front, c);
    if c in before.conversations {
      HandoffIsConsistent(front, c);
      RowChanges(before, op, c);
    } else {
      NewRowsAreBlank(before, op, c);
    }
  }

  /** A conversation somebody owns never becomes ownerless. */
  lemma {:induction false} OwnedStaysOwned(ops: seq<Op>, i: nat, c: nat)
    requires i <= |ops| && c in After(ops[..i]).conversations && After(ops[..i]).conversations[c].owner.Some?
    ensures c in After(ops).conversations && After(ops).conversations[c].owner.Some?
  {
    if i == |ops| {
      assert ops[..i] == ops;
    } else {
      var front := ops[..|ops| - 1];
      assert front[..i] == ops[..i];
      OwnedStaysOwned(front, i, c);
      LogRebuildsTables(front, c);
      CallKeepsOwner(After(front), ops[|ops| - 1], c);
    }
  }

  lemma CallKeepsOwner(db: Db, op: Op, c: nat)
    requires KeysBelowCounter(db) && c in db.conversations && db.conversations[c].owner.Some?
    ensures c in Step(db, op).db.conversations && Step(db, op).db.conversations[c].owner.Some?
  {
    RowChanges(db, op, c);
  }

  ghost predicate HasRequest(db: Db, c: nat, a: nat, b: nat) {
    && c in db.conversations && db.conversations[c].open
    && db.conversations[c].owner == Some(a) && db.conversations[c].pendingTo == Some(b)
  }

  /** Call j asked to move c from a to b, and that request has stood unanswered ever since. */
  ghost predicate RequestedBy(ops: seq<Op>, j: nat, c: nat, a: nat, b: nat) {
    && j < |ops|
    && ops[j].Transfer? && ops[j].conversation == c && ops[j].to == b
    && c in After(ops[..j]).conversations
    && After(ops[..j]).conversations[c].owner == Some(a) && After(ops[..j]).conversations[c].pendingTo.None?
    && forall k :: j < k <= |ops| ==> HasRequest(After(ops[..k]), c, a, b)
  }

  lemma {:induction false} RequestIsOnRecord(ops: seq<Op>, c: nat, a: nat, b: nat) returns (j: nat)
    requires HasRequest(After(ops), c, a, b)
    ensures RequestedBy(ops, j, c, a, b)
  {
    var n := |ops| - 1;
    var front := ops[..n];
    var before, op := After(front), ops[n];
    LogRebuildsTables(front, c);
    if c !in before.conversations {
      NewRowsAreBlank(before, op, c);
      assert false;
    }
    RowChanges(before, op, c);
    HandoffIsConsistent(front, c);
    if HasRequest(before, c, a, b) {
      j := RequestIsOnRecord(front, c, a, b);
      assert front[..j] == ops[..j];
      forall k | j < k <= |ops| ensures HasRequest(After(ops[..k]), c, a, b) {
        if k <= n {
          assert front[..k] == ops[..k];
        } else {
          assert ops[..k] == ops;
        }
      }
    } else {
      j := n;
      assert ops[..n + 1] == ops;
    }
  }

  /**
    The owner changes from a to b only when a call confirms a request from a to b that an earlier call
    made and that no reject, close or other confirm has touched in between.
   */
  lemma OwnerChangesByConfirmedRequest(ops: seq<Op>, op: Op, c: nat, a: nat, b: nat) returns (j: nat)
    requires c in After(ops).conversations && After(ops).conversations[c].owner == Some(a)
    requires c in Step(After(ops), op).db.conversations && Step(After(ops), op).db.conversations[c].owner == Some(b)
    requires a != b
    ensures op.ConfirmTransfer? && op.conversation == c && (IsAdmin(op.role) || op.actor == b)
    ensures RequestedBy(ops, j, c, a, b)
  {
    LogRebuildsTables(ops, c);
    RowChanges(After(ops), op, c);
    HandoffIsConsistent(ops, c);
    j := RequestIsOnRecord(ops, c, a, b);
  }
}
