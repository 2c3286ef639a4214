/**
  The service as it runs: an object whose methods update the tables in place and put them back when
  a transaction fails. Each method is proved to do exactly what the planned transaction says.
 */
module ChatServices {
  import opened Prelude
  import opened ChatModel
  import opened OpenConversations
  import opened IdleBatch
  import EventLog

  class ChatService {
    var conversations: map<nat, Conversation>
    var messages: seq<Message>
    var outbox: seq<Row>
    var nextConversation: nat
    var nextMessage: nat
    var nextEvent: nat

    function Tables(): Db
      reads this
    {
      Db(conversations, messages, outbox, nextConversation, nextMessage, nextEvent)
    }

    constructor ()
      ensures Tables() == EMPTY_DB
    {
      conversations, messages, outbox := map[], [], [];
      nextConversation, nextMessage, nextEvent := 1, 1, 1;
    }

    /** Undoes the writes since `saved`; auto-increment values stay used. */
    method Abort(saved: Db)
      modifies this
      ensures Tables() == saved.(nextConversation := old(nextConversation), nextMessage := old(nextMessage),
                                 nextEvent := old(nextEvent))
    {
      conversations, messages, outbox := saved.conversations, saved.messages, saved.outbox;
    }

    method EnqueueOutboxEvent(event: Event)
      modifies this
      ensures Tables() == Emit(old(Tables()), event)
    {
      outbox := outbox + [Row(nextEvent, event)];
      nextEvent := nextEvent + 1;
    }

    /** Inserts a message row and its event. */
    method StoreMessage(c: nat, sender: Sender, senderAgent: Option<nat>, content: string, clientMsgId: string,
                        now: nat)
      returns (m: Message)
      modifies this
      ensures Tables() == Apply(old(Tables()), InsertMessage(c, sender, senderAgent, content, clientMsgId, now))
      ensures m == Message(old(nextMessage), c, sender, senderAgent, content, clientMsgId, Sent, now)
    {
      m := Message(nextMessage, c, sender, senderAgent, content, clientMsgId, Sent, now);
      messages := messages + [m];
      nextMessage := nextMessage + 1;
      EnqueueOutboxEvent(MessageNew(c, m));
    }

    method GetByClientMsgId(c: nat, clientMsgId: string) returns (r: Option<Message>)
      ensures r == FindByClientId(messages, c, clientMsgId)
    {
      var i := 0;
      while i < |messages|
        invariant 0 <= i <= |messages|
        invariant FindByClientId(messages, c, clientMsgId) == FindByClientId(messages[i..], c, clientMsgId)
      {
        if messages[i].conversation == c && messages[i].clientMsgId == clientMsgId {
          return Some(messages[i]);
        }
        assert messages[i..][1..] == messages[i + 1..];
        i := i + 1;
      }
      r := None;
    }

    method GetLatestExcludingSystem(c: nat) returns (r: Option<Message>)
      ensures r == LatestNonSystem(messages, c)
    {
      var n := |messages|;
      assert messages[..n] == messages;
      while n > 0
        invariant 0 <= n <= |messages|
        invariant LatestNonSystem(messages, c) == LatestNonSystem(messages[..n], c)
      {
        n := n - 1;
        if messages[n].conversation == c && messages[n].sender != System {
          return Some(messages[n]);
        }
        assert messages[..n + 1][..n] == messages[..n];
      }
      r := None;
    }

    /** UPDATE ... SET status = read; answers how many rows it changed. */
    method MarkReadBySender(c: nat, sender: Sender, upTo: nat) returns (rows: nat)
      modifies this`messages
      ensures messages == MarkRows(old(messages), c, sender, upTo)
      ensures rows == CountUnread(old(messages), c, sender, upTo)
    {
      rows := 0;
      ghost var before := messages;
      for i := 0 to |messages|
        modifies this`messages
        invariant |messages| == |before|
        invariant forall k :: 0 <= k < |before| ==>
            messages[k] == if k < i then MarkRow(before[k], c, sender, upTo) else before[k]
        invariant rows == CountUnread(before[..i], c, sender, upTo)
      {
        assert before[..i + 1][..i] == before[..i];
        if IsUnread(messages[i], c, sender, upTo) {
          messages := messages[i := messages[i].(status := Read)];
          rows := rows + 1;
        }
      }
      assert before[..|before|] == before;
    }

    method CreateConversation(op: Op) returns (answer: Result<Reply, Error>)
      requires op.CreateConversation?
      modifies this
      ensures Outcome(Tables(), answer) == Step(old(Tables()), op)
    {
      var site, visitor := Text.Trim(op.site), Text.Trim(op.visitor);
      if site == "" || visitor == "" {
        return Err(InvalidInput);
      }
      var found: Option<nat> := None;
      var c: nat := nextConversation;
      while c > 0 && found.None?
        invariant c <= nextConversation
        invariant LatestOpen(conversations, site, visitor, nextConversation)
               == if found.Some? then found else LatestOpen(conversations, site, visitor, c)
        decreases c
      {
        c := c - 1;
        if c in conversations && IsOpenFor(conversations[c], site, visitor) {
          found := Some(c);
        }
      }
      ghost var saved := Tables();
      if found.Some? {
        if op.fault {
          return Err(Storage);
        }
        return Ok(ConversationReply(found.value, conversations[found.value]));
      }
      var row := Conversation(site, visitor, true, None, None, None, None, None, None);
      var id := nextConversation;
      ghost var w := PutConversation(row);
      assert [w][1..] == [] && Commit(Apply(saved, w), []) == Apply(saved, w);
      nextConversation := nextConversation + 1;
      if op.fault {
        return Err(Storage);
      }
      conversations := conversations[id := row];
      answer := Ok(ConversationReply(id, row));
    }

    method CreateMessage(op: Op) returns (answer: Result<Reply, Error>)
      requires op.CreateMessage?
      modifies this
      ensures Outcome(Tables(), answer) == Step(old(Tables()), op)
    {
      if op.sender.None? || Text.Trim(op.content) == "" || |op.content| > MAX_MESSAGE_CONTENT_CHARS {
        return Err(InvalidInput);
      }
      if op.conversation !in conversations {
        return Err(NotFound);
      }
      var conversation := conversations[op.conversation];
      if !conversation.open {
        return Err(Closed);
      }
      if op.sender.value == Visitor {
        var token := Text.Trim(op.visitorToken);
        if token == "" || conversation.visitor != token {
          return Err(InvalidInput);
        }
      }
      if op.sender.value == Agent {
        if op.senderAgent.None? || op.senderAgent.value == 0 {
          return Err(InvalidInput);
        }
        if conversation.owner.None? {
          return Err(Unassigned);
        }
        if conversation.owner.value != op.senderAgent.value {
          return Err(Forbidden);
        }
      }
      var existing := GetByClientMsgId(op.conversation, op.clientMsgId);
      if existing.Some? {
        if op.fault {
          return Err(Storage);
        }
        return Ok(MessageReply(existing.value));
      }
      var saved := Tables();
      var message := StoreMessage(op.conversation, op.sender.value, op.senderAgent, op.content, op.clientMsgId, op.now);
      ghost var w := InsertMessage(op.conversation, op.sender.value, op.senderAgent, op.content, op.clientMsgId,
                                   op.now);
      assert [w][1..] == [] && Commit(Apply(saved, w), []) == Apply(saved, w);
      if op.fault {
        Abort(saved);
        return Err(Storage);
      }
      answer := Ok(MessageReply(message));
    }

    method MarkMessagesRead(op: Op) returns (answer: Result<Reply, Error>)
      requires op.MarkMessagesRead?
      modifies this
      ensures Outcome(Tables(), answer) == Step(old(Tables()), op)
    {
      if op.conversation == 0 || op.lastRead == 0 || op.actorType == UnknownActor {
        return Err(InvalidInput);
      }
      if op.conversation !in conversations {
        return Err(NotFound);
      }
      var targets := [Visitor];
      if op.actorType == VisitorActor {
        if Text.Trim(op.visitorToken) == "" || conversations[op.conversation].visitor != op.visitorToken {
          return Err(InvalidInput);
        }
        targets := [Agent, Ai];
      } else if op.actor == 0 {
        return Err(InvalidInput);
      }
      var saved := Tables();
      var total := 0;
      ghost var writes: seq<Write> := [];
      for i := 0 to |targets|
        modifies this
        invariant Tables() == Commit(saved, writes)
        invariant i == 0 ==> writes == [] && total == 0
        invariant i == 1 ==> writes == RangeWrites(saved, op.conversation, targets[0], op.lastRead)
                             && total == CountUnread(saved.messages, op.conversation, targets[0], op.lastRead)
        invariant i == 2 ==>
            && writes == RangeWrites(saved, op.conversation, Agent, op.lastRead)
                         + RangeWrites(saved, op.conversation, Ai, op.lastRead)
            && total == CountUnread(saved.messages, op.conversation, Agent, op.lastRead)
                        + CountUnread(saved.messages, op.conversation, Ai, op.lastRead)
      {
        ghost var mid := Tables();
        if i == 1 {
          UnreadUnchanged(saved, writes, op.conversation, op.lastRead);
        }
        var rows := MarkReadBySender(op.conversation, targets[i], op.lastRead);
        if rows > 0 {
          EnqueueOutboxEvent(StatusRange(op.conversation, targets[i], op.lastRead));
        }
        RangeCommitted(saved, writes, op.conversation, targets[i], op.lastRead);
        writes := writes + RangeWrites(mid, op.conversation, targets[i], op.lastRead);
        total := total + rows;
      }
      if op.fault {
        Abort(saved);
        return Err(Storage);
      }
      answer := Ok(RowsReply(total));
    }

    method ClaimConversation(op: Op) returns (answer: Result<Reply, Error>)
      requires op.Claim?
      modifies this
      ensures Outcome(Tables(), answer) == Step(old(Tables()), op)
    {
      if op.conversation == 0 || op.agent == 0 {
        return Err(InvalidInput);
      }
      if op.conversation !in conversations {
        return Err(NotFound);
      }
      var row := conversations[op.conversation];
      if !row.open {
        return Err(Closed);
      }
      if row.owner.Some? {
        if row.owner.value != op.agent {
          return Err(AlreadyClaimed);
        }
        if op.fault {
          return Err(Storage);
        }
        return Ok(ConversationReply(op.conversation, row));
      }
      row := row.(owner := Some(op.agent), pendingTo := None, pendingFrom := None, pendingAt := None);
      ghost var saved, w := Tables(), SaveConversation(op.conversation, row);
      assert [w][1..] == [] && Commit(Apply(saved, w), []) == Apply(saved, w);
      if op.fault {
        return Err(Storage);
      }
      conversations := conversations[op.conversation := row];
      answer := Ok(ConversationReply(op.conversation, row));
    }

    /** Saves a transferred row and publishes its system message in one transaction. */
    method SaveAndNotify(id: nat, row: Conversation, notice: Notice, now: nat, fault: bool)
      returns (answer: Result<Reply, Error>)
      requires id in conversations
      modifies this
      ensures answer == if fault || FindByClientId(old(messages), id, notice.clientMsgId).Some? then Err(Storage)
                        else Ok(ConversationReply(id, row))
      ensures var planned := PlanNotified(old(Tables()), id, Save(row), notice, now);
              Tables() == if planned.Err? then old(Tables())
                          else if fault then Rollback(old(Tables()), planned.value.writes)
                          else Commit(old(Tables()), planned.value.writes)
    {
      var duplicate := GetByClientMsgId(id, notice.clientMsgId);
      if duplicate.Some? {
        return Err(Storage);
      }
      var saved := Tables();
      conversations := conversations[id := row];
      var _ := StoreMessage(id, System, None, notice.text, notice.clientMsgId, now);
      ghost var w0 := SaveConversation(id, row);
      ghost var w1 := InsertMessage(id, System, None, notice.text, notice.clientMsgId, now);
      CommitSnoc(saved, [w0], w1);
      assert [w0] + [w1] == [w0, w1];
      assert [w0][1..] == [] && Commit(Apply(saved, w0), []) == Apply(saved, w0);
      if fault {
        Abort(saved);
        return Err(Storage);
      }
      answer := Ok(ConversationReply(id, row));
    }

    method TransferConversation(op: Op) returns (answer: Result<Reply, Error>)
      requires op.Transfer?
      modifies this
      ensures Outcome(Tables(), answer) == Step(old(Tables()), op)
    {
      if op.conversation == 0 || op.actor == 0 || op.to == 0 || op.role == UnknownRole {
        return Err(InvalidInput);
      }
      if op.conversation !in conversations {
        return Err(NotFound);
      }
      var row := conversations[op.conversation];
      if !row.open {
        return Err(Closed);
      }
      if row.owner.None? {
        return Err(Unassigned);
      }
      if !IsAdmin(op.role) && row.owner.value != op.actor {
        return Err(Forbidden);
      }
      if row.owner.value != op.to && row.pendingTo.Some? && row.pendingTo.value != op.to {
        return Err(TransferIsPending);
      }
      if row.owner.value == op.to || row.pendingTo.Some? {
        if op.fault {
          return Err(Storage);
        }
        return Ok(ConversationReply(op.conversation, row));
      }
      row := row.(pendingTo := Some(op.to));
      row := row.(pendingFrom := Some(row.owner.value));
      row := row.(pendingAt := Some(op.now));
      answer := SaveAndNotify(op.conversation, row, op.notice, op.now, op.fault);
    }

    method ConfirmTransferConversation(op: Op) returns (answer: Result<Reply, Error>)
      requires op.ConfirmTransfer?
      modifies this
      ensures Outcome(Tables(), answer) == Step(old(Tables()), op)
    {
      if op.conversation == 0 || op.actor == 0 || op.role == UnknownRole {
        return Err(InvalidInput);
      }
      if op.conversation !in conversations {
        return Err(NotFound);
      }
      var row := conversations[op.conversation];
      if !row.open {
        return Err(Closed);
      }
      if row.pendingTo.None? {
        return Err(TransferNotPending);
      }
      if !IsAdmin(op.role) && row.pendingTo.value != op.actor {
        return Err(Forbidden);
      }
      var acceptedBy := row.pendingTo.value;
      row := row.(owner := Some(acceptedBy));
      row := row.(pendingTo := None, pendingFrom := None, pendingAt := None);
      answer := SaveAndNotify(op.conversation, row, op.notice, op.now, op.fault);
    }

    method RejectTransferConversation(op: Op) returns (answer: Result<Reply, Error>)
      requires op.RejectTransfer?
      modifies this
      ensures Outcome(Tables(), answer) == Step(old(Tables()), op)
    {
      if op.conversation == 0 || op.actor == 0 || op.role == UnknownRole {
        return Err(InvalidInput);
      }
      if op.conversation !in conversations {
        return Err(NotFound);
      }
      var row := conversations[op.conversation];
      if !row.open {
        return Err(Closed);
      }
      if row.pendingTo.None? {
        return Err(TransferNotPending);
      }
      if !IsAdmin(op.role) && row.pendingTo.value != op.actor {
        return Err(Forbidden);
      }
      row := row.(pendingTo := None, pendingFrom := None, pendingAt := None);
      answer := SaveAndNotify(op.conversation, row, op.notice, op.now, op.fault);
    }

    /** Saves a closed row and its closed event in one transaction. */
    method SaveAndAnnounceClosed(id: nat, row: Conversation, fault: bool)
      requires id in conversations
      modifies this
      ensures Tables() == if fault then Rollback(old(Tables()), [ChatModel.Write.CloseConversation(id, row)])
                          else Commit(old(Tables()), [ChatModel.Write.CloseConversation(id, row)])
    {
      var saved := Tables();
      conversations := conversations[id := row];
      EnqueueOutboxEvent(ConversationClosed(id));
      ghost var w := ChatModel.Write.CloseConversation(id, row);
      assert [w][1..] == [] && Commit(Apply(saved, w), []) == Apply(saved, w);
      if fault {
        Abort(saved);
      }
    }

    method CloseConversation(op: Op) returns (answer: Result<Reply, Error>)
      requires op.Close?
      modifies this
      ensures Outcome(Tables(), answer) == Step(old(Tables()), op)
    {
      if op.conversation == 0 || op.actor == 0 || op.role == UnknownRole {
        return Err(InvalidInput);
      }
      if op.conversation !in conversations {
        return Err(NotFound);
      }
      var row := conversations[op.conversation];
      if row.open {
        if !IsAdmin(op.role) && (row.owner.None? || row.owner.value != op.actor) {
          return Err(Forbidden);
        }
        row := row.(open := false, closedAt := Some(op.now), closedBy := Some(op.actor));
        row := row.(pendingTo := None, pendingFrom := None, pendingAt := None);
        SaveAndAnnounceClosed(op.conversation, row, op.fault);
      }
      answer := if op.fault then Err(Storage) else Ok(ConversationReply(op.conversation, row));
    }

    /** Closes a conversation whose last word is an agent's from before the cutoff. */
    method AutoCloseConversation(op: Op) returns (answer: Result<Reply, Error>, closed: bool)
      requires op.CloseIdle?
      modifies this
      ensures Outcome(Tables(), answer) == Step(old(Tables()), op)
      ensures |outbox| == |old(outbox)| + (if closed then 1 else 0) && (answer.Err? <==> op.fault)
      ensures closed <==> !op.fault && op.conversation != 0 && op.conversation in old(conversations)
                          && old(conversations)[op.conversation].open
                          && IsIdle(old(messages), op.conversation, op.cutoff)
      ensures ClosesAtMost(old(Tables()), Tables(), op.conversation, closed)
    {
      closed := false;
      if op.conversation != 0 && op.conversation in conversations {
        var row := conversations[op.conversation];
        var latest := GetLatestExcludingSystem(op.conversation);
        if row.open && latest.Some? && latest.value.sender == Agent && latest.value.createdAt <= op.cutoff {
          row := row.(open := false, closedAt := Some(op.now));
          row := row.(closedBy := row.owner);
          SaveAndAnnounceClosed(op.conversation, row, op.fault);
          ghost var w := ChatModel.Write.CloseConversation(op.conversation, row);
          assert [w][1..] == [] && Commit(Apply(old(Tables()), w), []) == Apply(old(Tables()), w);
          closed := !op.fault;
        }
      }
      answer := if op.fault then Err(Storage) else Ok(NoReply);
    }

    /** The closing transaction of an idle open conversation closes it unless storage fails. */
    method CloseOne(op: Op) returns (closed: bool)
      requires op.CloseIdle? && op.conversation != 0 && op.conversation in conversations
      requires conversations[op.conversation].open && IsIdle(messages, op.conversation, op.cutoff)
      modifies this
      ensures Tables() == Step(old(Tables()), op).db && closed == !op.fault
      ensures |outbox| == |old(outbox)| + (if closed then 1 else 0)
      ensures ClosesAtMost(old(Tables()), Tables(), op.conversation, closed)
    {
      var answer;
      answer, closed := AutoCloseConversation(op);
    }

    /** One conversation of the batch: a check, and a closing transaction if it is idle. */
    method CheckAndClose(ghost b: Batch, ghost past: seq<Db>, id: nat, i: nat, cutoff: int, now: nat, fault: bool)
      returns (closed: bool, failed: bool, ghost ops: seq<Op>, ghost past': seq<Db>)
      requires IsBatchAt(b, Tables(), i) && i < |b.ids| && id == b.ids[i] && cutoff == b.cutoff
      requires now == b.clock(|b.ops|) && fault == (|b.ops| in b.faults) && IsPast(b, past, Tables())
      modifies this
      ensures IsPast(b.(ops := ops), past', Tables())
      ensures !failed ==> IsBatchAt(b.(ops := ops), Tables(), i + 1) && |ops| == |b.ops| + if closed then 1 else 0
      ensures closed ==> !fault
      ensures failed ==> fault && IsStopped(b.(ops := ops)) && |ops| == |b.ops| + 1
    {
      closed, failed, ops, past' := false, false, b.ops, past;
      ghost var was := Tables();
      BatchNext(b, was, i);
      var latest := GetLatestExcludingSystem(id);
      if latest.Some? && latest.value.sender == Agent && latest.value.createdAt <= cutoff {
        ghost var op := CloseIdle(id, cutoff, now, fault);
        closed := CloseOne(CloseIdle(id, cutoff, now, fault));
        failed := !closed;
        ops := ops + [op];
        past' := past + [Tables()];
        PastGrows(b, past, was, op, Tables());
        BatchClosed(b, was, Tables(), i, op, closed);
      } else {
        BatchSkips(b, was, i);
      }
    }

    /**
      The batch closer: checks each conversation open at the start, newest first, and closes the idle ones in one
      transaction each, stopping at the first storage error. `clock` is the time each transaction reads,
      `readFaults` the conversations whose check storage fails, `faults` the transactions it fails.
     */
    method AutoCloseInactiveConversations(inactivity: int, now: nat, clock: nat -> nat,
                                          readFaults: set<nat>, faults: set<nat>)
      returns (closedCount: nat, error: Option<Error>, ghost ops: seq<Op>)
      requires 0 !in conversations // auto-increment keys start at 1
      modifies this
      ensures inactivity <= 0 ==> error == Some(InvalidInput) && Tables() == old(Tables()) && closedCount == 0
      ensures Tables() == Run(old(Tables()), ops)
      ensures inactivity > 0 ==>
                IsDone(BatchOf(old(Tables()), now - inactivity, clock, faults, ops), Tables(), closedCount, error,
                       readFaults)
    {
      if inactivity <= 0 {
        return 0, Some(InvalidInput), [];
      }
      var ids := CollectOpen(Tables());
      ghost var b, past := BatchOf(Tables(), now - inactivity, clock, faults, []), [];
      BatchStarts(b);
      closedCount, error, ops, past := CloseBatch(b, ids, now - inactivity, clock, readFaults, faults);
      PastIsRun(b.(ops := ops), past, Tables());
    }

    method CloseBatch(ghost start: Batch, ids: seq<nat>, cutoff: int, clock: nat -> nat,
                      readFaults: set<nat>, faults: set<nat>)
      returns (closedCount: nat, error: Option<Error>, ghost ops: seq<Op>, ghost past: seq<Db>)
      requires start == Batch(Tables(), ids, cutoff, clock, faults, []) && IsBatchAt(start, Tables(), 0)
      modifies this
      ensures IsDone(start.(ops := ops), Tables(), closedCount, error, readFaults)
      ensures IsPast(start.(ops := ops), past, Tables())
    {
      closedCount, error, ops, past := 0, None, [], [Tables()];
      ghost var b := start;
      for i := 0 to |ids|
        modifies this
        invariant b == start.(ops := ops) && error.None? && closedCount == |ops|
        invariant IsBatchAt(b, Tables(), i) && IsPast(b, past, Tables())
        invariant forall k :: 0 <= k < closedCount ==> k !in faults
      {
        if i in readFaults {
          error := Some(Storage);
          BatchStops(b, Tables(), i);
          return;
        }
        var closed, failed;
        closed, failed, ops, past :=
          CheckAndClose(b, past, ids[i], i, cutoff, clock(closedCount), closedCount in faults);
        b := b.(ops := ops);
        if failed {
          error := Some(Storage);
          return;
        }
        if closed {
          closedCount := closedCount + 1;
        }
      }
    }
  }

  lemma {:induction false} CommitSnoc(db: Db, writes: seq<Write>, w: Write)
    ensures Commit(db, writes + [w]) == Apply(Commit(db, writes), w)
    decreases |writes|
  {
    if writes == [] {
      assert [w][1..] == [];
      assert writes + [w] == [w];
      assert Commit(Apply(db, w), []) == Apply(db, w);
    } else {
      assert (writes + [w])[1..] == writes[1..] + [w];
      CommitSnoc(Apply(db, writes[0]), writes[1..], w);
    }
  }

  /** A marking UPDATE and, if it changed a row, its event. */
  lemma RangeCommitted(db: Db, writes: seq<Write>, c: nat, sender: Sender, upTo: nat)
    ensures var mid := Commit(db, writes);
            var marked := mid.(messages := MarkRows(mid.messages, c, sender, upTo));
            Commit(db, writes + RangeWrites(mid, c, sender, upTo))
            == if CountUnread(mid.messages, c, sender, upTo) > 0 then Emit(marked, StatusRange(c, sender, upTo))
               else marked
  {
    var mid := Commit(db, writes);
    if CountUnread(mid.messages, c, sender, upTo) > 0 {
      CommitSnoc(db, writes, MarkRange(c, sender, upTo));
    } else {
      EventLog.NothingToMark(mid.messages, c, sender, upTo);
      assert writes + [] == writes;
    }
  }

  /** Marking the agent's rows first does not change how many of the assistant's are unread. */
  lemma UnreadUnchanged(db: Db, writes: seq<Write>, c: nat, upTo: nat)
    requires writes == RangeWrites(db, c, Agent, upTo)
    ensures CountUnread(Commit(db, writes).messages, c, Ai, upTo) == CountUnread(db.messages, c, Ai, upTo)
  {
    EventLog.MarkingKeepsOthers(db.messages, c, Agent, upTo, c, Ai, upTo);
    if writes != [] {
      assert writes[1..] == [];
      assert Commit(Apply(db, writes[0]), []) == Apply(db, writes[0]);
    }
  }
}
