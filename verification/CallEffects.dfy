/**
  What each call answers and does to the tables, said in terms of the tables and not of the plans: who may make it,
  which row it changes to what, and which message and event come with it.
 */
module CallEffects {
  import opened Prelude
  import opened ChatModel
  import opened EventLog
  import Text

  /** The tables are as they were; auto-increment values may have been used up. */
  ghost predicate Untouched(db: Db, db': Db) {
    db'.conversations == db.conversations && db'.messages == db.messages && db'.outbox == db.outbox
  }

  /** One message is added to a conversation, together with its event. */
  ghost predicate Posts(db: Db, db': Db, m: Message) {
    && m.id == db.nextMessage && m.status == Sent
    && db'.messages == db.messages + [m] && db'.outbox == db.outbox + [Row(db.nextEvent, MessageNew(m.conversation, m))]
  }

  /** A transfer's system message, under the notice's text and client id. */
  ghost predicate PostsNotice(db: Db, db': Db, c: nat, notice: Notice, now: nat) {
    Posts(db, db', Message(db.nextMessage, c, System, None, notice.text, notice.clientMsgId, Sent, now))
  }

  /** No other row changes. */
  ghost predicate ChangesRow(db: Db, db': Db, c: nat, row: Conversation) {
    db'.conversations == db.conversations[c := row]
  }

  /** Two rows that differ at most in owner and pending fields. */
  ghost predicate SameApartFromOwnership(a: Conversation, b: Conversation) {
    && a.site == b.site && a.visitor == b.visitor && a.open == b.open
    && a.closedAt == b.closedAt && a.closedBy == b.closedBy
  }

  ghost predicate NothingPending(row: Conversation) {
    row.pendingTo.None? && row.pendingFrom.None? && row.pendingAt.None?
  }

  predicate IsSupervisor(role: Role) {
    role == AdminRole || role == SuperAdminRole
  }

  // ----- Refusals and faults

  /** A call that answers an error has changed nothing. */
  lemma FailuresChangeNothing(db: Db, op: Op)
    requires Step(db, op).answer.Err?
    ensures Untouched(db, Step(db, op).db)
  {
  }

  /** A call that storage fails answers an error. */
  lemma FaultsFail(db: Db, op: Op)
    requires op.fault
    ensures Step(db, op).answer.Err?
  {
  }

  /** Calls that name no conversation, no actor or no known role are invalid; a conversation must exist. */
  lemma TransferCallsAreValidated(db: Db, op: Op)
    requires op.Transfer? || op.ConfirmTransfer? || op.RejectTransfer?
    ensures op.conversation == 0 || op.actor == 0 || (op.Transfer? && op.to == 0) || op.role == UnknownRole ==>
              Step(db, op).answer == Err(InvalidInput)
    ensures op.conversation != 0 && op.actor != 0 && (op.Transfer? ==> op.to != 0) && op.role != UnknownRole
            && op.conversation !in db.conversations ==>
              Step(db, op).answer == Err(NotFound)
  {
  }

  // ----- Two-phase handoff

  ghost predicate IsKnown(db: Db, op: Op)
    requires op.Transfer? || op.ConfirmTransfer? || op.RejectTransfer?
  {
    && op.conversation != 0 && op.actor != 0 && op.role != UnknownRole && op.conversation in db.conversations
    && (op.Transfer? ==> op.to != 0)
    && !op.fault
    && forall m :: m in db.messages && m.conversation == op.conversation ==> m.clientMsgId != op.notice.clientMsgId
  }

  lemma NoticeIsFree(db: Db, op: Op)
    requires (op.Transfer? || op.ConfirmTransfer? || op.RejectTransfer?) && IsKnown(db, op)
    ensures FindByClientId(db.messages, op.conversation, op.notice.clientMsgId).None?
  {
  }

  /** The two writes of a transfer step. */
  lemma SavedAndNotified(db: Db, c: nat, row: Conversation, notice: Notice, now: nat)
    ensures var w := InsertMessage(c, System, None, notice.text, notice.clientMsgId, now);
            var db' := Commit(db, [SaveConversation(c, row), w]);
            ChangesRow(db, db', c, row) && PostsNotice(db, db', c, notice, now)
  {
    CommitOfTwo(db, SaveConversation(c, row), InsertMessage(c, System, None, notice.text, notice.clientMsgId, now));
  }

  /**
    Confirming an open request hands the conversation over: the requested agent, or a supervisor, makes the requested
    agent its owner and clears the request; anybody else is refused.
   */
  lemma ConfirmHandsOver(db: Db, op: Op)
    requires op.ConfirmTransfer? && IsKnown(db, op)
    ensures var c, row, out := op.conversation, db.conversations[op.conversation], Step(db, op);
            if !row.open then out.answer == Err(Closed)
            else if row.pendingTo.None? then out.answer == Err(TransferNotPending)
            else if op.actor != row.pendingTo.value && !IsSupervisor(op.role) then out.answer == Err(Forbidden)
            else
              && c in out.db.conversations
              && var row' := out.db.conversations[c];
                 && out.answer == Ok(ConversationReply(c, row')) && ChangesRow(db, out.db, c, row')
                 && row'.owner == row.pendingTo && NothingPending(row') && SameApartFromOwnership(row, row')
                 && PostsNotice(db, out.db, c, op.notice, op.now)
  {
    NoticeIsFree(db, op);
    var row := db.conversations[op.conversation];
    SavedAndNotified(db, op.conversation, ClearPending(row).(owner := row.pendingTo), op.notice, op.now);
  }

  /** Rejecting a request clears it and leaves the owner; the same agents may do it. */
  lemma RejectKeepsOwner(db: Db, op: Op)
    requires op.RejectTransfer? && IsKnown(db, op)
    ensures var c, row, out := op.conversation, db.conversations[op.conversation], Step(db, op);
            if !row.open then out.answer == Err(Closed)
            else if row.pendingTo.None? then out.answer == Err(TransferNotPending)
            else if op.actor != row.pendingTo.value && !IsSupervisor(op.role) then out.answer == Err(Forbidden)
            else
              && c in out.db.conversations
              && var row' := out.db.conversations[c];
                 && out.answer == Ok(ConversationReply(c, row')) && ChangesRow(db, out.db, c, row')
                 && row'.owner == row.owner && NothingPending(row') && SameApartFromOwnership(row, row')
                 && PostsNotice(db, out.db, c, op.notice, op.now)
  {
    NoticeIsFree(db, op);
    SavedAndNotified(db, op.conversation, ClearPending(db.conversations[op.conversation]), op.notice, op.now);
  }

  /**
    Transferring opens a request from the owner to the given agent; it takes the owner or a supervisor. Asking again
    for the same agent, or for the owner, changes nothing; asking for another one while a request is open is refused.
   */
  lemma TransferOpensRequest(db: Db, op: Op)
    requires op.Transfer? && IsKnown(db, op)
    ensures var c, row, out := op.conversation, db.conversations[op.conversation], Step(db, op);
            if !row.open then out.answer == Err(Closed)
            else if row.owner.None? then out.answer == Err(Unassigned)
            else if op.actor != row.owner.value && !IsSupervisor(op.role) then out.answer == Err(Forbidden)
            else if row.owner.value == op.to || row.pendingTo == Some(op.to) then
              out.answer == Ok(ConversationReply(c, row)) && out.db == db
            else if row.pendingTo.Some? then out.answer == Err(TransferIsPending)
            else
              && c in out.db.conversations
              && var row' := out.db.conversations[c];
                 && out.answer == Ok(ConversationReply(c, row')) && ChangesRow(db, out.db, c, row')
                 && row'.owner == row.owner && SameApartFromOwnership(row, row')
                 && row'.pendingTo == Some(op.to) && row'.pendingFrom == row.owner && row'.pendingAt == Some(op.now)
                 && PostsNotice(db, out.db, c, op.notice, op.now)
  {
    NoticeIsFree(db, op);
    var row := db.conversations[op.conversation];
    var row' := row.(pendingTo := Some(op.to), pendingFrom := row.owner, pendingAt := Some(op.now));
    SavedAndNotified(db, op.conversation, row', op.notice, op.now);
  }

  /** Claiming an unowned conversation makes the caller its owner; a second claim by the owner changes nothing. */
  lemma ClaimTakesUnowned(db: Db, op: Op)
    requires op.Claim? && !op.fault
    ensures var c, out := op.conversation, Step(db, op);
            if c == 0 || op.agent == 0 then out.answer == Err(InvalidInput)
            else if c !in db.conversations then out.answer == Err(NotFound)
            else
              var row := db.conversations[c];
              if !row.open then out.answer == Err(Closed)
              else if row.owner == Some(op.agent) then out.answer == Ok(ConversationReply(c, row)) && out.db == db
              else if row.owner.Some? then out.answer == Err(AlreadyClaimed)
              else
                && c in out.db.conversations
                && var row' := out.db.conversations[c];
                   && out.answer == Ok(ConversationReply(c, row')) && ChangesRow(db, out.db, c, row')
                   && row'.owner == Some(op.agent) && NothingPending(row') && SameApartFromOwnership(row, row')
                   && out.db.messages == db.messages && out.db.outbox == db.outbox
  {
    if op.conversation in db.conversations {
      var row := db.conversations[op.conversation];
      var w := SaveConversation(op.conversation, ClearPending(row).(owner := Some(op.agent)));
      CommitOfTwo(db, w, w);
    }
  }

  // ----- Closing

  /** The conversation is closed by somebody at a time, with its event, and apart from what is said it stays. */
  ghost predicate Closes(db: Db, db': Db, c: nat, closer: Option<nat>, now: nat)
    requires c in db.conversations
  {
    && c in db'.conversations && ChangesRow(db, db', c, db'.conversations[c])
    && var row, row' := db.conversations[c], db'.conversations[c];
       && !row'.open && row'.closedAt == Some(now) && row'.closedBy == closer
       && row'.site == row.site && row'.visitor == row.visitor && row'.owner == row.owner
       && db'.messages == db.messages && db'.outbox == db.outbox + [Row(db.nextEvent, ConversationClosed(c))]
  }

  /** Closing takes the owner or a supervisor, names the actor and clears a request; closing again changes nothing. */
  lemma CloseNamesActor(db: Db, op: Op)
    requires op.Close? && !op.fault
    ensures var c, out := op.conversation, Step(db, op);
            if c == 0 || op.actor == 0 || op.role == UnknownRole then out.answer == Err(InvalidInput)
            else if c !in db.conversations then out.answer == Err(NotFound)
            else
              var row := db.conversations[c];
              if !row.open then out.answer == Ok(ConversationReply(c, row)) && out.db == db
              else if row.owner != Some(op.actor) && !IsSupervisor(op.role) then out.answer == Err(Forbidden)
              else
                && Closes(db, out.db, c, Some(op.actor), op.now) && NothingPending(out.db.conversations[c])
                && out.answer == Ok(ConversationReply(c, out.db.conversations[c]))
  {
    if op.conversation in db.conversations {
      var row := ClearPending(db.conversations[op.conversation]);
      var w := CloseConversation(op.conversation,
                                 row.(open := false, closedAt := Some(op.now), closedBy := Some(op.actor)));
      CommitOfTwo(db, w, w);
    }
  }

  /** A timeout names the owner as the closer, leaves a request as it is, and closes only a conversation long idle. */
  lemma TimeoutNamesOwner(db: Db, op: Op)
    requires op.CloseIdle? && !op.fault
    ensures var c, out := op.conversation, Step(db, op);
            var latest := LatestNonSystem(db.messages, c);
            && out.answer == Ok(NoReply)
            && if c != 0 && c in db.conversations && db.conversations[c].open
                  && latest.Some? && latest.value.sender == Agent && latest.value.createdAt <= op.cutoff
               then
                 && Closes(db, out.db, c, db.conversations[c].owner, op.now)
                 && out.db.conversations[c].pendingTo == db.conversations[c].pendingTo
                 && out.db.conversations[c].pendingFrom == db.conversations[c].pendingFrom
                 && out.db.conversations[c].pendingAt == db.conversations[c].pendingAt
               else out.db == db
  {
    if op.conversation in db.conversations {
      var row := db.conversations[op.conversation];
      var w := CloseConversation(op.conversation, row.(open := false, closedAt := Some(op.now), closedBy := row.owner));
      CommitOfTwo(db, w, w);
    }
  }

  // ----- Messages

  /** A stored message under the call's client id, if there is one. */
  ghost predicate IsCopy(m: Message, op: Op)
    requires op.CreateMessage?
  {
    m.conversation == op.conversation && m.clientMsgId == op.clientMsgId
  }

  /** Why a message may not be posted: its own fields, the conversation, or who sends it. */
  function PostRefusal(db: Db, op: Op): Option<Error>
    requires op.CreateMessage?
  {
    if op.sender.None? || Text.Trim(op.content) == "" || |op.content| > 2000 then Some(InvalidInput)
    else if op.conversation !in db.conversations then Some(NotFound)
    else
      var row := db.conversations[op.conversation];
      if !row.open then Some(Closed)
      else if op.sender == Some(Visitor)
              && (Text.Trim(op.visitorToken) == "" || Text.Trim(op.visitorToken) != row.visitor)
      then Some(InvalidInput)
      else if op.sender == Some(Agent) && (op.senderAgent.None? || op.senderAgent == Some(0)) then Some(InvalidInput)
      else if op.sender == Some(Agent) && row.owner.None? then Some(Unassigned)
      else if op.sender == Some(Agent) && row.owner != op.senderAgent then Some(Forbidden)
      else None
  }

  /** A message is refused, answered with its stored copy, or stored as it was sent together with its event. */
  lemma MessagesArePosted(db: Db, op: Op)
    requires op.CreateMessage? && !op.fault
    ensures var out, refusal := Step(db, op), PostRefusal(db, op);
            if refusal.Some? then out.answer == Err(refusal.value)
            else if exists m :: m in db.messages && IsCopy(m, op) then
              && out.db == db && out.answer.Ok? && out.answer.value.MessageReply?
              && out.answer.value.message in db.messages && IsCopy(out.answer.value.message, op)
            else
              var m := Message(db.nextMessage, op.conversation, op.sender.value, op.senderAgent, op.content,
                               op.clientMsgId, Sent, op.now);
              && Posts(db, out.db, m) && out.db.conversations == db.conversations && out.answer == Ok(MessageReply(m))
  {
    if PostRefusal(db, op).None? {
      var w := InsertMessage(op.conversation, op.sender.value, op.senderAgent, op.content, op.clientMsgId, op.now);
      CommitOfTwo(db, w, w);
      var found := FindByClientId(db.messages, op.conversation, op.clientMsgId);
      if found.Some? {
        assert IsCopy(found.value, op);
      }
    }
  }

  // ----- Read reports

  /** Whose messages a report is about: an agent has read the visitor's, a visitor the agent's and the assistant's. */
  predicate IsOtherSide(actor: Actor, sender: Sender) {
    match actor
    case AgentActor => sender == Visitor
    case VisitorActor => sender == Agent || sender == Ai
    case UnknownActor => false
  }

  predicate IsReported(op: Op, m: Message)
    requires op.MarkMessagesRead?
  {
    m.conversation == op.conversation && m.id <= op.lastRead && IsOtherSide(op.actorType, m.sender)
  }

  /** How many rows have another status. */
  function CountChanged(older: seq<Message>, newer: seq<Message>): nat
    requires |older| == |newer|
  {
    if older == [] then 0
    else
      var n := |older| - 1;
      CountChanged(older[..n], newer[..n]) + if older[n].status != newer[n].status then 1 else 0
  }

  /** Marking two senders counts each sender's unread rows. */
  lemma {:induction false} MarkingCountsChanges(messages: seq<Message>, c: nat, s: Sender, t: Sender, upTo: nat)
    requires s != t
    ensures CountChanged(messages, MarkRows(messages, c, s, upTo)) == CountUnread(messages, c, s, upTo)
    ensures CountChanged(messages, MarkRows(MarkRows(messages, c, s, upTo), c, t, upTo))
            == CountUnread(messages, c, s, upTo) + CountUnread(messages, c, t, upTo)
  {
    if messages != [] {
      var n := |messages| - 1;
      MarkingCountsChanges(messages[..n], c, s, t, upTo);
      assert MarkRows(messages, c, s, upTo)[..n] == MarkRows(messages[..n], c, s, upTo);
      assert MarkRows(MarkRows(messages, c, s, upTo), c, t, upTo)[..n]
          == MarkRows(MarkRows(messages[..n], c, s, upTo), c, t, upTo);
    }
  }

  /** Leaving out an UPDATE that would match no row makes no difference to the rows. */
  lemma RangeMarks(db: Db, c: nat, sender: Sender, upTo: nat)
    ensures Commit(db, RangeWrites(db, c, sender, upTo)).messages == MarkRows(db.messages, c, sender, upTo)
    ensures Commit(db, RangeWrites(db, c, sender, upTo)).conversations == db.conversations
  {
    if CountUnread(db.messages, c, sender, upTo) > 0 {
      CommitOfTwo(db, MarkRange(c, sender, upTo), MarkRange(c, sender, upTo));
    } else {
      NothingToMark(db.messages, c, sender, upTo);
    }
  }

  lemma TwoRangesMark(db: Db, c: nat, upTo: nat)
    ensures var db' := Commit(db, RangeWrites(db, c, Agent, upTo) + RangeWrites(db, c, Ai, upTo));
            && db'.messages == MarkRows(MarkRows(db.messages, c, Agent, upTo), c, Ai, upTo)
            && db'.conversations == db.conversations
  {
    var a, b := RangeWrites(db, c, Agent, upTo), RangeWrites(db, c, Ai, upTo);
    var mid := MarkRows(db.messages, c, Agent, upTo);
    RangeMarks(db, c, Agent, upTo);
    RangeMarks(db, c, Ai, upTo);
    MarkingKeepsOthers(db.messages, c, Agent, upTo, c, Ai, upTo);
    if a == [] {
      assert a + b == b;
    } else if b == [] {
      assert a + b == a;
      NothingToMark(mid, c, Ai, upTo);
    } else {
      assert a + b == [a[0], b[0]];
      CommitOfTwo(db, a[0], b[0]);
    }
  }

  function ReportRefusal(db: Db, op: Op): Option<Error>
    requires op.MarkMessagesRead?
  {
    if op.conversation == 0 || op.lastRead == 0 || op.actorType == UnknownActor then Some(InvalidInput)
    else if op.conversation !in db.conversations then Some(NotFound)
    else if op.actorType == AgentActor then (if op.actor == 0 then Some(InvalidInput) else None)
    else if Text.Trim(op.visitorToken) == "" || op.visitorToken != db.conversations[op.conversation].visitor
    then Some(InvalidInput)
    else None
  }

  /**
    A read report marks exactly the other side's messages of its conversation up to its bound, changes nothing else in
    any row, and answers how many rows it changed.
   */
  lemma ReportMarksOtherSide(db: Db, op: Op)
    requires op.MarkMessagesRead? && !op.fault
    ensures ReportRefusal(db, op).Some? ==> Step(db, op).answer == Err(ReportRefusal(db, op).value)
    ensures ReportRefusal(db, op).None? ==>
              var db' := Step(db, op).db;
              && |db'.messages| == |db.messages| && db'.conversations == db.conversations
              && (forall i :: 0 <= i < |db.messages| ==>
                    db'.messages[i] == db.messages[i].(status :=
                      if db.messages[i].status == Read || IsReported(op, db.messages[i]) then Read else Sent))
              && Step(db, op).answer == Ok(RowsReply(CountChanged(db.messages, db'.messages)))
  {
    if ReportRefusal(db, op).None? {
      var c, upTo := op.conversation, op.lastRead;
      if op.actorType == AgentActor {
        RangeMarks(db, c, Visitor, upTo);
        MarkingCountsChanges(db.messages, c, Visitor, System, upTo);
      } else {
        TwoRangesMark(db, c, upTo);
        MarkingCountsChanges(db.messages, c, Agent, Ai, upTo);
      }
    }
  }

  /** The receipt for one sender, if the report changes any of that sender's messages. */
  function ReceiptFor(db: Db, op: Op, sender: Sender): seq<Event>
    requires op.MarkMessagesRead?
  {
    if exists i :: 0 <= i < |db.messages| && IsReported(op, db.messages[i]) && db.messages[i].sender == sender
                   && db.messages[i].status == Sent
    then [StatusRange(op.conversation, sender, op.lastRead)] else []
  }

  lemma {:induction false} UnreadExists(messages: seq<Message>, c: nat, sender: Sender, upTo: nat)
    ensures CountUnread(messages, c, sender, upTo) > 0 <==>
            exists i :: 0 <= i < |messages| && IsUnread(messages[i], c, sender, upTo)
  {
    if messages != [] {
      var n := |messages| - 1;
      UnreadExists(messages[..n], c, sender, upTo);
      assert forall i :: 0 <= i < n ==> messages[..n][i] == messages[i];
    }
  }

  function EventsSince(db: Db, db': Db): seq<Event>
    requires |db.outbox| <= |db'.outbox|
  {
    seq(|db'.outbox| - |db.outbox|, i requires 0 <= i < |db'.outbox| - |db.outbox| => db'.outbox[|db.outbox| + i].event)
  }

  lemma ReceiptIsRange(db: Db, op: Op, sender: Sender)
    requires op.MarkMessagesRead? && IsOtherSide(op.actorType, sender)
    ensures RangeWrites(db, op.conversation, sender, op.lastRead)
            == if ReceiptFor(db, op, sender) == [] then [] else [MarkRange(op.conversation, sender, op.lastRead)]
  {
    UnreadExists(db.messages, op.conversation, sender, op.lastRead);
    forall i | 0 <= i < |db.messages|
      ensures IsUnread(db.messages[i], op.conversation, sender, op.lastRead)
          <==> IsReported(op, db.messages[i]) && db.messages[i].sender == sender && db.messages[i].status == Sent
    {
    }
  }

  /** A report is announced by one receipt for each sender of the other side that had something unread, agent first. */
  lemma ReportIsAnnounced(db: Db, op: Op)
    requires op.MarkMessagesRead? && !op.fault && ReportRefusal(db, op).None?
    ensures db.outbox <= Step(db, op).db.outbox
    ensures EventsSince(db, Step(db, op).db)
            == if op.actorType == AgentActor then ReceiptFor(db, op, Visitor)
               else ReceiptFor(db, op, Agent) + ReceiptFor(db, op, Ai)
  {
    if op.actorType == AgentActor {
      ReceiptIsRange(db, op, Visitor);
    } else {
      ReceiptIsRange(db, op, Agent);
      ReceiptIsRange(db, op, Ai);
    }
    var writes := PlanOf(db, op).value.writes;
    if |writes| == 1 {
      CommitOfTwo(db, writes[0], writes[0]);
      assert writes == [writes[0]];
    } else if |writes| == 2 {
      CommitOfTwo(db, writes[0], writes[1]);
      assert writes == [writes[0], writes[1]];
    }
  }

  // ----- Conversations

  ghost predicate IsOpenRow(db: Db, c: nat, site: string, visitor: string) {
    && c in db.conversations && db.conversations[c].open
    && db.conversations[c].site == site && db.conversations[c].visitor == visitor
  }

  /** The row is open for the visitor, and no open row of the visitor has a greater id. */
  ghost predicate IsLatestOpen(db: Db, c: nat, site: string, visitor: string) {
    IsOpenRow(db, c, site, visitor) && forall d: nat :: d > c ==> !IsOpenRow(db, d, site, visitor)
  }

  ghost predicate HasOpen(db: Db, site: string, visitor: string) {
    exists c: nat :: IsOpenRow(db, c, site, visitor)
  }

  /**
    Creating a conversation answers the visitor's latest open one; it adds a row, unowned and with nothing pending,
    exactly when the visitor has none open.
   */
  lemma CreateAnswersOpenRow(db: Db, op: Op)
    requires op.CreateConversation? && !op.fault && KeysBelowCounter(db)
    ensures var site, visitor, out := Text.Trim(op.site), Text.Trim(op.visitor), Step(db, op);
            if site == "" || visitor == "" then out.answer == Err(InvalidInput)
            else
              && out.answer.Ok? && out.answer.value.ConversationReply?
              && var c, row := out.answer.value.id, out.answer.value.conversation;
                 && IsLatestOpen(out.db, c, site, visitor) && out.db.conversations[c] == row
                 && if HasOpen(db, site, visitor) then out.db == db
                    else
                      && c !in db.conversations && ChangesRow(db, out.db, c, row)
                      && row.owner.None? && NothingPending(row) && row.closedAt.None? && row.closedBy.None?
                      && out.db.messages == db.messages && out.db.outbox == db.outbox
  {
    var site, visitor := Text.Trim(op.site), Text.Trim(op.visitor);
    var w := PutConversation(Conversation(site, visitor, true, None, None, None, None, None, None));
    CommitOfTwo(db, w, w);
    var found := LatestOpen(db.conversations, site, visitor, db.nextConversation);
    if found.Some? {
      assert IsOpenRow(db, found.value, site, visitor);
    }
  }
}
