/**
  Creating messages without a row lock: a call reads the conversation and looks for its client id first and
  inserts later, with any other calls in between. The unique index on the client id is checked at the insert.
 */
module UnlockedCreate {
  import opened Prelude
  import opened ChatModel
  import opened EventLog
  import opened ChatHistory

  /** The id that a successful create call answered. */
  datatype Answer = Answer(conversation: nat, clientMsgId: string, id: nat)

  /** `waiting` are the calls that have read and checked and not yet inserted; `answers` is a history. */
  datatype Sys = Sys(db: Db, waiting: map<nat, Op>, answers: seq<Answer>)

  /** `found` says whether the lookup after a duplicate key finds the row, which a snapshot may hide. */
  datatype Action = Call(op: Op) | Check(caller: nat, op: Op) | Insert(caller: nat, found: bool)

  const START := Sys(EMPTY_DB, map[], [])

  function InsertOf(op: Op): Write
    requires op.CreateMessage? && op.sender.Some?
  {
    InsertMessage(op.conversation, op.sender.value, op.senderAgent, op.content, op.clientMsgId, op.now)
  }

  predicate IsTaken(db: Db, op: Op)
    requires op.CreateMessage?
  {
    FindByClientId(db.messages, op.conversation, op.clientMsgId).Some?
  }

  ghost predicate Enabled(s: Sys, a: Action) {
    match a
    case Call(op) => !op.CreateMessage?
    case Check(caller, op) => op.CreateMessage? && caller !in s.waiting
    case Insert(caller, _) => caller in s.waiting && s.waiting[caller].CreateMessage? && s.waiting[caller].sender.Some?
  }

  /** A call that is refused, or finds its message stored already, is over after reading. */
  predicate GoesOn(db: Db, op: Op) {
    PlanOf(db, op).Ok? && PlanOf(db, op).value.writes != []
  }

  function Replied(op: Op, answer: Result<Reply, Error>): seq<Answer>
    requires op.CreateMessage?
  {
    if answer.Ok? && answer.value.MessageReply? then [Answer(op.conversation, op.clientMsgId, answer.value.message.id)]
    else []
  }

  /** After a duplicate key the call answers the row it finds, or fails. */
  function InsertReply(db: Db, op: Op, found: bool): seq<Answer>
    requires op.CreateMessage?
  {
    if op.fault then []
    else match FindByClientId(db.messages, op.conversation, op.clientMsgId)
      case None => [Answer(op.conversation, op.clientMsgId, db.nextMessage)]
      case Some(m) => if found then [Answer(op.conversation, op.clientMsgId, m.id)] else []
  }

  /** A duplicate key leaves the tables alone. */
  function AfterInsert(db: Db, op: Op): Db
    requires op.CreateMessage? && op.sender.Some?
  {
    if IsTaken(db, op) then db.(nextMessage := db.nextMessage + 1)
    else if op.fault then Rollback(db, [InsertOf(op)])
    else Apply(db, InsertOf(op))
  }

  ghost function Next(s: Sys, a: Action): Sys
    requires Enabled(s, a)
  {
    match a
    case Call(op) => s.(db := Step(s.db, op).db)
    case Check(caller, op) =>
      if GoesOn(s.db, op) then s.(waiting := s.waiting[caller := op])
      else s.(answers := s.answers + Replied(op, Step(s.db, op).answer))
    case Insert(caller, found) =>
      var op := s.waiting[caller];
      Sys(AfterInsert(s.db, op), s.waiting - {caller}, s.answers + InsertReply(s.db, op, found))
  }

  ghost predicate IsRun(start: Sys, run: seq<Action>)
    decreases |run|, 0
  {
    run == [] || (IsRun(start, run[..|run| - 1]) && Enabled(Final(start, run[..|run| - 1]), run[|run| - 1]))
  }

  ghost function Final(start: Sys, run: seq<Action>): Sys
    requires IsRun(start, run)
    decreases |run|, 1
  {
    if run == [] then start else Next(Final(start, run[..|run| - 1]), run[|run| - 1])
  }

  // ----- What survives the race

  ghost predicate Waits(db: Db, op: Op) {
    op.CreateMessage? && op.sender.Some? && op.conversation in db.conversations
  }

  ghost predicate IsKept(db: Db, c: nat) {
    KeysBelowCounter(db) && Rebuilt(db, c) && ClosedOnce(db, c) && Delivered(db)
  }

  ghost predicate AllWait(s: Sys) {
    forall caller :: caller in s.waiting ==> Waits(s.db, s.waiting[caller])
  }

  lemma WaitsFacts(db: Db, op: Op)
    requires op.CreateMessage? && GoesOn(db, op)
    ensures Waits(db, op) && PlanOf(db, op).value.writes == [InsertOf(op)] && !IsTaken(db, op)
    ensures db.conversations[op.conversation].open
  {
  }

  lemma WriteKeeps(db: Db, w: Write, c: nat)
    requires IsKept(db, c) && SoundWrite(db, w)
    ensures IsKept(Apply(db, w), c)
  {
    WriteRebuilds(db, w, c);
    WriteKeepsClosedOnce(db, w, c);
    WriteKeepsDelivered(db, w);
  }

  lemma CallKeeps(db: Db, op: Op, c: nat)
    requires IsKept(db, c)
    ensures IsKept(Step(db, op).db, c)
  {
    if PlanOf(db, op).Ok? {
      PlansAreLegal(db, op);
      CommitKeepsAll(db, PlanOf(db, op).value.writes, c);
    }
  }

  lemma CommitKeepsAll(db: Db, writes: seq<Write>, c: nat)
    requires IsKept(db, c) && LegalWrites(db, writes)
    ensures IsKept(Commit(db, writes), c) && Commit(db, writes).nextMessage >= db.nextMessage
    ensures Commit(db, writes).nextConversation >= db.nextConversation
  {
    CommitRebuilds(db, writes, c);
    CommitKeepsClosedOnce(db, writes, c);
    CommitKeepsDelivered(db, writes);
  }

  lemma InsertKeeps(db: Db, op: Op, c: nat)
    requires IsKept(db, c) && Waits(db, op)
    ensures IsKept(AfterInsert(db, op), c)
  {
    if IsTaken(db, op) {
      CountersDoNotMatter(db, AfterInsert(db, op), c);
    } else if op.fault {
      CommitOfTwo(db, InsertOf(op), InsertOf(op));
      CountersDoNotMatter(db, AfterInsert(db, op), c);
    } else {
      WriteKeeps(db, InsertOf(op), c);
    }
  }

  lemma CountersDoNotMatter(db: Db, db': Db, c: nat)
    requires IsKept(db, c) && db' == db.(nextMessage := db'.nextMessage, nextEvent := db'.nextEvent)
    requires db'.nextMessage >= db.nextMessage
    ensures IsKept(db', c)
  {
  }

  /** Conversations are never deleted, so a waiting call still finds its own. */
  lemma CallKeepsRows(db: Db, op: Op, id: nat)
    requires KeysBelowCounter(db) && id in db.conversations
    ensures id in Step(db, op).db.conversations
  {
    RowChanges(db, op, id);
  }

  lemma StepKeepsWaiting(s: Sys, a: Action)
    requires Enabled(s, a) && AllWait(s) && KeysBelowCounter(s.db)
    ensures AllWait(Next(s, a))
  {
    var s' := Next(s, a);
    forall caller | caller in s'.waiting ensures Waits(s'.db, s'.waiting[caller]) {
      match a {
        case Call(op) => CallKeepsRows(s.db, op, s.waiting[caller].conversation);
        case Check(reader, op) =>
          if GoesOn(s.db, op) {
            WaitsFacts(s.db, op);
          }
        case Insert(_, _) =>
      }
    }
  }

  lemma StepKeeps(s: Sys, a: Action, c: nat)
    requires Enabled(s, a) && AllWait(s) && IsKept(s.db, c)
    ensures IsKept(Next(s, a).db, c)
  {
    match a {
      case Call(op) => CallKeeps(s.db, op, c);
      case Check(_, _) =>
      case Insert(caller, _) => InsertKeeps(s.db, s.waiting[caller], c);
    }
  }

  /**
    Under any interleaving of reads, inserts and other calls: folding the log still rebuilds the tables, a client
    id still has at most one row and one event, ids ascend, and a close is announced exactly once.
   */
  lemma {:induction false} RacesKeepTheLog(run: seq<Action>, c: nat)
    requires IsRun(START, run)
    ensures AllWait(Final(START, run))
    ensures var db := Final(START, run).db;
            && KeysBelowCounter(db) && Fold(EventsOf(db.outbox, c)) == ServerView(db, c)
            && UniqueKeys(db.messages) && AscendingIds(db) && SameRows(Announced(db.outbox), db.messages)
            && ClosedOnce(db, c)
  {
    if run != [] {
      var s, a := Final(START, run[..|run| - 1]), run[|run| - 1];
      RacesKeepTheLog(run[..|run| - 1], c);
      StepKeepsWaiting(s, a);
      StepKeeps(s, a, c);
    }
  }

  /** Reading and inserting with nothing in between is the atomic call. */
  lemma CheckThenInsertIsCall(s: Sys, caller: nat, op: Op, found: bool)
    requires Enabled(s, Check(caller, op)) && GoesOn(s.db, op)
    ensures Enabled(Next(s, Check(caller, op)), Insert(caller, found))
    ensures Next(Next(s, Check(caller, op)), Insert(caller, found))
            == s.(db := Step(s.db, op).db, answers := s.answers + Replied(op, Step(s.db, op).answer))
  {
    WaitsFacts(s.db, op);
    CommitOfTwo(s.db, InsertOf(op), InsertOf(op));
    assert s.waiting[caller := op] - {caller} == s.waiting;
  }

  // ----- Every copy of a message gets the same answer

  ghost predicate IsStored(messages: seq<Message>, a: Answer) {
    exists i :: 0 <= i < |messages| && messages[i].conversation == a.conversation
                && messages[i].clientMsgId == a.clientMsgId && messages[i].id == a.id
  }

  ghost predicate AllStored(s: Sys) {
    forall i :: 0 <= i < |s.answers| ==> IsStored(s.db.messages, s.answers[i])
  }

  lemma StoredStays(older: seq<Message>, newer: seq<Message>, a: Answer)
    requires Extends(older, newer) && IsStored(older, a)
    ensures IsStored(newer, a)
  {
    var i :| 0 <= i < |older| && older[i].conversation == a.conversation
             && older[i].clientMsgId == a.clientMsgId && older[i].id == a.id;
    assert newer[..|older|][i] == newer[i];
  }

  lemma StoredIn(messages: seq<Message>, m: Message, a: Answer)
    requires m in messages && a == Answer(m.conversation, m.clientMsgId, m.id)
    ensures IsStored(messages, a)
  {
  }

  lemma StepExtends(s: Sys, a: Action)
    requires Enabled(s, a)
    ensures Extends(s.db.messages, Next(s, a).db.messages)
  {
    if a.Call? && PlanOf(s.db, a.op).Ok? {
      CommitExtends(s.db, PlanOf(s.db, a.op).value.writes);
    }
  }

  /** What a step newly answers is a row of the new table. */
  lemma NewAnswersAreStored(s: Sys, a: Action)
    requires Enabled(s, a)
    ensures s.answers <= Next(s, a).answers
    ensures forall i :: |s.answers| <= i < |Next(s, a).answers| ==>
            IsStored(Next(s, a).db.messages, Next(s, a).answers[i])
  {
    var s' := Next(s, a);
    match a {
      case Call(_) =>
      case Check(_, op) =>
        if !GoesOn(s.db, op) && Step(s.db, op).answer.Ok? {
          CreatedRowIsStored(s.db, op);
          StoredIn(s'.db.messages, Step(s.db, op).answer.value.message, Replied(op, Step(s.db, op).answer)[0]);
        }
      case Insert(caller, found) =>
        var op := s.waiting[caller];
        var reply := InsertReply(s.db, op, found);
        if reply != [] {
          var existing := FindByClientId(s.db.messages, op.conversation, op.clientMsgId);
          var m := if existing.Some? then existing.value else s'.db.messages[|s.db.messages|];
          StoredIn(s'.db.messages, m, reply[0]);
        }
    }
  }

  lemma {:induction false} AnswersAreStored(run: seq<Action>)
    requires IsRun(START, run)
    ensures AllStored(Final(START, run))
  {
    if run != [] {
      var s, a := Final(START, run[..|run| - 1]), run[|run| - 1];
      var s' := Next(s, a);
      AnswersAreStored(run[..|run| - 1]);
      StepExtends(s, a);
      NewAnswersAreStored(s, a);
      forall i | 0 <= i < |s.answers| ensures IsStored(s'.db.messages, s'.answers[i]) {
        StoredStays(s.db.messages, s'.db.messages, s.answers[i]);
      }
    }
  }

  /**
    Under any interleaving, and through the duplicate-key branch too, all successful create calls with one
    conversation and client id answer the same message id.
   */
  lemma RacingRetriesGetTheSameId(run: seq<Action>, i: nat, j: nat)
    requires IsRun(START, run) && i < |Final(START, run).answers| && j < |Final(START, run).answers|
    requires var a, b := Final(START, run).answers[i], Final(START, run).answers[j];
             a.conversation == b.conversation && a.clientMsgId == b.clientMsgId
    ensures Final(START, run).answers[i].id == Final(START, run).answers[j].id
  {
    var s := Final(START, run);
    RacesKeepTheLog(run, 0);
    AnswersAreStored(run);
    OneRowOneAnswer(s.db.messages, s.answers[i], s.answers[j]);
  }

  lemma OneRowOneAnswer(messages: seq<Message>, a: Answer, b: Answer)
    requires UniqueKeys(messages) && IsStored(messages, a) && IsStored(messages, b)
    requires a.conversation == b.conversation && a.clientMsgId == b.clientMsgId
    ensures a.id == b.id
  {
    var i :| 0 <= i < |messages| && messages[i].conversation == a.conversation
             && messages[i].clientMsgId == a.clientMsgId && messages[i].id == a.id;
    var j :| 0 <= j < |messages| && messages[j].conversation == b.conversation
             && messages[j].clientMsgId == b.clientMsgId && messages[j].id == b.id;
    assert i == j;
  }

  // ----- What does not: messages after closing

  ghost predicate Gains(s: Sys, a: Action, c: nat)
    requires Enabled(s, a)
  {
    |MessagesOf(Next(s, a).db.messages, c)| > |MessagesOf(s.db.messages, c)|
  }

  /**
    A closed conversation gains a message exactly when a call that read it while open inserts without a duplicate
    or a fault.
   */
  lemma OnlyLateInsertsAdd(s: Sys, a: Action, c: nat)
    requires Enabled(s, a) && AllWait(s) && KeysBelowCounter(s.db) && IsClosed(s.db, c)
    ensures Gains(s, a, c) <==>
            && a.Insert? && s.waiting[a.caller].conversation == c && !s.waiting[a.caller].fault
            && !IsTaken(s.db, s.waiting[a.caller])
  {
    match a {
      case Call(op) => CallLeavesClosedAlone(s.db, op, c);
      case Check(_, _) =>
      case Insert(caller, _) =>
        var op := s.waiting[caller];
        if !IsTaken(s.db, op) && !op.fault {
          MessagesOfAppend(s.db.messages, Next(s, a).db.messages[|s.db.messages|], c);
        }
    }
  }

  lemma CallLeavesClosedAlone(db: Db, op: Op, c: nat)
    requires KeysBelowCounter(db) && IsClosed(db, c)
    ensures IsClosed(Step(db, op).db, c)
            && SameRows(MessagesOf(db.messages, c), MessagesOf(Step(db, op).db.messages, c))
  {
    if PlanOf(db, op).Ok? {
      PlansAreLegal(db, op);
      CommitLeavesClosedAlone(db, PlanOf(db, op).value.writes, c);
    }
  }

  ghost predicate IsQuiet(s: Sys, c: nat) {
    && IsClosed(s.db, c)
    && forall caller :: caller in s.waiting && s.waiting[caller].CreateMessage? ==> s.waiting[caller].conversation != c
  }

  lemma StepStaysQuiet(s: Sys, a: Action, c: nat)
    requires Enabled(s, a) && AllWait(s) && KeysBelowCounter(s.db) && IsQuiet(s, c)
    ensures IsQuiet(Next(s, a), c)
    ensures SameRows(MessagesOf(s.db.messages, c), MessagesOf(Next(s, a).db.messages, c))
  {
    match a {
      case Call(op) => CallLeavesClosedAlone(s.db, op, c);
      case Check(_, op) =>
        if GoesOn(s.db, op) {
          WaitsFacts(s.db, op);
        }
      case Insert(caller, _) =>
        var op := s.waiting[caller];
        if !IsTaken(s.db, op) && !op.fault {
          MessagesOfAppend(s.db.messages, Next(s, a).db.messages[|s.db.messages|], c);
        }
    }
  }

  /** Once closed with no call waiting to insert, a conversation gains no message for the rest of the run. */
  lemma {:induction false} QuietClosesAreFinal(run: seq<Action>, n: nat, c: nat)
    requires IsRun(START, run) && n <= |run| && IsRun(START, run[..n]) && IsQuiet(Final(START, run[..n]), c)
    ensures IsQuiet(Final(START, run), c)
    ensures SameRows(MessagesOf(Final(START, run[..n]).db.messages, c), MessagesOf(Final(START, run).db.messages, c))
  {
    if n == |run| {
      assert run[..n] == run;
    } else {
      var front := run[..|run| - 1];
      assert front[..n] == run[..n];
      QuietClosesAreFinal(front, n, c);
      RacesKeepTheLog(front, c);
      StepStaysQuiet(Final(START, front), run[|run| - 1], c);
    }
  }

  // ----- A message after closing does occur

  function LateRun(): seq<Action> {
    [Call(CreateConversation("s", "v", false)),
     Check(0, CreateMessage(1, Some(Ai), None, "x", "m", "", 1, false)),
     Call(Close(1, 7, AdminRole, 2, false)),
     Insert(0, true)]
  }

  function LateSys(i: nat): Sys
    requires i <= 4
  {
    var row := Conversation("s", "v", true, None, None, None, None, None, None);
    var closed := row.(open := false, closedAt := Some(2), closedBy := Some(7));
    var op := CreateMessage(1, Some(Ai), None, "x", "m", "", 1, false);
    var m := Message(1, 1, Ai, None, "x", "m", Sent, 1);
    if i == 0 then START
    else if i == 1 then Sys(Db(map[1 := row], [], [], 2, 1, 1), map[], [])
    else if i == 2 then Sys(Db(map[1 := row], [], [], 2, 1, 1), map[0 := op], [])
    else if i == 3 then Sys(Db(map[1 := closed], [], [Row(1, ConversationClosed(1))], 2, 1, 2), map[0 := op], [])
    else Sys(Db(map[1 := closed], [m], [Row(1, ConversationClosed(1)), Row(2, MessageNew(1, m))], 2, 2, 3),
             map[], [Answer(1, "m", 1)])
  }

  lemma LateStep(i: nat)
    requires i < 4
    ensures Enabled(LateSys(i), LateRun()[i]) && Next(LateSys(i), LateRun()[i]) == LateSys(i + 1)
  {
    var s, a := LateSys(i), LateRun()[i];
    if a.Call? {
      if i == 0 {
        assert LatestOpen(EMPTY_DB.conversations, "s", "v", 1).None?;
        assert Text.Trim("s") == "s" && Text.Trim("v") == "v";
      }
      var w := PlanOf(s.db, a.op).value.writes[0];
      assert PlanOf(s.db, a.op).value.writes == [w];
      CommitOfTwo(s.db, w, w);
    } else {
      assert Text.Trim("x") == "x";
    }
  }

  lemma {:induction false} LatePrefix(i: nat)
    requires i <= 4
    ensures IsRun(START, LateRun()[..i]) && Final(START, LateRun()[..i]) == LateSys(i)
  {
    if i > 0 {
      LatePrefix(i - 1);
      LateStep(i - 1);
      assert LateRun()[..i][..i - 1] == LateRun()[..i - 1];
    }
  }

  /** A message can be stored, and announced, after its conversation was closed. */
  lemma MessageAfterClose()
    ensures IsRun(START, LateRun()[..3]) && IsRun(START, LateRun()[..4])
    ensures IsClosed(Final(START, LateRun()[..3]).db, 1) && Final(START, LateRun()[..3]).db.messages == []
    ensures |Final(START, LateRun()[..4]).db.messages| == 1
  {
    LatePrefix(3);
    LatePrefix(4);
  }
}
