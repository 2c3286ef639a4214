/**
  At most one open conversation per visitor, call by call; and the client of the lease protocol that looks and then
  inserts, with nothing in between, does what the call does.
 */
module ConversationCreation {
  import opened Prelude
  import opened ChatModel
  import opened EventLog
  import opened ChatHistory
  import opened CallEffects
  import CreateLock
  import PastViews

  /** A row keeps its visitor for good and is never opened again. */
  ghost predicate IsLater(row: Conversation, row': Conversation) {
    row'.site == row.site && row'.visitor == row.visitor && (row'.open ==> row.open)
  }

  lemma CallKeepsVisitor(db: Db, op: Op, c: nat)
    requires KeysBelowCounter(db) && c in db.conversations
    ensures c in Step(db, op).db.conversations && IsLater(db.conversations[c], Step(db, op).db.conversations[c])
  {
    RowChanges(db, op, c);
  }

  /** Only creating a conversation adds a row. */
  lemma OnlyCreatingAddsRows(db: Db, op: Op, c: nat)
    requires !op.CreateConversation? && c in Step(db, op).db.conversations
    ensures c in db.conversations
  {
    if PlanOf(db, op).Ok? && !op.fault {
      PastViews.PlanShape(db, op);
      PlansAreLegal(db, op);
      NoRowIsPut(db, op);
      RowsOfCommit(db, PlanOf(db, op).value.writes, c);
    }
  }

  lemma NoRowIsPut(db: Db, op: Op)
    requires !op.CreateConversation? && PlanOf(db, op).Ok?
    ensures PlanOf(db, op).value.writes != [] ==> !PlanOf(db, op).value.writes[0].PutConversation?
  {
  }

  lemma RowsOfCommit(db: Db, writes: seq<Write>, c: nat)
    requires PastViews.IsPlanShape(writes) && LegalWrites(db, writes) && (writes != [] ==> !writes[0].PutConversation?)
    requires c in Commit(db, writes).conversations
    ensures c in db.conversations
  {
    if |writes| == 1 {
      CommitOfTwo(db, writes[0], writes[0]);
      assert writes == [writes[0]];
    } else if |writes| == 2 {
      CommitOfTwo(db, writes[0], writes[1]);
      assert writes == [writes[0], writes[1]];
    }
  }

  /** Whatever else a call does, a row that is open after it was open for the same visitor before. */
  lemma NoNewOpenRows(db: Db, op: Op, c: nat)
    requires KeysBelowCounter(db) && (!op.CreateConversation? || op.fault) && c in Step(db, op).db.conversations
    ensures c in db.conversations && IsLater(db.conversations[c], Step(db, op).db.conversations[c])
  {
    if op.CreateConversation? {
      FaultsFail(db, op);
      FailuresChangeNothing(db, op);
    } else {
      OnlyCreatingAddsRows(db, op, c);
      CallKeepsVisitor(db, op, c);
    }
  }

  lemma CallKeepsOneOpen(db: Db, op: Op)
    requires KeysBelowCounter(db) && CreateLock.OneOpen(db.conversations)
    ensures CreateLock.OneOpen(Step(db, op).db.conversations)
  {
    var db' := Step(db, op).db;
    if op.CreateConversation? && !op.fault {
      CreateAnswersOpenRow(db, op);
      forall c, site, visitor | c in db.conversations && IsOpenFor(db.conversations[c], site, visitor)
        ensures IsOpenRow(db, c, site, visitor)
      {
      }
    } else {
      forall c, site, visitor | c in db'.conversations && IsOpenFor(db'.conversations[c], site, visitor)
        ensures c in db.conversations && IsOpenFor(db.conversations[c], site, visitor)
      {
        NoNewOpenRows(db, op, c);
      }
    }
  }

  /** Over every sequence of calls a visitor has at most one open conversation. */
  lemma {:induction false} CallsKeepOneOpen(ops: seq<Op>)
    ensures CreateLock.OneOpen(After(ops).conversations)
  {
    if ops != [] {
      CallsKeepOneOpen(ops[..|ops| - 1]);
      LogRebuildsTables(ops[..|ops| - 1], 0);
      CallKeepsOneOpen(After(ops[..|ops| - 1]), ops[|ops| - 1]);
    }
  }

  // ----- The protocol's steps are the call's

  /** The world of the protocol has the call's table of conversations. */
  ghost predicate SameTable(s: CreateLock.World, db: Db) {
    s.conversations == db.conversations && s.nextConversation == db.nextConversation
  }

  /** What a client that holds the lock does: look, and insert if it found nothing. */
  ghost function LookThenInsert(s: CreateLock.World, client: nat, ttl: nat): CreateLock.World
    requires CreateLock.PhaseOf(s, client).Locked?
  {
    var looked := CreateLock.Next(s, CreateLock.Look(client), ttl);
    if CreateLock.PhaseOf(looked, client).Checked? then CreateLock.Next(looked, CreateLock.Insert(client), ttl)
    else looked
  }

  /** Looking and inserting, or leaving, with nothing in between changes the table of conversations as the call does. */
  lemma LookThenInsertIsCall(s: CreateLock.World, db: Db, client: nat, ttl: nat, op: Op)
    requires SameTable(s, db) && op.CreateConversation? && !op.fault && CreateLock.PhaseOf(s, client).Locked?
    requires CreateLock.PhaseOf(s, client).site == Text.Trim(op.site) != ""
    requires CreateLock.PhaseOf(s, client).visitor == Text.Trim(op.visitor) != ""
    ensures SameTable(LookThenInsert(s, client, ttl), Step(db, op).db)
    ensures CreateLock.PhaseOf(LookThenInsert(s, client, ttl), client).Leaving?
  {
    var p := CreateLock.PhaseOf(s, client);
    var w := PutConversation(Conversation(p.site, p.visitor, true, None, None, None, None, None, None));
    CommitOfTwo(db, w, w);
  }
}
