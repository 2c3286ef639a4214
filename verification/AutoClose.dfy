/**
  Auto-close timers against the tables: calls commit, their post-commit hooks run later in commit
  order, timers fire, and due callbacks re-check in a transaction before they close or reschedule.
 */
module AutoClose {
  import opened Prelude
  import opened ChatModel
  import EventLog
  import ChatHistory

  datatype Hook = ScheduleHook(id: nat, due: nat) | CancelHook(id: nat)

  /** A due callback: not yet in its transaction, or past it with something left to do. */
  datatype Callback = Due(id: nat) | Reschedule(id: nat, due: nat) | CancelClosed(id: nat)

  datatype Sys = Sys(now: nat, db: Db, timers: map<nat, nat>, hooks: seq<Hook>, callbacks: multiset<Callback>)

  datatype Action =
    | Call(op: Op)
    | RunHook
    | Fire(id: nat, due: nat)
    | Transact(id: nat)
    | Settle(callback: Callback)
    | Tick(elapsed: nat)

  // ----- The timer map

  /** Scheduling replaces whatever deadline was there. */
  function Scheduled(timers: map<nat, nat>, id: nat, due: nat): map<nat, nat> {
    if id == 0 then timers else timers[id := due]
  }

  function Cancelled(timers: map<nat, nat>, id: nat): map<nat, nat> {
    timers - {id}
  }

  /** A fired timer takes effect only if it is still the one on record. */
  predicate IsOnRecord(timers: map<nat, nat>, id: nat, due: nat) {
    id in timers && timers[id] == due
  }

  /** When an open conversation whose last word is an agent's is to be closed. */
  function Deadline(db: Db, id: nat, after: nat): Option<nat> {
    var latest := LatestNonSystem(db.messages, id);
    if id in db.conversations && db.conversations[id].open && latest.Some? && latest.value.sender == Agent
    then Some(latest.value.createdAt + after) else None
  }

  // ----- Steps

  /** What the service still does after committing a call. */
  function HooksOf(db: Db, op: Op, after: nat): seq<Hook> {
    var outcome := Step(db, op);
    if op.CreateMessage? && |outcome.db.messages| > |db.messages| then
      match op.sender
      case Some(Agent) => [ScheduleHook(op.conversation, op.now + after)]
      case Some(Visitor) => [CancelHook(op.conversation)]
      case _ => []
    else if op.Close? && outcome.answer.Ok? then [CancelHook(op.conversation)]
    else []
  }

  function ApplyHook(timers: map<nat, nat>, h: Hook): map<nat, nat> {
    match h
    case ScheduleHook(id, due) => Scheduled(timers, id, due)
    case CancelHook(id) => Cancelled(timers, id)
  }

  function IdleOp(s: Sys, id: nat, after: nat): Op {
    CloseIdle(id, s.now - after, s.now, false)
  }

  /** What is left to do after the callback's transaction. */
  function FollowUp(s: Sys, id: nat, after: nat): multiset<Callback> {
    match Deadline(s.db, id, after)
    case Some(due) => if due > s.now then multiset{Reschedule(id, due)} else multiset{CancelClosed(id)}
    case None => multiset{}
  }

  predicate Enabled(s: Sys, a: Action) {
    match a
    case Call(op) => op.CreateMessage? ==> op.now == s.now
    case RunHook => s.hooks != []
    case Fire(_, due) => due <= s.now
    case Transact(id) => Due(id) in s.callbacks
    case Settle(callback) => callback in s.callbacks && !callback.Due?
    case Tick(_) => true
  }

  function Next(s: Sys, a: Action, after: nat): Sys
    requires Enabled(s, a)
  {
    match a
    case Call(op) => s.(db := Step(s.db, op).db, hooks := s.hooks + HooksOf(s.db, op, after))
    case RunHook => s.(timers := ApplyHook(s.timers, s.hooks[0]), hooks := s.hooks[1..])
    case Fire(id, due) =>
      if IsOnRecord(s.timers, id, due)
      then s.(timers := Cancelled(s.timers, id), callbacks := s.callbacks + multiset{Due(id)}) else s
    case Transact(id) =>
      s.(db := Step(s.db, IdleOp(s, id, after)).db,
         callbacks := s.callbacks - multiset{Due(id)} + FollowUp(s, id, after))
    case Settle(callback) =>
      s.(timers := if callback.Reschedule? then Scheduled(s.timers, callback.id, callback.due)
                   else Cancelled(s.timers, callback.id),
         callbacks := s.callbacks - multiset{callback})
    case Tick(elapsed) => s.(now := s.now + elapsed)
  }

  ghost predicate IsRun(start: Sys, run: seq<Action>, after: nat)
    decreases |run|, 0
  {
    run == [] ||
    (&& IsRun(start, run[..|run| - 1], after)
     && Enabled(Final(start, run[..|run| - 1], after), run[|run| - 1]))
  }

  function Final(start: Sys, run: seq<Action>, after: nat): Sys
    requires IsRun(start, run, after)
    decreases |run|, 1
  {
    if run == [] then start else Next(Final(start, run[..|run| - 1], after), run[|run| - 1], after)
  }

  // ----- Agreement

  /** The last hook of the queue that is about a conversation. */
  function LastHook(hooks: seq<Hook>, id: nat): Option<Hook> {
    if hooks == [] then None
    else if hooks[|hooks| - 1].id == id then Some(hooks[|hooks| - 1])
    else LastHook(hooks[..|hooks| - 1], id)
  }

  /** A timer no later than the deadline, or a due callback still at work. */
  ghost predicate IsCovered(s: Sys, id: nat, due: nat) {
    || (id in s.timers && s.timers[id] <= due)
    || Due(id) in s.callbacks
    || exists d: nat :: d <= due && Reschedule(id, d) in s.callbacks
  }

  ghost predicate Agrees(s: Sys, id: nat, after: nat) {
    Deadline(s.db, id, after).Some? ==>
      var due := Deadline(s.db, id, after).value;
      if LastHook(s.hooks, id).Some? then LastHook(s.hooks, id) == Some(ScheduleHook(id, due))
      else IsCovered(s, id, due)
  }

  /** Every pending due time for a conversation respects a bound. */
  ghost predicate DuesWithin(s: Sys, id: nat, bound: nat) {
    && (id in s.timers ==> s.timers[id] <= bound)
    && (forall k :: 0 <= k < |s.hooks| && s.hooks[k].ScheduleHook? && s.hooks[k].id == id ==> s.hooks[k].due <= bound)
    && (forall d: nat :: Reschedule(id, d) in s.callbacks ==> d <= bound)
  }

  /** Callbacks that will cancel are about conversations that are closed for good. */
  ghost predicate ClosedStaysClosed(s: Sys) {
    forall id :: CancelClosed(id) in s.callbacks ==> EventLog.IsClosed(s.db, id)
  }

  ghost predicate Stamped(db: Db, now: nat) {
    forall m :: m in db.messages && m.sender != System ==> m.createdAt <= now
  }

  ghost predicate Homed(db: Db) {
    forall m :: m in db.messages ==> m.conversation in db.conversations
  }

  ghost predicate IsGood(s: Sys, id: nat, after: nat) {
    && Agrees(s, id, after) && DuesWithin(s, id, s.now + after)
    && (Deadline(s.db, id, after).Some? ==> DuesWithin(s, id, Deadline(s.db, id, after).value))
  }

  ghost predicate Ready(s: Sys, after: nat) {
    && EventLog.KeysBelowCounter(s.db) && Homed(s.db) && Stamped(s.db, s.now) && ClosedStaysClosed(s)
    && forall id :: IsGood(s, id, after)
  }

  // ----- How a call moves the deadlines

  /** The part of a message the deadline depends on. */
  ghost predicate SameLatest(a: Option<Message>, b: Option<Message>) {
    a.Some? == b.Some? && (a.Some? ==> a.value.sender == b.value.sender && a.value.createdAt == b.value.createdAt)
  }

  lemma LatestAppend(messages: seq<Message>, m: Message, id: nat)
    ensures LatestNonSystem(messages + [m], id)
            == if m.conversation == id && m.sender != System then Some(m) else LatestNonSystem(messages, id)
  {
    assert (messages + [m])[..|messages|] == messages;
  }

  lemma {:induction false} LatestMarked(messages: seq<Message>, c: nat, sender: Sender, upTo: nat, id: nat)
    ensures SameLatest(LatestNonSystem(messages, id), LatestNonSystem(MarkRows(messages, c, sender, upTo), id))
  {
    if messages != [] {
      var n := |messages| - 1;
      LatestMarked(messages[..n], c, sender, upTo, id);
      assert MarkRows(messages, c, sender, upTo)[..n] == MarkRows(messages[..n], c, sender, upTo);
    }
  }

  /** The new deadline a write can bring about, other than keeping or dropping the old one. */
  predicate SetsDeadline(w: Write, id: nat) {
    w.InsertMessage? && w.id == id && w.sender == Agent
  }

  predicate Unsettles(w: Write, id: nat) {
    w.InsertMessage? && w.id == id && w.sender == Visitor
  }

  lemma WriteMovesDeadline(db: Db, w: Write, id: nat, after: nat)
    requires EventLog.KeysBelowCounter(db) && Homed(db) && EventLog.LegalWrite(db, w)
    ensures EventLog.KeysBelowCounter(Apply(db, w)) && Homed(Apply(db, w))
    ensures var d' := Deadline(Apply(db, w), id, after);
            || d'.None?
            || (d' == Deadline(db, id, after) && !SetsDeadline(w, id) && !Unsettles(w, id))
            || (SetsDeadline(w, id) && d' == Some(w.createdAt + after))
  {
    var db' := Apply(db, w);
    match w {
      case InsertMessage(_, _, _, _, _, _) => LatestAppend(db.messages, db'.messages[|db.messages|], id);
      case MarkRange(c, sender, upTo) => LatestMarked(db.messages, c, sender, upTo, id);
      case _ =>
    }
  }

  lemma {:induction false} CommitMovesDeadline(db: Db, writes: seq<Write>, id: nat, after: nat)
    requires EventLog.KeysBelowCounter(db) && Homed(db) && EventLog.LegalWrites(db, writes)
    ensures EventLog.KeysBelowCounter(Commit(db, writes)) && Homed(Commit(db, writes))
    ensures Commit(db, writes).nextConversation >= db.nextConversation
    ensures (forall w :: w in writes ==> !SetsDeadline(w, id)) ==>
              || Deadline(Commit(db, writes), id, after).None?
              || Deadline(Commit(db, writes), id, after) == Deadline(db, id, after)
    decreases |writes|
  {
    if writes != [] {
      WriteMovesDeadline(db, writes[0], id, after);
      CommitMovesDeadline(Apply(db, writes[0]), writes[1..], id, after);
    }
  }

  /** A new message is one row, and its hook depends on who sent it. */
  lemma CreatedRow(db: Db, op: Op, after: nat)
    requires op.CreateMessage? && !op.fault && PlanOf(db, op).Ok? && PlanOf(db, op).value.writes != []
    ensures op.sender.Some?
    ensures var w := InsertMessage(op.conversation, op.sender.value, op.senderAgent, op.content, op.clientMsgId,
                                   op.now);
            PlanOf(db, op).value.writes[0] == w && Step(db, op).db == Apply(db, w) && EventLog.LegalWrite(db, w)
    ensures HooksOf(db, op, after)
            == if op.sender.value == Agent then [ScheduleHook(op.conversation, op.now + after)]
               else if op.sender.value == Visitor then [CancelHook(op.conversation)] else []
  {
    EventLog.PlansAreLegal(db, op);
    var w := PlanOf(db, op).value.writes[0];
    assert PlanOf(db, op).value.writes == [w];
    EventLog.CommitOfTwo(db, w, w);
  }

  /** A new agent message's row and deadline. */
  lemma CreatedMovesDeadline(db: Db, op: Op, id: nat, after: nat)
    requires EventLog.KeysBelowCounter(db) && Homed(db)
    requires op.CreateMessage? && !op.fault && PlanOf(db, op).Ok? && PlanOf(db, op).value.writes != []
    ensures Step(db, op).db == Apply(db, PlanOf(db, op).value.writes[0])
    ensures var d' := Deadline(Step(db, op).db, id, after);
            || d'.None?
            || (d' == Deadline(db, id, after) && forall h :: h in HooksOf(db, op, after) ==> h.id != id)
            || (d' == Some(op.now + after) && HooksOf(db, op, after) == [ScheduleHook(id, op.now + after)])
  {
    CreatedRow(db, op, after);
    WriteMovesDeadline(db, PlanOf(db, op).value.writes[0], id, after);
  }

  lemma CallMovesDeadline(db: Db, op: Op, id: nat, after: nat)
    requires EventLog.KeysBelowCounter(db) && Homed(db)
    ensures var db' := Step(db, op).db;
            EventLog.KeysBelowCounter(db') && Homed(db')
    ensures var d' := Deadline(Step(db, op).db, id, after);
            || d'.None?
            || (d' == Deadline(db, id, after) && forall h :: h in HooksOf(db, op, after) ==> h.id != id)
            || (&& op.CreateMessage? && d' == Some(op.now + after)
                && HooksOf(db, op, after) == [ScheduleHook(id, op.now + after)])
  {
    if PlanOf(db, op).Ok? {
      EventLog.PlansAreLegal(db, op);
      var writes := PlanOf(db, op).value.writes;
      CommitMovesDeadline(db, writes, id, after);
      if op.CreateMessage? {
        if !op.fault && writes != [] {
          CreatedMovesDeadline(db, op, id, after);
        }
      } else {
        NoAgentMessages(db, op, id);
        if op.Close? && !op.fault {
          ClosingCloses(db, op);
        }
      }
    }
  }

  /** Only creating a message inserts one that an agent sent. */
  lemma NoAgentMessages(db: Db, op: Op, id: nat)
    requires PlanOf(db, op).Ok? && !op.CreateMessage?
    ensures forall w :: w in PlanOf(db, op).value.writes ==> !SetsDeadline(w, id)
  {
  }

  /** A close that succeeds leaves the conversation closed. */
  lemma ClosingCloses(db: Db, op: Op)
    requires op.Close? && Step(db, op).answer.Ok?
    ensures EventLog.IsClosed(Step(db, op).db, op.conversation)
  {
    var writes := PlanOf(db, op).value.writes;
    if writes != [] {
      assert writes == [writes[0]];
      EventLog.CommitOfTwo(db, writes[0], writes[0]);
    }
  }

  lemma CreatedAdds(db: Db, op: Op)
    requires op.CreateMessage?
    ensures |Step(db, op).db.messages| > |db.messages|
            <==> PlanOf(db, op).Ok? && PlanOf(db, op).value.writes != [] && !op.fault
  {
    if PlanOf(db, op).Ok? && PlanOf(db, op).value.writes != [] && !op.fault {
      CreatedRow(db, op, 0);
    }
  }

  /**
    What a call's hook does when it is the next to run: a new message from an agent restarts the conversation's
    timer, one from the visitor stops it, as does a close; every other call and every other timer stays out of it.
   */
  lemma HookSettlesTimer(s: Sys, op: Op, after: nat)
    requires EventLog.KeysBelowCounter(s.db) && s.hooks == [] && Enabled(s, Call(op))
    ensures var s' := Next(s, Call(op), after);
            var timers := if s'.hooks == [] then s'.timers else Next(s', RunHook, after).timers;
            var added := op.CreateMessage? && |s'.db.messages| > |s.db.messages|;
            && |s'.hooks| <= 1
            && timers == if added && op.sender == Some(Agent) then s.timers[op.conversation := s.now + after]
                         else if (added && op.sender == Some(Visitor)) || (op.Close? && Step(s.db, op).answer.Ok?)
                         then s.timers - {op.conversation}
                         else s.timers
  {
    if op.CreateMessage? {
      CreatedAdds(s.db, op);
      if |Step(s.db, op).db.messages| > |s.db.messages| {
        CreatedRow(s.db, op, after);
      }
    }
  }

  lemma {:induction false} CommitKeepsStamps(db: Db, writes: seq<Write>, now: nat)
    requires Stamped(db, now)
    requires forall w :: w in writes && w.InsertMessage? && w.sender != System ==> w.createdAt <= now
    ensures Stamped(Commit(db, writes), now)
    decreases |writes|
  {
    if writes != [] {
      var db' := Apply(db, writes[0]);
      forall m | m in db'.messages && m.sender != System ensures m.createdAt <= now {
        if writes[0].MarkRange? {
          var i :| 0 <= i < |db'.messages| && db'.messages[i] == m;
          assert db.messages[i] in db.messages;
        }
      }
      CommitKeepsStamps(db', writes[1..], now);
    }
  }

  lemma CallKeepsStamps(db: Db, op: Op, now: nat)
    requires Stamped(db, now) && (op.CreateMessage? ==> op.now == now)
    ensures Stamped(Step(db, op).db, now)
  {
    if PlanOf(db, op).Ok? {
      CommitKeepsStamps(db, PlanOf(db, op).value.writes, now);
    }
  }

  // ----- Every step keeps the agreement

  lemma LastHookAppend(hooks: seq<Hook>, more: seq<Hook>, id: nat)
    requires |more| <= 1
    ensures LastHook(hooks + more, id) == if more != [] && more[0].id == id then Some(more[0]) else LastHook(hooks, id)
  {
    if more == [] {
      assert hooks + more == hooks;
    } else {
      assert (hooks + more)[..|hooks|] == hooks;
    }
  }

  lemma {:induction false} LastHookTail(hooks: seq<Hook>, id: nat)
    requires hooks != []
    ensures LastHook(hooks[1..], id).Some? ==> LastHook(hooks, id) == LastHook(hooks[1..], id)
    ensures LastHook(hooks[1..], id).None? ==> LastHook(hooks, id) == if hooks[0].id == id then Some(hooks[0]) else None
  {
    var n := |hooks| - 1;
    if n > 0 && hooks[n].id != id {
      LastHookTail(hooks[..n], id);
      assert hooks[1..][..n - 1] == hooks[..n][1..];
    }
  }

  lemma ClosedSurvives(db: Db, op: Op, id: nat)
    requires EventLog.KeysBelowCounter(db) && EventLog.IsClosed(db, id)
    ensures EventLog.IsClosed(Step(db, op).db, id)
  {
    if PlanOf(db, op).Ok? {
      EventLog.PlansAreLegal(db, op);
      ChatHistory.CommitLeavesClosedAlone(db, PlanOf(db, op).value.writes, id);
    }
  }

  lemma CallKeepsGood(s: Sys, op: Op, after: nat, id: nat)
    requires Ready(s, after) && Enabled(s, Call(op)) && IsGood(s, id, after)
    ensures IsGood(Next(s, Call(op), after), id, after)
  {
    CallMovesDeadline(s.db, op, id, after);
    LastHookAppend(s.hooks, HooksOf(s.db, op, after), id);
  }

  lemma HookKeepsGood(s: Sys, after: nat, id: nat)
    requires Ready(s, after) && Enabled(s, RunHook) && IsGood(s, id, after)
    ensures IsGood(Next(s, RunHook, after), id, after)
  {
    LastHookTail(s.hooks, id);
    var s' := Next(s, RunHook, after);
    assert forall k :: 0 <= k < |s'.hooks| ==> s'.hooks[k] == s.hooks[k + 1];
  }

  lemma TransactKeepsGood(s: Sys, c: nat, after: nat, id: nat)
    requires Ready(s, after) && Enabled(s, Transact(c)) && IsGood(s, id, after)
    ensures IsGood(Next(s, Transact(c), after), id, after)
  {
    CallMovesDeadline(s.db, IdleOp(s, c, after), id, after);
    if id == c {
      TransactDecides(s, c, after);
    } else {
      OtherCallbacksStay(s, c, after, id);
    }
  }

  lemma OtherCallbacksStay(s: Sys, c: nat, after: nat, id: nat)
    requires Enabled(s, Transact(c)) && id != c
    ensures var s' := Next(s, Transact(c), after);
            && (Due(id) in s.callbacks <==> Due(id) in s'.callbacks)
            && forall d: nat :: Reschedule(id, d) in s.callbacks <==> Reschedule(id, d) in s'.callbacks
  {
  }

  /** The transaction closes the conversation if its deadline has passed, and otherwise leaves it. */
  lemma TransactDecides(s: Sys, c: nat, after: nat)
    requires EventLog.KeysBelowCounter(s.db)
    ensures Deadline(s.db, c, after).Some? && Deadline(s.db, c, after).value <= s.now ==>
              EventLog.IsClosed(Step(s.db, IdleOp(s, c, after)).db, c)
    ensures Deadline(s.db, c, after).None? || Deadline(s.db, c, after).value > s.now ==>
              Step(s.db, IdleOp(s, c, after)).db == s.db
  {
    var op := IdleOp(s, c, after);
    var writes := PlanOf(s.db, op).value.writes;
    if writes != [] {
      assert writes == [writes[0]];
      EventLog.CommitOfTwo(s.db, writes[0], writes[0]);
    }
  }

  lemma SettleKeepsGood(s: Sys, callback: Callback, after: nat, id: nat)
    requires Ready(s, after) && Enabled(s, Settle(callback)) && IsGood(s, id, after)
    ensures IsGood(Next(s, Settle(callback), after), id, after)
  {
    var s' := Next(s, Settle(callback), after);
    assert forall d: nat :: Reschedule(id, d) in s'.callbacks ==> Reschedule(id, d) in s.callbacks;
    if id != callback.id {
      assert forall d: nat :: Reschedule(id, d) in s.callbacks ==> Reschedule(id, d) in s'.callbacks;
    }
  }

  lemma StepKeepsReady(s: Sys, a: Action, after: nat)
    requires Ready(s, after) && Enabled(s, a)
    ensures Ready(Next(s, a, after), after)
  {
    var s' := Next(s, a, after);
    forall id ensures IsGood(s', id, after) {
      assert IsGood(s, id, after);
      match a {
        case Call(op) => CallKeepsGood(s, op, after, id);
        case RunHook => HookKeepsGood(s, after, id);
        case Transact(c) => TransactKeepsGood(s, c, after, id);
        case Settle(callback) => SettleKeepsGood(s, callback, after, id);
        case _ =>
      }
    }
    TablesStayReady(s, a, after);
  }

  lemma TablesStayReady(s: Sys, a: Action, after: nat)
    requires Ready(s, after) && Enabled(s, a)
    ensures var s' := Next(s, a, after);
            EventLog.KeysBelowCounter(s'.db) && Homed(s'.db) && Stamped(s'.db, s'.now) && ClosedStaysClosed(s')
  {
    var s' := Next(s, a, after);
    if a.Call? || a.Transact? {
      var op := if a.Call? then a.op else IdleOp(s, a.id, after);
      CallMovesDeadline(s.db, op, 0, after);
      CallKeepsStamps(s.db, op, s.now);
      forall id | CancelClosed(id) in s'.callbacks ensures EventLog.IsClosed(s'.db, id) {
        if CancelClosed(id) in s.callbacks {
          ClosedSurvives(s.db, op, id);
        } else {
          TransactDecides(s, id, after);
        }
      }
    }
  }

  /**
    Whatever the interleaving of calls, hooks, firing timers and callbacks: an open conversation whose last word
    is an agent's, and none of whose hooks is waiting, has a timer due no later than its deadline or a due
    callback at work.
   */
  lemma {:induction false} TimersAgree(start: Sys, run: seq<Action>, after: nat)
    requires Ready(start, after) && IsRun(start, run, after)
    ensures Ready(Final(start, run, after), after)
    ensures forall id :: Deadline(Final(start, run, after).db, id, after).Some?
                         && LastHook(Final(start, run, after).hooks, id).None? ==>
              IsCovered(Final(start, run, after), id, Deadline(Final(start, run, after).db, id, after).value)
  {
    if run != [] {
      TimersAgree(start, run[..|run| - 1], after);
      StepKeepsReady(Final(start, run[..|run| - 1], after), run[|run| - 1], after);
    }
    var s := Final(start, run, after);
    forall id | Deadline(s.db, id, after).Some? && LastHook(s.hooks, id).None?
      ensures IsCovered(s, id, Deadline(s.db, id, after).value)
    {
      assert IsGood(s, id, after);
    }
  }

  /** A timeout closes only a conversation whose last word, an agent's, is old enough. */
  lemma TimeoutClosesOnlyIdle(s: Sys, c: nat, after: nat, id: nat)
    requires Ready(s, after) && Enabled(s, Transact(c))
    requires id in s.db.conversations && s.db.conversations[id].open
    requires EventLog.IsClosed(Next(s, Transact(c), after).db, id)
    ensures id == c && LatestNonSystem(s.db.messages, id).Some?
    ensures LatestNonSystem(s.db.messages, id).value.sender == Agent
    ensures LatestNonSystem(s.db.messages, id).value.createdAt + after <= s.now
  {
    ChatHistory.RowChanges(s.db, IdleOp(s, c, after), id);
  }
}
