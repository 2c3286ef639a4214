/**
  The chat service's tables and its business operations.

  A committed transaction is a list of writes applied in one step; an operation first plans its
  writes against the tables it reads, and either all of them are committed or none is.
 */
module ChatModel {
  import opened Prelude
  import Text

  const MAX_MESSAGE_CONTENT_CHARS := 2000

  datatype Sender = Visitor | Agent | System | Ai

  datatype MessageStatus = Sent | Read

  datatype Role = AgentRole | AdminRole | SuperAdminRole | UnknownRole

  datatype Actor = AgentActor | VisitorActor | UnknownActor

  datatype Message = Message(
    id: nat, conversation: nat, sender: Sender, senderAgent: Option<nat>, content: string,
    clientMsgId: string, status: MessageStatus, createdAt: nat)

  datatype Conversation = Conversation(
    site: string, visitor: string, open: bool, owner: Option<nat>,
    pendingTo: Option<nat>, pendingFrom: Option<nat>, pendingAt: Option<nat>,
    closedAt: Option<nat>, closedBy: Option<nat>)

  /** The payload of one row of the event outbox. */
  datatype Event =
    | MessageNew(conversation: nat, message: Message)
    | StatusRange(conversation: nat, sender: Sender, upTo: nat)
    | ConversationClosed(conversation: nat)

  datatype Row = Row(id: nat, event: Event)

  /** The three tables and their auto-increment counters. */
  datatype Db = Db(
    conversations: map<nat, Conversation>, messages: seq<Message>, outbox: seq<Row>,
    nextConversation: nat, nextMessage: nat, nextEvent: nat)

  const EMPTY_DB := Db(map[], [], [], 1, 1, 1)

  datatype Error =
    | InvalidInput | NotFound | Closed | AlreadyClaimed | Unassigned | Forbidden
    | TransferIsPending | TransferNotPending | Storage

  datatype Reply =
    | ConversationReply(id: nat, conversation: Conversation)
    | MessageReply(message: Message)
    | RowsReply(rows: nat)
    | NoReply

  /** A transfer's system message: its rendered text and its time-based client id. */
  datatype Notice = Notice(text: string, clientMsgId: string)

  /** One call of the service. `fault` says that storage fails before the commit. */
  datatype Op =
    | CreateConversation(site: string, visitor: string, fault: bool)
    | CreateMessage(conversation: nat, sender: Option<Sender>, senderAgent: Option<nat>, content: string,
                    clientMsgId: string, visitorToken: string, now: nat, fault: bool)
    | MarkMessagesRead(conversation: nat, lastRead: nat, actorType: Actor, actor: nat,
                       visitorToken: string, fault: bool)
    | Claim(conversation: nat, agent: nat, fault: bool)
    | Transfer(conversation: nat, actor: nat, role: Role, to: nat, now: nat, notice: Notice, fault: bool)
    | ConfirmTransfer(conversation: nat, actor: nat, role: Role, now: nat, notice: Notice, fault: bool)
    | RejectTransfer(conversation: nat, actor: nat, role: Role, now: nat, notice: Notice, fault: bool)
    | Close(conversation: nat, actor: nat, role: Role, now: nat, fault: bool)
    | CloseIdle(conversation: nat, cutoff: int, now: nat, fault: bool)

  // ----- Queries

  predicate IsAdmin(role: Role) {
    role == AdminRole || role == SuperAdminRole
  }

  /** The row holding a client id, if the conversation already has one. */
  function FindByClientId(messages: seq<Message>, c: nat, clientMsgId: string): (r: Option<Message>)
    ensures r.Some? ==> r.value in messages && r.value.conversation == c && r.value.clientMsgId == clientMsgId
    ensures r.None? ==> forall m :: m in messages && m.conversation == c ==> m.clientMsgId != clientMsgId
  {
    if messages == [] then None
    else if messages[0].conversation == c && messages[0].clientMsgId == clientMsgId then Some(messages[0])
    else FindByClientId(messages[1..], c, clientMsgId)
  }

  /** The newest message of a conversation that is not a system notice. */
  function LatestNonSystem(messages: seq<Message>, c: nat): (r: Option<Message>)
    ensures r.Some? ==> r.value in messages && r.value.conversation == c && r.value.sender != System
  {
    if messages == [] then None
    else
      var last := messages[|messages| - 1];
      if last.conversation == c && last.sender != System then Some(last)
      else LatestNonSystem(messages[..|messages| - 1], c)
  }

  /** The open conversation of a visitor with the greatest id below a bound. */
  function LatestOpen(rows: map<nat, Conversation>, site: string, visitor: string, below: nat): (r: Option<nat>)
    ensures r.Some? ==>
              && r.value < below && r.value in rows && IsOpenFor(rows[r.value], site, visitor)
              && forall c :: c in rows && r.value < c < below ==> !IsOpenFor(rows[c], site, visitor)
    ensures r.None? ==> forall c :: c in rows && c < below ==> !IsOpenFor(rows[c], site, visitor)
  {
    if below == 0 then None
    else if below - 1 in rows && IsOpenFor(rows[below - 1], site, visitor) then Some(below - 1)
    else LatestOpen(rows, site, visitor, below - 1)
  }

  predicate IsOpenFor(conversation: Conversation, site: string, visitor: string) {
    conversation.open && conversation.site == site && conversation.visitor == visitor
  }

  /** Whether a read report up to `upTo` for `sender` turns this row from sent to read. */
  predicate IsUnread(m: Message, c: nat, sender: Sender, upTo: nat) {
    m.conversation == c && m.sender == sender && m.id <= upTo && m.status == Sent
  }

  function MarkRow(m: Message, c: nat, sender: Sender, upTo: nat): Message {
    if IsUnread(m, c, sender, upTo) then m.(status := Read) else m
  }

  function MarkRows(messages: seq<Message>, c: nat, sender: Sender, upTo: nat): (r: seq<Message>)
    ensures |r| == |messages|
  {
    seq(|messages|, i requires 0 <= i < |messages| => MarkRow(messages[i], c, sender, upTo))
  }

  function CountUnread(messages: seq<Message>, c: nat, sender: Sender, upTo: nat): nat {
    if messages == [] then 0
    else
      CountUnread(messages[..|messages| - 1], c, sender, upTo)
      + if IsUnread(messages[|messages| - 1], c, sender, upTo) then 1 else 0
  }

  // ----- Row mutations, run under the row lock

  datatype Mutation = Keep | Save(conversation: Conversation) | Refuse(error: Error)

  function ClearPending(c: Conversation): Conversation {
    c.(pendingTo := None, pendingFrom := None, pendingAt := None)
  }

  function ClaimMutation(c: Conversation, agent: nat): Mutation {
    if !c.open then Refuse(Closed)
    else if c.owner.Some? then (if c.owner.value == agent then Keep else Refuse(AlreadyClaimed))
    else Save(ClearPending(c).(owner := Some(agent)))
  }

  function TransferMutation(c: Conversation, actor: nat, role: Role, to: nat, now: nat): Mutation {
    if !c.open then Refuse(Closed)
    else if c.owner.None? then Refuse(Unassigned)
    else if !IsAdmin(role) && c.owner.value != actor then Refuse(Forbidden)
    else if c.owner.value == to then Keep
    else if c.pendingTo.Some? then (if c.pendingTo.value == to then Keep else Refuse(TransferIsPending))
    else Save(c.(pendingTo := Some(to), pendingFrom := c.owner, pendingAt := Some(now)))
  }

  function ConfirmMutation(c: Conversation, actor: nat, role: Role): Mutation {
    if !c.open then Refuse(Closed)
    else if c.pendingTo.None? then Refuse(TransferNotPending)
    else if !IsAdmin(role) && c.pendingTo.value != actor then Refuse(Forbidden)
    else Save(ClearPending(c).(owner := c.pendingTo))
  }

  function RejectMutation(c: Conversation, actor: nat, role: Role): Mutation {
    if !c.open then Refuse(Closed)
    else if c.pendingTo.None? then Refuse(TransferNotPending)
    else if !IsAdmin(role) && c.pendingTo.value != actor then Refuse(Forbidden)
    else Save(ClearPending(c))
  }

  function CloseMutation(c: Conversation, actor: nat, role: Role, now: nat): Mutation {
    if !c.open then Keep
    else if !IsAdmin(role) && c.owner != Some(actor) then Refuse(Forbidden)
    else Save(ClearPending(c).(open := false, closedAt := Some(now), closedBy := Some(actor)))
  }

  /** A timeout closes the row but leaves a pending transfer's fields as they are. */
  function IdleMutation(c: Conversation, latest: Option<Message>, cutoff: int, now: nat): Mutation {
    if !c.open || latest.None? || latest.value.sender != Agent || latest.value.createdAt > cutoff then Keep
    else Save(c.(open := false, closedAt := Some(now), closedBy := c.owner))
  }

  // ----- Transactions

  datatype Write =
    | PutConversation(conversation: Conversation)
    | SaveConversation(id: nat, conversation: Conversation)
    | CloseConversation(id: nat, conversation: Conversation)
    | InsertMessage(id: nat, sender: Sender, senderAgent: Option<nat>, content: string,
                    clientMsgId: string, createdAt: nat)
    | MarkRange(id: nat, sender: Sender, upTo: nat)

  function Emit(db: Db, event: Event): Db {
    db.(outbox := db.outbox + [Row(db.nextEvent, event)], nextEvent := db.nextEvent + 1)
  }

  function Apply(db: Db, w: Write): Db {
    match w
    case PutConversation(conversation) =>
      db.(conversations := db.conversations[db.nextConversation := conversation],
          nextConversation := db.nextConversation + 1)
    case SaveConversation(id, conversation) =>
      db.(conversations := db.conversations[id := conversation])
    case CloseConversation(id, conversation) =>
      Emit(db.(conversations := db.conversations[id := conversation]), ConversationClosed(id))
    case InsertMessage(c, sender, senderAgent, content, clientMsgId, createdAt) =>
      var m := Message(db.nextMessage, c, sender, senderAgent, content, clientMsgId, Sent, createdAt);
      Emit(db.(messages := db.messages + [m], nextMessage := db.nextMessage + 1), MessageNew(c, m))
    case MarkRange(c, sender, upTo) =>
      Emit(db.(messages := MarkRows(db.messages, c, sender, upTo)), StatusRange(c, sender, upTo))
  }

  function Commit(db: Db, writes: seq<Write>): Db
    decreases |writes|
  {
    if writes == [] then db else Commit(Apply(db, writes[0]), writes[1..])
  }

  /** A rolled-back transaction leaves the tables alone but has used up auto-increment values. */
  function Rollback(db: Db, writes: seq<Write>): Db {
    var lost := Commit(db, writes);
    db.(nextConversation := lost.nextConversation, nextMessage := lost.nextMessage, nextEvent := lost.nextEvent)
  }

  datatype Plan = Plan(writes: seq<Write>, reply: Reply)

  type Planned = Result<Plan, Error>

  function PlanCreateConversation(db: Db, op: Op): Planned
    requires op.CreateConversation?
  {
    var site, visitor := Text.Trim(op.site), Text.Trim(op.visitor);
    if site == "" || visitor == "" then Err(InvalidInput)
    else match LatestOpen(db.conversations, site, visitor, db.nextConversation)
      case Some(c) => Ok(Plan([], ConversationReply(c, db.conversations[c])))
      case None =>
        var row := Conversation(site, visitor, true, None, None, None, None, None, None);
        Ok(Plan([PutConversation(row)], ConversationReply(db.nextConversation, row)))
  }

  function MessageRefusal(db: Db, op: Op): Option<Error>
    requires op.CreateMessage?
  {
    if op.sender.None? || Text.Trim(op.content) == "" || |op.content| > MAX_MESSAGE_CONTENT_CHARS
    then Some(InvalidInput)
    else if op.conversation !in db.conversations then Some(NotFound)
    else
      var c := db.conversations[op.conversation];
      if !c.open then Some(Closed)
      else match op.sender.value
        case Visitor =>
          var token := Text.Trim(op.visitorToken);
          if token == "" || c.visitor != token then Some(InvalidInput) else None
        case Agent =>
          if op.senderAgent.None? || op.senderAgent.value == 0 then Some(InvalidInput)
          else if c.owner.None? then Some(Unassigned)
          else if c.owner != op.senderAgent then Some(Forbidden)
          else None
        case _ => None
  }

  function PlanCreateMessage(db: Db, op: Op): Planned
    requires op.CreateMessage?
  {
    match MessageRefusal(db, op)
    case Some(e) => Err(e)
    case None =>
      match FindByClientId(db.messages, op.conversation, op.clientMsgId)
      case Some(existing) => Ok(Plan([], MessageReply(existing)))
      case None =>
        Ok(Plan([InsertMessage(op.conversation, op.sender.value, op.senderAgent, op.content, op.clientMsgId, op.now)],
                MessageReply(Message(db.nextMessage, op.conversation, op.sender.value, op.senderAgent, op.content,
                                     op.clientMsgId, Sent, op.now))))
  }

  function RangeWrites(db: Db, c: nat, sender: Sender, upTo: nat): seq<Write> {
    if CountUnread(db.messages, c, sender, upTo) > 0 then [MarkRange(c, sender, upTo)] else []
  }

  /** Whoever reports reading advances the other side's messages. */
  function PlanMarkMessagesRead(db: Db, op: Op): Planned
    requires op.MarkMessagesRead?
  {
    if op.conversation == 0 || op.lastRead == 0 || op.actorType == UnknownActor then Err(InvalidInput)
    else if op.conversation !in db.conversations then Err(NotFound)
    else if op.actorType == VisitorActor then
      if Text.Trim(op.visitorToken) == "" || db.conversations[op.conversation].visitor != op.visitorToken then
        Err(InvalidInput)
      else
        Ok(Plan(RangeWrites(db, op.conversation, Agent, op.lastRead)
                + RangeWrites(db, op.conversation, Ai, op.lastRead),
                RowsReply(CountUnread(db.messages, op.conversation, Agent, op.lastRead)
                          + CountUnread(db.messages, op.conversation, Ai, op.lastRead))))
    else if op.actor == 0 then Err(InvalidInput)
    else
      Ok(Plan(RangeWrites(db, op.conversation, Visitor, op.lastRead),
              RowsReply(CountUnread(db.messages, op.conversation, Visitor, op.lastRead))))
  }

  function PlanClaim(db: Db, op: Op): Planned
    requires op.Claim?
  {
    if op.conversation == 0 || op.agent == 0 then Err(InvalidInput)
    else if op.conversation !in db.conversations then Err(NotFound)
    else
      var row := db.conversations[op.conversation];
      match ClaimMutation(row, op.agent)
      case Refuse(e) => Err(e)
      case Keep => Ok(Plan([], ConversationReply(op.conversation, row)))
      case Save(c) => Ok(Plan([SaveConversation(op.conversation, c)], ConversationReply(op.conversation, c)))
  }

  /** A transfer step saves the row and tells the conversation about it in the same commit. */
  function PlanNotified(db: Db, id: nat, mutation: Mutation, notice: Notice, now: nat): Planned
    requires id in db.conversations
  {
    match mutation
    case Refuse(e) => Err(e)
    case Keep => Ok(Plan([], ConversationReply(id, db.conversations[id])))
    case Save(c) =>
      if FindByClientId(db.messages, id, notice.clientMsgId).Some? then Err(Storage)
      else Ok(Plan([SaveConversation(id, c), InsertMessage(id, System, None, notice.text, notice.clientMsgId, now)],
                   ConversationReply(id, c)))
  }

  function PlanTransferStep(db: Db, op: Op): Planned
    requires op.Transfer? || op.ConfirmTransfer? || op.RejectTransfer?
  {
    if op.conversation == 0 || op.actor == 0 || (op.Transfer? && op.to == 0) || op.role == UnknownRole
    then Err(InvalidInput)
    else if op.conversation !in db.conversations then Err(NotFound)
    else
      var row := db.conversations[op.conversation];
      var mutation := match op
        case Transfer(_, actor, role, to, now, _, _) => TransferMutation(row, actor, role, to, now)
        case ConfirmTransfer(_, actor, role, _, _, _) => ConfirmMutation(row, actor, role)
        case _ => RejectMutation(row, op.actor, op.role);
      PlanNotified(db, op.conversation, mutation, op.notice, op.now)
  }

  function PlanClosing(db: Db, id: nat, mutation: Mutation, quiet: bool): Planned
    requires id in db.conversations
  {
    match mutation
    case Refuse(e) => Err(e)
    case Keep => Ok(Plan([], if quiet then NoReply else ConversationReply(id, db.conversations[id])))
    case Save(c) => Ok(Plan([CloseConversation(id, c)], if quiet then NoReply else ConversationReply(id, c)))
  }

  function PlanClose(db: Db, op: Op): Planned
    requires op.Close?
  {
    if op.conversation == 0 || op.actor == 0 || op.role == UnknownRole then Err(InvalidInput)
    else if op.conversation !in db.conversations then Err(NotFound)
    else PlanClosing(db, op.conversation,
                     CloseMutation(db.conversations[op.conversation], op.actor, op.role, op.now), false)
  }

  function PlanCloseIdle(db: Db, op: Op): Planned
    requires op.CloseIdle?
  {
    if op.conversation == 0 || op.conversation !in db.conversations then Ok(Plan([], NoReply))
    else
      var latest := LatestNonSystem(db.messages, op.conversation);
      PlanClosing(db, op.conversation, IdleMutation(db.conversations[op.conversation], latest, op.cutoff, op.now), true)
  }

  function PlanOf(db: Db, op: Op): Planned {
    match op
    case CreateConversation(_, _, _) => PlanCreateConversation(db, op)
    case CreateMessage(_, _, _, _, _, _, _, _) => PlanCreateMessage(db, op)
    case MarkMessagesRead(_, _, _, _, _, _) => PlanMarkMessagesRead(db, op)
    case Claim(_, _, _) => PlanClaim(db, op)
    case Close(_, _, _, _, _) => PlanClose(db, op)
    case CloseIdle(_, _, _, _) => PlanCloseIdle(db, op)
    case _ => PlanTransferStep(db, op)
  }

  datatype Outcome = Outcome(db: Db, answer: Result<Reply, Error>)

  /** One call: refused, rolled back, or committed as a whole. */
  function Step(db: Db, op: Op): Outcome {
    match PlanOf(db, op)
    case Err(e) => Outcome(db, Err(e))
    case Ok(plan) =>
      if op.fault then Outcome(Rollback(db, plan.writes), Err(Storage))
      else Outcome(Commit(db, plan.writes), Ok(plan.reply))
  }

  /** The tables after a sequence of calls. */
  function Run(db: Db, ops: seq<Op>): Db {
    if ops == [] then db else Step(Run(db, ops[..|ops| - 1]), ops[|ops| - 1]).db
  }

  function After(ops: seq<Op>): Db {
    Run(EMPTY_DB, ops)
  }
}
