/**
  The event outbox as a log: folding a conversation's rows in id order rebuilds the tables the
  transactions wrote, in every state any sequence of calls can reach.
 */
module EventLog {
  import opened ChatModel

  /** What a subscriber of one conversation can know. */
  datatype View = View(messages: seq<Message>, closed: bool)

  const BLANK := View([], false)

  /** A status event marks that sender's messages up to the bound, whatever their status was. */
  function Seen(messages: seq<Message>, sender: Sender, upTo: nat): (r: seq<Message>)
    ensures |r| == |messages|
  {
    if messages == [] then []
    else
      var last := messages[|messages| - 1];
      Seen(messages[..|messages| - 1], sender, upTo)
      + [if last.sender == sender && last.id <= upTo then last.(status := Read) else last]
  }

  function ApplyEvent(v: View, e: Event): View {
    match e
    case MessageNew(_, m) => v.(messages := v.messages + [m])
    case StatusRange(_, sender, upTo) => v.(messages := Seen(v.messages, sender, upTo))
    case ConversationClosed(_) => v.(closed := true)
  }

  function Fold(events: seq<Event>): View {
    if events == [] then BLANK
    else ApplyEvent(Fold(events[..|events| - 1]), events[|events| - 1])
  }

  /** The events of one conversation. */
  function EventsOf(rows: seq<Row>, c: nat): seq<Event> {
    if rows == [] then []
    else
      var last := rows[|rows| - 1].event;
      EventsOf(rows[..|rows| - 1], c) + if last.conversation == c then [last] else []
  }

  function MessagesOf(messages: seq<Message>, c: nat): seq<Message> {
    if messages == [] then []
    else
      var last := messages[|messages| - 1];
      MessagesOf(messages[..|messages| - 1], c) + if last.conversation == c then [last] else []
  }

  predicate IsClosed(db: Db, c: nat) {
    c in db.conversations && !db.conversations[c].open
  }

  /** The server's own tables, restricted to one conversation. */
  function ServerView(db: Db, c: nat): View {
    View(MessagesOf(db.messages, c), IsClosed(db, c))
  }

  predicate Rebuilt(db: Db, c: nat) {
    Fold(EventsOf(db.outbox, c)) == ServerView(db, c)
  }

  lemma CommitOfTwo(db: Db, a: Write, b: Write)
    ensures Commit(db, [a]) == Apply(db, a)
    ensures Commit(db, [a, b]) == Apply(Apply(db, a), b)
  {
    assert [a, b][1..] == [b] && [a][1..] == [] && [b][1..] == [];
    assert Commit(Apply(db, a), [b]) == Commit(Apply(Apply(db, a), b), []);
  }

  // ----- Which writes the operations plan

  /** What the tables' keys and the row locks ensure of every write. */
  ghost predicate SoundWrite(db: Db, w: Write) {
    match w
    case PutConversation(row) => row.open && row.closedAt.None? && row.owner.None? && row.pendingTo.None?
                                 && row.pendingFrom.None? && row.pendingAt.None?
    case SaveConversation(id, row) =>
      && id in db.conversations
      && db.conversations[id].open && row.open
      && row.closedAt == db.conversations[id].closedAt
    case CloseConversation(id, row) =>
      id in db.conversations && db.conversations[id].open && !row.open && row.closedAt.Some?
    case InsertMessage(c, _, _, _, clientMsgId, _) =>
      c in db.conversations && FindByClientId(db.messages, c, clientMsgId).None?
    case MarkRange(c, sender, upTo) =>
      c in db.conversations && CountUnread(db.messages, c, sender, upTo) > 0
  }

  /** What the operations ensure on top: no message goes into a closed conversation. */
  ghost predicate LegalWrite(db: Db, w: Write) {
    SoundWrite(db, w) && (w.InsertMessage? ==> db.conversations[w.id].open)
  }

  ghost predicate LegalWrites(db: Db, writes: seq<Write>)
    decreases |writes|
  {
    writes == [] || (LegalWrite(db, writes[0]) && LegalWrites(Apply(db, writes[0]), writes[1..]))
  }

  /** Marking one sender's rows leaves another sender's and another conversation's unread counts alone. */
  lemma {:induction false} MarkingKeepsOthers(messages: seq<Message>, c: nat, s: Sender, upTo: nat, d: nat,
                                              t: Sender, bound: nat)
    requires c != d || s != t
    ensures CountUnread(MarkRows(messages, c, s, upTo), d, t, bound) == CountUnread(messages, d, t, bound)
  {
    if messages != [] {
      var n := |messages| - 1;
      MarkingKeepsOthers(messages[..n], c, s, upTo, d, t, bound);
      assert MarkRows(messages, c, s, upTo)[..n] == MarkRows(messages[..n], c, s, upTo);
    }
  }

  /** An UPDATE that matches no row changes nothing. */
  lemma {:induction false} NothingToMark(messages: seq<Message>, c: nat, sender: Sender, upTo: nat)
    requires CountUnread(messages, c, sender, upTo) == 0
    ensures MarkRows(messages, c, sender, upTo) == messages
  {
    if messages != [] {
      var n := |messages| - 1;
      NothingToMark(messages[..n], c, sender, upTo);
      assert MarkRows(messages, c, sender, upTo)[..n] == MarkRows(messages[..n], c, sender, upTo);
      assert messages == messages[..n] + [messages[n]];
    }
  }

  lemma PlansAreLegal(db: Db, op: Op)
    requires PlanOf(db, op).Ok?
    ensures LegalWrites(db, PlanOf(db, op).value.writes)
  {
    var writes := PlanOf(db, op).value.writes;
    if |writes| == 2 {
      if op.MarkMessagesRead? {
        MarkingKeepsOthers(db.messages, op.conversation, Agent, op.lastRead, op.conversation, Ai, op.lastRead);
      }
      assert writes[1..] == [writes[1]];
      assert LegalWrites(Apply(Apply(db, writes[0]), writes[1]), []);
      assert LegalWrites(Apply(db, writes[0]), writes[1..]);
    } else if |writes| == 1 {
      assert LegalWrites(Apply(db, writes[0]), []);
    }
  }

  // ----- Rebuilding, one write at a time

  lemma EventsOfAppend(rows: seq<Row>, r: Row, c: nat)
    ensures EventsOf(rows + [r], c)
            == if r.event.conversation == c then EventsOf(rows, c) + [r.event] else EventsOf(rows, c)
  {
    assert (rows + [r])[..|rows|] == rows;
  }

  lemma FoldAppend(events: seq<Event>, e: Event)
    ensures Fold(events + [e]) == ApplyEvent(Fold(events), e)
  {
    assert (events + [e])[..|events|] == events;
  }

  lemma MessagesOfAppend(messages: seq<Message>, m: Message, c: nat)
    ensures MessagesOf(messages + [m], c)
            == if m.conversation == c then MessagesOf(messages, c) + [m] else MessagesOf(messages, c)
  {
    assert (messages + [m])[..|messages|] == messages;
  }

  lemma SeenAppend(messages: seq<Message>, m: Message, sender: Sender, upTo: nat)
    ensures Seen(messages + [m], sender, upTo)
            == Seen(messages, sender, upTo) + [MarkRow(m, m.conversation, sender, upTo)]
  {
    assert (messages + [m])[..|messages|] == messages;
    assert m.status == Read ==> m.(status := Read) == m;
  }

  lemma MarkRowFiltered(front: seq<Message>, marked: seq<Message>, last: Message, c: nat, sender: Sender, upTo: nat,
                        d: nat)
    requires MessagesOf(marked, d) == if c == d then Seen(MessagesOf(front, d), sender, upTo) else MessagesOf(front, d)
    ensures MessagesOf(marked + [MarkRow(last, c, sender, upTo)], d)
            == if c == d then Seen(MessagesOf(front + [last], d), sender, upTo) else MessagesOf(front + [last], d)
  {
    MessagesOfAppend(marked, MarkRow(last, c, sender, upTo), d);
    MessagesOfAppend(front, last, d);
    if last.conversation == d {
      SeenAppend(MessagesOf(front, d), last, sender, upTo);
    }
  }

  /** The UPDATE over the whole table is the fold's marking on one conversation and nothing elsewhere. */
  lemma {:induction false} MarkRowsFiltered(messages: seq<Message>, c: nat, sender: Sender, upTo: nat, d: nat)
    ensures MessagesOf(MarkRows(messages, c, sender, upTo), d)
            == if c == d then Seen(MessagesOf(messages, d), sender, upTo) else MessagesOf(messages, d)
  {
    if messages != [] {
      var n := |messages| - 1;
      var front, last := messages[..n], messages[n];
      MarkRowsFiltered(front, c, sender, upTo, d);
      assert MarkRows(messages, c, sender, upTo) == MarkRows(front, c, sender, upTo) + [MarkRow(last, c, sender, upTo)];
      assert messages == front + [last];
      MarkRowFiltered(front, MarkRows(front, c, sender, upTo), last, c, sender, upTo, d);
    }
  }

  ghost predicate KeysBelowCounter(db: Db) {
    1 <= db.nextConversation && forall c :: c in db.conversations ==> 1 <= c < db.nextConversation
  }

  lemma WriteRebuilds(db: Db, w: Write, c: nat)
    requires KeysBelowCounter(db) && SoundWrite(db, w) && Rebuilt(db, c)
    ensures Rebuilt(Apply(db, w), c)
  {
    var db' := Apply(db, w);
    if |db'.outbox| > |db.outbox| {
      var row := db'.outbox[|db.outbox|];
      EventsOfAppend(db.outbox, row, c);
      FoldAppend(EventsOf(db.outbox, c), row.event);
    }
    match w {
      case InsertMessage(_, _, _, _, _, _) => MessagesOfAppend(db.messages, db'.messages[|db.messages|], c);
      case MarkRange(id, sender, upTo) => MarkRowsFiltered(db.messages, id, sender, upTo, c);
      case _ =>
    }
  }

  lemma {:induction false} CommitRebuilds(db: Db, writes: seq<Write>, c: nat)
    requires KeysBelowCounter(db) && LegalWrites(db, writes) && Rebuilt(db, c)
    ensures KeysBelowCounter(Commit(db, writes)) && Rebuilt(Commit(db, writes), c)
    ensures Commit(db, writes).nextConversation >= db.nextConversation
    decreases |writes|
  {
    if writes != [] {
      WriteRebuilds(db, writes[0], c);
      CommitRebuilds(Apply(db, writes[0]), writes[1..], c);
    }
  }

  /** In every reachable state, folding the log rebuilds the server's tables. */
  lemma {:induction false} LogRebuildsTables(ops: seq<Op>, c: nat)
    ensures KeysBelowCounter(After(ops))
    ensures Fold(EventsOf(After(ops).outbox, c)) == ServerView(After(ops), c)
  {
    if ops != [] {
      var before, op := After(ops[..|ops| - 1]), ops[|ops| - 1];
      LogRebuildsTables(ops[..|ops| - 1], c);
      if PlanOf(before, op).Ok? {
        PlansAreLegal(before, op);
        CommitRebuilds(before, PlanOf(before, op).value.writes, c);
      }
    }
  }
}
