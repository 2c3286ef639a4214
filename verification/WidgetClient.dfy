/** The widget's mutable state and its handlers as they run, and the retry budget of one outgoing message. */
module WidgetClient {
  import opened Prelude
  import opened ChatModel
  import opened Widget

  const WS_AUTO_RETRY_MAX: nat := 2

  class MessageList {
    var messages: seq<Entry>

    constructor ()
      ensures messages == []
    {
      messages := [];
    }

    /** Rebuilds the key maps from the list, merges the incoming records one by one, and sorts. */
    method MergeIncoming(items: seq<Entry>)
      modifies this
      ensures messages == MergeMessages(old(messages), items)
    {
      var byKey: seq<Entry> := [];
      var clientMsgKey: map<string, Key> := map[];
      for i := 0 to |messages|
        invariant messages == old(messages)
        invariant Merge(byKey, clientMsgKey) == Load(messages[..i])
      {
        assert messages[..i + 1][..i] == messages[..i];
        var current := messages[i];
        if IsNormalized(current) {
          byKey := Put(byKey, current);
          if current.clientId != "" {
            clientMsgKey := clientMsgKey[current.clientId := KeyOf(current)];
          }
        }
      }
      assert messages[..|messages|] == messages;
      for i := 0 to |items|
        invariant messages == old(messages)
        invariant Merge(byKey, clientMsgKey) == AbsorbAll(Load(messages), items[..i])
      {
        assert items[..i + 1][..i] == items[..i];
        byKey, clientMsgKey := MergeOne(byKey, clientMsgKey, items[i]);
      }
      assert items[..|items|] == items;
      messages := SortList(byKey);
    }

    /** Array.prototype.sort is stable; the result is the specification's sorted list. */
    static method SortList(list: seq<Entry>) returns (sorted: seq<Entry>)
      ensures sorted == Sort(list)
    {
      sorted := [];
      for i := 0 to |list|
        invariant sorted == Sort(list[..i])
      {
        assert list[..i + 1][..i] == list[..i];
        sorted := Insert(sorted, list[i]);
      }
      assert list[..|list|] == list;
    }

    static method MergeOne(byKey: seq<Entry>, clientMsgKey: map<string, Key>, incoming: Entry)
      returns (byKey': seq<Entry>, clientMsgKey': map<string, Key>)
      ensures Merge(byKey', clientMsgKey') == Absorb(Merge(byKey, clientMsgKey), incoming)
    {
      byKey', clientMsgKey' := byKey, clientMsgKey;
      if !IsNormalized(incoming) {
        return;
      }
      var hit: Option<Key> := None;
      if incoming.clientId != "" && incoming.clientId in clientMsgKey {
        hit := Some(clientMsgKey[incoming.clientId]);
      } else if IndexOf(byKey, KeyOf(incoming)).Some? {
        hit := Some(KeyOf(incoming));
      }
      var merged := incoming;
      if hit.Some? {
        merged := MergeRecord(Get(byKey, hit.value), incoming);
        if KeyOf(merged) != hit.value {
          byKey' := Remove(byKey', hit.value);
        }
      }
      byKey' := Put(byKey', merged);
      if merged.clientId != "" {
        clientMsgKey' := clientMsgKey'[merged.clientId := KeyOf(merged)];
      }
    }

    method UpdateMessageByClientMsgId(clientId: string, patch: Patch) returns (changed: bool)
      modifies this
      ensures messages == UpdateByClientId(old(messages), clientId, patch)
      ensures changed <==> clientId != "" && Mentions(old(messages), clientId)
    {
      changed := false;
      if clientId == "" {
        return;
      }
      for i := 0 to |messages|
        modifies this
        invariant |messages| == |old(messages)|
        invariant forall k :: 0 <= k < |messages| ==>
            messages[k] == if k < i && old(messages)[k].clientId == clientId then PatchEntry(old(messages)[k], patch)
                           else old(messages)[k]
        invariant changed <==> Mentions(old(messages)[..i], clientId)
      {
        if messages[i].clientId == clientId {
          messages := messages[i := PatchEntry(messages[i], patch)];
          changed := true;
          assert old(messages)[..i + 1][i].clientId == clientId;
        } else {
          assert forall k :: 0 <= k < i ==> old(messages)[..i + 1][k] == old(messages)[..i][k];
        }
      }
      assert old(messages)[..|old(messages)|] == old(messages);
      if changed {
        assert messages == PatchAll(old(messages), clientId, patch);
        messages := SortList(messages);
      } else {
        assert messages == old(messages);
      }
    }

    method HandleMessageAck(clientId: string, messageId: nat, status: ShownStatus)
      modifies this
      ensures messages == React(old(messages), Ack(clientId, messageId, status))
    {
      if clientId == "" {
        return;
      }
      var patch := Patch(messageId, if status == ShownNone then ShownSent else status);
      var _ := UpdateMessageByClientMsgId(clientId, patch);
    }

    /** An event names one message, or a range of one sender's messages, which it can only mark as read. */
    method HandleMessageStatusEvent(status: ShownStatus, messageId: nat, sender: Option<Sender>, upTo: nat)
      modifies this
      ensures messages == if status == ShownNone then old(messages)
                          else if messageId > 0 then React(old(messages), StatusOf(messageId, status))
                          else if status == ShownRead && sender.Some?
                          then React(old(messages), ReadUpTo(sender.value, upTo))
                          else old(messages)
    {
      if status == ShownNone {
        return;
      }
      if messageId > 0 {
        UpdateMessageById(messageId, status);
        return;
      }
      if status != ShownRead || upTo == 0 || sender.None? {
        assert sender.Some? ==> messages == MarkSeen(messages, sender.value, 0);
        return;
      }
      MarkRangeRead(sender.value, upTo);
    }

    method UpdateMessageById(messageId: nat, status: ShownStatus)
      modifies this
      ensures messages == SetStatus(old(messages), messageId, status)
    {
      for i := 0 to |messages|
        modifies this
        invariant |messages| == |old(messages)|
        invariant forall k :: 0 <= k < |messages| ==>
            messages[k] == if k < i && messageId > 0 && old(messages)[k].id == messageId && status != ShownNone
                           then old(messages)[k].(status := status) else old(messages)[k]
      {
        if messageId > 0 && messages[i].id == messageId && status != ShownNone {
          messages := messages[i := messages[i].(status := status)];
        }
      }
    }

    method MarkRangeRead(sender: Sender, upTo: nat)
      modifies this
      ensures messages == MarkSeen(old(messages), sender, upTo)
    {
      for i := 0 to |messages|
        modifies this
        invariant |messages| == |old(messages)|
        invariant forall k :: 0 <= k < |messages| ==>
            messages[k] == if k < i && old(messages)[k].sender == sender && 0 < old(messages)[k].id <= upTo
                           then old(messages)[k].(status := ShownRead) else old(messages)[k]
      {
        if messages[i].sender == sender && 0 < messages[i].id <= upTo && messages[i].status != ShownRead {
          messages := messages[i := messages[i].(status := ShownRead)];
        }
      }
    }
  }

  // ----- The retry budget of one dispatch

  datatype Pending = Pending(attempt: nat, fallbackUsed: bool)

  /** One dispatched message: what still waits for an answer, and what has been put on the wire. */
  datatype Dispatch = Dispatch(pending: Option<Pending>, frames: nat, requests: nat)

  /** `socketOpen` is the socket's state, `sent` whether writing to it works. */
  datatype Happening =
    | Timeout(socketOpen: bool, sent: bool)
    | HttpAnswered
    | Acknowledged

  function Begin(socketOpen: bool, sent: bool): Dispatch {
    if socketOpen && sent then Dispatch(Some(Pending(0, false)), 1, 0) else Dispatch(None, 0, 1)
  }

  function AfterTimeout(d: Dispatch, socketOpen: bool, sent: bool): Dispatch
    requires d.pending.Some?
  {
    var p := d.pending.value;
    var retries := socketOpen && p.attempt < WS_AUTO_RETRY_MAX;
    var p' := if retries then p.(attempt := p.attempt + 1) else p;
    if retries && sent then d.(pending := Some(p'), frames := d.frames + 1)
    else if !p'.fallbackUsed then d.(pending := Some(p'.(fallbackUsed := true)), requests := d.requests + 1)
    else d.(pending := None)
  }

  function React1(d: Dispatch, h: Happening): Dispatch {
    if d.pending.None? then d
    else match h
      case Timeout(socketOpen, sent) => AfterTimeout(d, socketOpen, sent)
      case _ => d.(pending := None)
  }

  function Unfold(socketOpen: bool, sent: bool, happenings: seq<Happening>): Dispatch {
    if happenings == [] then Begin(socketOpen, sent)
    else React1(Unfold(socketOpen, sent, happenings[..|happenings| - 1]), happenings[|happenings| - 1])
  }

  /** The pending record of one message as it runs, with a count of what was put on the wire. */
  class Outgoing {
    var pending: Option<Pending>
    var frames: nat
    var requests: nat

    function State(): Dispatch
      reads this
    {
      Dispatch(pending, frames, requests)
    }

    /** Sends on the socket if it is open, and falls back to a request if that fails. */
    constructor (socketOpen: bool, sent: bool)
      ensures State() == Begin(socketOpen, sent)
    {
      pending, frames, requests := None, 0, 0;
      new;
      if socketOpen {
        pending := Some(Pending(0, false));
        if sent {
          frames := 1;
          return;
        }
        pending := None;
      }
      requests := 1;
    }

    method HandlePendingTimeout(socketOpen: bool, sent: bool)
      modifies this
      ensures State() == React1(old(State()), Timeout(socketOpen, sent))
    {
      if pending.None? {
        return;
      }
      if socketOpen && pending.value.attempt < WS_AUTO_RETRY_MAX {
        pending := Some(pending.value.(attempt := pending.value.attempt + 1));
        if sent {
          frames := frames + 1;
          return;
        }
      }
      if !pending.value.fallbackUsed {
        pending := Some(pending.value.(fallbackUsed := true));
        requests := requests + 1;
        return;
      }
      pending := None;
    }

    method ClearPending()
      modifies this
      ensures State() == React1(old(State()), Acknowledged)
    {
      pending := None;
    }
  }

  /** What a message may still cost: it shrinks with every timeout, so the timeouts end. */
  function Budget(d: Dispatch): nat
    requires d.pending.Some? ==> d.pending.value.attempt <= WS_AUTO_RETRY_MAX
  {
    if d.pending.None? then 0
    else 1 + (WS_AUTO_RETRY_MAX - d.pending.value.attempt) + if d.pending.value.fallbackUsed then 0 else 1
  }

  ghost predicate Affordable(d: Dispatch) {
    match d.pending
    case Some(p) =>
      && p.attempt <= WS_AUTO_RETRY_MAX && d.frames <= 1 + p.attempt
      && d.requests == if p.fallbackUsed then 1 else 0
    case None => d.frames <= 1 + WS_AUTO_RETRY_MAX && d.requests <= 1
  }

  /** A dispatch puts at most three frames on the socket and makes at most one request, whatever happens. */
  lemma {:induction false} DispatchIsBounded(socketOpen: bool, sent: bool, happenings: seq<Happening>)
    ensures Affordable(Unfold(socketOpen, sent, happenings))
    ensures Unfold(socketOpen, sent, happenings).frames <= 3 && Unfold(socketOpen, sent, happenings).requests <= 1
  {
    if happenings != [] {
      DispatchIsBounded(socketOpen, sent, happenings[..|happenings| - 1]);
    }
  }

  /** Each timeout of a waiting message spends some of its budget. */
  lemma {:induction false} TimeoutsEnd(socketOpen: bool, sent: bool, happenings: seq<Happening>, open': bool,
                                       sent': bool)
    requires Unfold(socketOpen, sent, happenings).pending.Some?
    ensures Affordable(Unfold(socketOpen, sent, happenings))
    ensures var d := Unfold(socketOpen, sent, happenings);
            Affordable(AfterTimeout(d, open', sent')) && Budget(AfterTimeout(d, open', sent')) < Budget(d) <= 4
  {
    DispatchIsBounded(socketOpen, sent, happenings);
  }

  ghost predicate IsAnswered(happenings: seq<Happening>) {
    exists i :: 0 <= i < |happenings| && !happenings[i].Timeout?
  }

  /** No message is given up before the request has been tried, unless an answer ended the wait. */
  lemma {:induction false} RequestBeforeGivingUp(socketOpen: bool, sent: bool, happenings: seq<Happening>)
    requires !IsAnswered(happenings)
    ensures var d := Unfold(socketOpen, sent, happenings);
            d.requests == if d.pending.None? || d.pending.value.fallbackUsed then 1 else 0
  {
    if happenings != [] {
      var front := happenings[..|happenings| - 1];
      assert forall i :: 0 <= i < |front| ==> front[i] == happenings[i];
      assert happenings[|happenings| - 1].Timeout?;
      RequestBeforeGivingUp(socketOpen, sent, front);
    }
  }

  /** On a socket that stays open: two retries, then the request, then the message is given up. */
  lemma {:induction false} OpenSocketRetries(happenings: seq<Happening>)
    requires forall i :: 0 <= i < |happenings| ==> happenings[i] == Timeout(true, true)
    ensures var d, n := Unfold(true, true, happenings), |happenings|;
            && d.frames == 1 + Min(n, WS_AUTO_RETRY_MAX) && d.requests == (if n > WS_AUTO_RETRY_MAX then 1 else 0)
            && (d.pending.None? <==> n > WS_AUTO_RETRY_MAX + 1)
            && (n <= WS_AUTO_RETRY_MAX + 1 ==>
                  d.pending == Some(Pending(Min(n, WS_AUTO_RETRY_MAX), n > WS_AUTO_RETRY_MAX)))
  {
    if happenings != [] {
      OpenSocketRetries(happenings[..|happenings| - 1]);
    }
  }

  /** On a socket that has closed since the first frame: the request at once, then the message is given up. */
  lemma {:induction false} ClosedSocketFallsBack(happenings: seq<Happening>)
    requires forall i :: 0 <= i < |happenings| ==> happenings[i].Timeout? && !happenings[i].socketOpen
    ensures var d, n := Unfold(true, true, happenings), |happenings|;
            && d.frames == 1 && d.requests == (if n > 0 then 1 else 0) && (d.pending.None? <==> n > 1)
            && (n <= 1 ==> d.pending == Some(Pending(0, n == 1)))
  {
    if happenings != [] {
      ClosedSocketFallsBack(happenings[..|happenings| - 1]);
    }
  }
}
