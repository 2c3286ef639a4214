/**
  From the server's tables to the visitor's screen: feeding a conversation's log, in order, to the widget's
  handlers shows exactly the stored messages with their stored statuses, in id order.
 */
module WidgetLog {
  import opened ChatModel
  import opened EventLog
  import opened ChatHistory
  import opened Widget
  import opened WidgetList
  import JsText

  function ToEntry(m: Message): Entry {
    var status := if m.status == Read then ShownRead else ShownSent;
    Entry(m.id, JsText.Trim(m.clientMsgId), m.sender, m.content, status, m.createdAt)
  }

  function Entries(messages: seq<Message>): (r: seq<Entry>)
    ensures |r| == |messages|
  {
    seq(|messages|, i requires 0 <= i < |messages| => ToEntry(messages[i]))
  }

  /** The handler a pushed event goes to; closing does not touch the list. */
  function Handle(list: seq<Entry>, e: Event): seq<Entry> {
    match e
    case MessageNew(_, m) => React(list, Arrive([ToEntry(m)]))
    case StatusRange(_, sender, upTo) => React(list, ReadUpTo(sender, upTo))
    case ConversationClosed(_) => list
  }

  function ShowEvents(events: seq<Event>): seq<Entry> {
    if events == [] then [] else Handle(ShowEvents(events[..|events| - 1]), events[|events| - 1])
  }

  /** Confirmed entries in id order, no two of them clashing. */
  ghost predicate IsPlain(list: seq<Entry>) {
    && Distinct(list)
    && (forall i :: 0 <= i < |list| ==> list[i].id > 0)
    && (forall i, j :: 0 <= i < j < |list| ==> list[i].id < list[j].id)
  }

  lemma {:induction false} SortOfSorted(list: seq<Entry>)
    requires IsSorted(list)
    ensures Sort(list) == list
  {
    if list != [] {
      var n := |list| - 1;
      SortOfSorted(list[..n]);
      if n > 0 {
        assert !Precedes(list[n], list[n - 1]);
      }
      assert list == list[..n] + [list[n]];
    }
  }

  lemma PlainIsTidy(list: seq<Entry>)
    requires IsPlain(list)
    ensures Tidy(list) && IsSorted(list)
  {
  }

  lemma PlainFront(list: seq<Entry>, e: Entry)
    requires IsPlain(list + [e])
    ensures IsPlain(list) && forall i :: 0 <= i < |list| ==> !Clash(list[i], e)
  {
    var all := list + [e];
    assert forall i :: 0 <= i < |list| ==> all[i] == list[i];
    forall i, j | 0 <= i < j < |list| ensures !Clash(list[i], list[j]) {
      assert !Clash(all[i], all[j]);
    }
    forall i | 0 <= i < |list| ensures !Clash(list[i], e) {
      assert !Clash(all[i], all[|list|]);
    }
  }

  /** A record that clashes with nothing belongs to no shown entry. */
  lemma NothingToHit(m: Merge, e: Entry)
    requires Tidy(m.list) && Indexed(m) && IsNormalized(e) && forall i :: 0 <= i < |m.list| ==> !Clash(m.list[i], e)
    ensures Hit(m, e).None?
  {
    FreeKey(m.list, e);
  }

  /** A message newer than everything shown is appended. */
  lemma NewestIsAppended(list: seq<Entry>, e: Entry)
    requires IsPlain(list + [e])
    ensures MergeMessages(list, [e]) == list + [e]
  {
    PlainFront(list, e);
    PlainIsTidy(list);
    PlainIsTidy(list + [e]);
    assert (list + [e])[|list|].id > 0;
    LoadKeepsList(list);
    NothingToHit(Load(list), e);
    FileAppends(Load(list), e);
    assert [e][..0] == [];
    assert AbsorbAll(Load(list), [e]) == Absorb(AbsorbAll(Load(list), []), e);
    SortOfSorted(list + [e]);
  }

  lemma {:induction false} SeenIsMarkSeen(messages: seq<Message>, sender: Sender, upTo: nat)
    requires forall i :: 0 <= i < |messages| ==> messages[i].id > 0
    ensures MarkSeen(Entries(messages), sender, upTo) == Entries(Seen(messages, sender, upTo))
  {
    if messages != [] {
      var n := |messages| - 1;
      SeenIsMarkSeen(messages[..n], sender, upTo);
      assert Entries(messages) == Entries(messages[..n]) + [ToEntry(messages[n])];
      var seen := Seen(messages[..n], sender, upTo);
      var last := Seen(messages, sender, upTo)[n];
      assert Entries(seen + [last]) == Entries(seen) + [ToEntry(last)];
    }
  }

  /** Marking changes statuses only, so what is plain now was plain before. */
  lemma PlainBefore(messages: seq<Message>, later: seq<Message>)
    requires SameRows(messages, later) && IsPlain(Entries(later))
    ensures IsPlain(Entries(messages))
  {
    var a, b := Entries(messages), Entries(later);
    assert forall i :: 0 <= i < |a| ==> a[i].id == b[i].id && a[i].clientId == b[i].clientId;
    forall i, j | 0 <= i < j < |a| ensures !Clash(a[i], a[j]) {
      assert !Clash(b[i], b[j]);
    }
  }

  /** On a log whose messages are plain, the handlers show the folded view. */
  lemma {:induction false} HandlersFollowFold(events: seq<Event>)
    requires IsPlain(Entries(Fold(events).messages))
    ensures ShowEvents(events) == Entries(Fold(events).messages)
  {
    if events != [] {
      var n := |events| - 1;
      var before := Fold(events[..n]).messages;
      match events[n] {
        case MessageNew(_, m) =>
          assert Entries(before + [m]) == Entries(before) + [ToEntry(m)];
          PlainFront(Entries(before), ToEntry(m));
          HandlersFollowFold(events[..n]);
          NewestIsAppended(Entries(before), ToEntry(m));
        case StatusRange(_, sender, upTo) =>
          SeenKeepsRows(before, sender, upTo);
          PlainBefore(before, Seen(before, sender, upTo));
          HandlersFollowFold(events[..n]);
          PositiveIds(before);
          SeenIsMarkSeen(before, sender, upTo);
        case ConversationClosed(_) => HandlersFollowFold(events[..n]);
      }
    }
  }

  lemma PositiveIds(messages: seq<Message>)
    requires IsPlain(Entries(messages))
    ensures forall i :: 0 <= i < |messages| ==> messages[i].id > 0
  {
    forall i | 0 <= i < |messages| ensures messages[i].id > 0 {
      assert Entries(messages)[i].id > 0;
    }
  }

  ghost predicate TrimsApart(messages: seq<Message>) {
    forall i, j :: 0 <= i < j < |messages| ==>
      JsText.Trim(messages[i].clientMsgId) != JsText.Trim(messages[j].clientMsgId)
          || JsText.Trim(messages[i].clientMsgId) == ""
  }

  lemma TrimsApartIsPlain(messages: seq<Message>)
    requires TrimsApart(messages) && (forall i :: 0 <= i < |messages| ==> messages[i].id > 0)
    requires forall i, j :: 0 <= i < j < |messages| ==> messages[i].id < messages[j].id
    ensures IsPlain(Entries(messages))
  {
    var list := Entries(messages);
    assert forall i :: 0 <= i < |list| ==> list[i] == ToEntry(messages[i]);
    forall i, j | 0 <= i < j < |list| ensures !Clash(list[i], list[j]) {
      assert messages[i].id < messages[j].id;
    }
  }

  lemma {:induction false} FilteredAscends(messages: seq<Message>, c: nat)
    requires forall i, j :: 0 <= i < j < |messages| ==> messages[i].id < messages[j].id
    ensures forall i, j :: 0 <= i < j < |MessagesOf(messages, c)| ==>
            MessagesOf(messages, c)[i].id < MessagesOf(messages, c)[j].id
    ensures forall m :: m in MessagesOf(messages, c) ==> m in messages
  {
    if messages != [] {
      var n := |messages| - 1;
      FilteredAscends(messages[..n], c);
      var kept := MessagesOf(messages[..n], c);
      forall i | 0 <= i < |kept| ensures kept[i].id < messages[n].id {
        assert kept[i] in messages[..n];
      }
    }
  }

  // ----- Trimmed client ids that collide

  /** Absorbing a record with a new id replaces the entry with its client id, if there is one, and adds no clash. */
  lemma NewIdStaysTidy(m: Merge, e: Entry)
    requires Tidy(m.list) && Indexed(m) && e.id > 0 && forall i :: 0 <= i < |m.list| ==> m.list[i].id != e.id
    ensures Tidy(Absorb(m, e).list)
    ensures forall x :: x in Absorb(m, e).list ==> x in m.list || x.id == e.id
  {
    if e.clientId != "" && e.clientId in m.index {
      assert Knows(m.list, e.clientId);
      var k :| 0 <= k < |m.list| && m.list[k].clientId == e.clientId;
      assert FiledAt(m.index, m.list[k]);
      UniqueIndex(m.list, k);
      var merged := MergeRecord(Get(m.list, KeyOf(m.list[k])), e);
      var rest := Without(m.list, k);
      assert Absorb(m, e).list == Put(rest, merged);
      forall i | 0 <= i < |m.list| && i != k ensures !Clash(m.list[i], merged) {
        assert i < k ==> !Clash(m.list[i], m.list[k]);
        assert k < i ==> !Clash(m.list[k], m.list[i]);
      }
      AppendStaysTidy(rest, merged, m.list, k);
    } else {
      forall i | 0 <= i < |m.list| ensures !Clash(m.list[i], e) {
        assert FiledAt(m.index, m.list[i]);
      }
      NothingToHit(m, e);
      FileAppends(m, e);
      TidyAppend(m.list, e);
    }
  }

  lemma TidyAppend(list: seq<Entry>, e: Entry)
    requires Tidy(list) && IsNormalized(e) && forall i :: 0 <= i < |list| ==> !Clash(list[i], e)
    ensures Tidy(list + [e])
  {
    var all := list + [e];
    forall i, j | 0 <= i < j < |all| ensures !Clash(all[i], all[j]) {
      assert j < |list| ==> !Clash(list[i], list[j]);
    }
    forall i | 0 <= i < |all| ensures IsNormalized(all[i]) {
      assert i < |list| ==> IsNormalized(list[i]);
    }
  }

  lemma AppendStaysTidy(rest: seq<Entry>, e: Entry, list: seq<Entry>, k: nat)
    requires Tidy(list) && k < |list| && rest == Without(list, k) && IsNormalized(e)
    requires forall i :: 0 <= i < |list| && i != k ==> !Clash(list[i], e)
    ensures Put(rest, e) == rest + [e] && Tidy(rest + [e])
  {
    assert forall i :: 0 <= i < |rest| ==> rest[i] == list[if i < k then i else i + 1];
    forall i, j | 0 <= i < j < |rest| ensures !Clash(rest[i], rest[j]) {
      assert !Clash(list[if i < k then i else i + 1], list[if j < k then j else j + 1]);
    }
    forall i | 0 <= i < |rest| ensures IsNormalized(rest[i]) {
      assert IsNormalized(list[if i < k then i else i + 1]);
    }
    FreeKey(rest, e);
    TidyAppend(rest, e);
  }

  lemma ArrivalStaysTidy(list: seq<Entry>, e: Entry)
    requires Tidy(list) && e.id > 0 && forall i :: 0 <= i < |list| ==> list[i].id != e.id
    ensures Tidy(MergeMessages(list, [e]))
    ensures forall x :: x in MergeMessages(list, [e]) ==> x in list || x.id == e.id
  {
    LoadKeepsList(list);
    NewIdStaysTidy(Load(list), e);
    assert [e][..0] == [];
    assert AbsorbAll(Load(list), [e]) == Absorb(AbsorbAll(Load(list), []), e);
    var merged := Absorb(Load(list), e).list;
    SortKeepsDistinct(merged);
    forall i | 0 <= i < |Sort(merged)| ensures IsNormalized(Sort(merged)[i]) {
      assert Sort(merged)[i] in merged;
      var j :| 0 <= j < |merged| && merged[j] == Sort(merged)[i];
      assert IsNormalized(merged[j]);
    }
  }

  /** A log whose ids ascend never makes two shown entries clash, collisions or not. */
  lemma {:induction false} HandlersStayTidy(events: seq<Event>)
    requires forall i, j :: 0 <= i < j < |Fold(events).messages| ==>
             Fold(events).messages[i].id < Fold(events).messages[j].id
    requires forall i :: 0 <= i < |Fold(events).messages| ==> Fold(events).messages[i].id > 0
    ensures Tidy(ShowEvents(events))
    ensures forall x :: x in ShowEvents(events) ==> ShownFrom(x, Fold(events).messages)
  {
    if events != [] {
      var n := |events| - 1;
      var before, after, list := Fold(events[..n]).messages, Fold(events).messages, ShowEvents(events[..n]);
      if events[n].StatusRange? {
        SeenKeepsRows(before, events[n].sender, events[n].upTo);
      }
      assert forall i :: 0 <= i < |before| ==> before[i].id == after[i].id;
      HandlersStayTidy(events[..n]);
      match events[n] {
        case MessageNew(_, m) =>
          assert after[|before|] == m;
          forall i | 0 <= i < |list| ensures list[i].id != m.id {
            assert list[i] in list;
            var k :| 0 <= k < |before| && before[k].id == list[i].id;
            assert after[k].id < after[|before|].id;
          }
          ArrivalStaysTidy(list, ToEntry(m));
        case StatusRange(_, sender, upTo) => MarkingStaysTidy(list, sender, upTo);
        case ConversationClosed(_) =>
      }
      forall x | x in ShowEvents(events) ensures ShownFrom(x, after) {
        if events[n].MessageNew? && x.id == events[n].message.id {
          assert after[|before|].id == x.id;
        } else {
          assert exists y :: y in list && y.id == x.id;
          StaysShown(list, before, after, x);
        }
      }
    }
  }

  lemma StaysShown(list: seq<Entry>, before: seq<Message>, after: seq<Message>, x: Entry)
    requires |before| <= |after| && forall i :: 0 <= i < |before| ==> before[i].id == after[i].id
    requires exists y :: y in list && y.id == x.id
    requires forall y :: y in list ==> ShownFrom(y, before)
    ensures ShownFrom(x, after)
  {
    var y :| y in list && y.id == x.id;
    var k :| 0 <= k < |before| && before[k].id == y.id;
    assert after[k].id == x.id;
  }

  ghost predicate ShownFrom(x: Entry, messages: seq<Message>) {
    exists k :: 0 <= k < |messages| && messages[k].id == x.id
  }

  lemma MarkingStaysTidy(list: seq<Entry>, sender: Sender, upTo: nat)
    requires Tidy(list)
    ensures Tidy(MarkSeen(list, sender, upTo))
    ensures forall x :: x in MarkSeen(list, sender, upTo) ==> exists y :: y in list && y.id == x.id
  {
    var list' := MarkSeen(list, sender, upTo);
    forall i, j | 0 <= i < j < |list| ensures !Clash(list'[i], list'[j]) {
      assert !Clash(list[i], list[j]);
      assert list'[i].id == list[i].id && list'[i].clientId == list[i].clientId;
      assert list'[j].id == list[j].id && list'[j].clientId == list[j].clientId;
    }
    forall i | 0 <= i < |list| ensures IsNormalized(list'[i]) {
      assert IsNormalized(list[i]);
    }
    forall x | x in list' ensures exists y :: y in list && y.id == x.id {
      var i :| 0 <= i < |list'| && list'[i] == x;
      assert list[i] in list && list[i].id == x.id;
    }
  }

  lemma CollidingIsNotDistinct(messages: seq<Message>)
    requires !TrimsApart(messages)
    ensures !Distinct(Entries(messages))
  {
    var i, j :| 0 <= i < j < |messages|
                && JsText.Trim(messages[i].clientMsgId) == JsText.Trim(messages[j].clientMsgId)
                && JsText.Trim(messages[i].clientMsgId) != "";
    assert Clash(Entries(messages)[i], Entries(messages)[j]);
  }

  /**
    In every reachable state: a widget that handled the conversation's whole log in order shows exactly the stored
    messages, in id order, each with its stored status, if and only if trimming keeps the stored client ids apart.
   */
  lemma WidgetShowsTheTable(ops: seq<Op>, c: nat)
    ensures ShowEvents(EventsOf(After(ops).outbox, c)) == Entries(MessagesOf(After(ops).messages, c))
            <==> TrimsApart(MessagesOf(After(ops).messages, c))
  {
    LogRebuildsTables(ops, c);
    EachMessageStoredAndAnnouncedOnce(ops);
    var messages := MessagesOf(After(ops).messages, c);
    FilteredAscends(After(ops).messages, c);
    forall i | 0 <= i < |messages| ensures messages[i].id > 0 {
      assert messages[i] in After(ops).messages;
    }
    if TrimsApart(messages) {
      TrimsApartIsPlain(messages);
      HandlersFollowFold(EventsOf(After(ops).outbox, c));
    } else {
      HandlersStayTidy(EventsOf(After(ops).outbox, c));
      CollidingIsNotDistinct(messages);
    }
  }
}
