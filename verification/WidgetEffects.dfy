/** What each input does to the entries of the visitor's list: exactly which entry changes, and to what. */
module WidgetEffects {
  import opened Prelude
  import opened ChatModel
  import opened Widget
  import opened WidgetList

  /** The new list is the old one with one entry in place of another. */
  ghost predicate Replaces(list: seq<Entry>, list': seq<Entry>, o: Entry, e: Entry) {
    |list'| == |list| && forall x :: x in list' <==> x == e || (x in list && x != o)
  }

  lemma {:induction false} SortKeepsLength(list: seq<Entry>)
    ensures |Sort(list)| == |list|
  {
    if list != [] {
      SortKeepsLength(list[..|list| - 1]);
      var k := InsertSplits(Sort(list[..|list| - 1]), list[|list| - 1]);
    }
  }

  // ----- Acknowledgements and failures

  lemma PatchReplaces(list: seq<Entry>, k: nat, clientId: string, p: Patch)
    requires Distinct(list) && clientId != "" && k < |list| && list[k].clientId == clientId
    ensures Replaces(list, PatchAll(list, clientId, p), list[k], PatchEntry(list[k], p))
  {
    var patched := PatchAll(list, clientId, p);
    forall i | 0 <= i < |list| && i != k ensures patched[i] == list[i] && list[i] != list[k] {
      assert !Clash(list[if i < k then i else k], list[if i < k then k else i]);
    }
    forall x | x in list && x != list[k] ensures x in patched {
      var i :| 0 <= i < |list| && list[i] == x;
      assert patched[i] == x;
    }
    assert patched[k] == PatchEntry(list[k], p);
  }

  lemma PatchedListReplaces(server: map<nat, string>, list: seq<Entry>, k: nat, clientId: string, p: Patch)
    requires OneToOne(server) && IsGood(server, list) && clientId != "" && k < |list| && list[k].clientId == clientId
    requires p.id > 0 ==> p.id in server && server[p.id] == clientId
    ensures Replaces(list, UpdateByClientId(list, clientId, p), list[k], PatchEntry(list[k], p))
    ensures IsGood(server, UpdateByClientId(list, clientId, p))
  {
    PatchReplaces(list, k, clientId, p);
    PatchKeepsOk(server, list, clientId, p);
    PatchKeepsGood(server, list, clientId, p);
    SortKeepsDistinct(PatchAll(list, clientId, p));
    SortKeepsLength(PatchAll(list, clientId, p));
  }

  /** In a good list an entry is the only one with its client id. */
  lemma OnlyOne(server: map<nat, string>, list: seq<Entry>, e: Entry)
    requires IsGood(server, list) && e in list && e.clientId != ""
    ensures forall x :: x in list && x.clientId == e.clientId ==> x == e
  {
    var i :| 0 <= i < |list| && list[i] == e;
    forall x | x in list && x.clientId == e.clientId ensures x == e {
      var j :| 0 <= j < |list| && list[j] == x;
      assert i < j ==> !Clash(list[i], list[j]);
      assert j < i ==> !Clash(list[j], list[i]);
    }
  }

  /**
    An honest acknowledgement confirms the one shown entry with its client id: the entry gets the message id, if there
    is one, and the given status, sent by default; everything else about it and every other entry stay.
   */
  lemma AckConfirms(server: map<nat, string>, list: seq<Entry>, clientId: string, messageId: nat, status: ShownStatus,
                    o: Entry)
    requires OneToOne(server) && IsGood(server, list) && IsHonest(server, list, Ack(clientId, messageId, status))
    requires clientId != "" && o in list && o.clientId == clientId
    ensures var list' := React(list, Ack(clientId, messageId, status));
            var e := Entry(if messageId > 0 then messageId else o.id, clientId, o.sender, o.content,
                           if status == ShownNone then ShownSent else status, o.createdAt);
            && Replaces(list, list', o, e)
            && forall x :: x in list' && x.clientId == clientId ==> x == e
  {
    var k :| 0 <= k < |list| && list[k] == o;
    var p := Patch(messageId, if status == ShownNone then ShownSent else status);
    PatchedListReplaces(server, list, k, clientId, p);
    OnlyOne(server, UpdateByClientId(list, clientId, p), PatchEntry(o, p));
  }

  /** A failure marks the one shown entry with its client id as failed and changes nothing else. */
  lemma FailMarksFailed(server: map<nat, string>, list: seq<Entry>, clientId: string, o: Entry)
    requires OneToOne(server) && IsGood(server, list) && clientId != "" && o in list && o.clientId == clientId
    ensures var e := Entry(o.id, clientId, o.sender, o.content, ShownFailed, o.createdAt);
            && Replaces(list, React(list, Fail(clientId)), o, e)
            && forall x :: x in React(list, Fail(clientId)) && x.clientId == clientId ==> x == e
  {
    var k :| 0 <= k < |list| && list[k] == o;
    PatchedListReplaces(server, list, k, clientId, Patch(0, ShownFailed));
    OnlyOne(server, UpdateByClientId(list, clientId, Patch(0, ShownFailed)), PatchEntry(o, Patch(0, ShownFailed)));
  }

  /** Acknowledgements and failures of messages that are not shown change nothing. */
  lemma UnknownChangesNothing(list: seq<Entry>, clientId: string, messageId: nat, status: ShownStatus)
    requires clientId == "" || forall x :: x in list ==> x.clientId != clientId
    ensures React(list, Ack(clientId, messageId, status)) == list && React(list, Fail(clientId)) == list
  {
    if Mentions(list, clientId) {
      var i :| 0 <= i < |list| && list[i].clientId == clientId;
      assert list[i] in list;
    }
  }

  // ----- Read events and status events

  /** Position by position, exactly the chosen entries get the status, and nothing else about any entry changes. */
  ghost predicate SetsStatus(list: seq<Entry>, list': seq<Entry>, chosen: set<nat>, status: ShownStatus) {
    && |list'| == |list|
    && forall i :: 0 <= i < |list| ==>
         && list'[i].id == list[i].id && list'[i].clientId == list[i].clientId && list'[i].sender == list[i].sender
         && list'[i].content == list[i].content && list'[i].createdAt == list[i].createdAt
         && list'[i].status == if i in chosen then status else list[i].status
  }

  /** A read event marks the sender's confirmed entries up to its bound. */
  lemma ReadMarksSender(list: seq<Entry>, sender: Sender, upTo: nat)
    ensures SetsStatus(list, React(list, ReadUpTo(sender, upTo)),
                       (set i: nat | i < |list| && list[i].sender == sender && 0 < list[i].id <= upTo), ShownRead)
  {
  }

  /** A status event sets the status of the entry with its id; without a status or an id it changes nothing. */
  lemma StatusMarksMessage(list: seq<Entry>, messageId: nat, status: ShownStatus)
    ensures status != ShownNone && messageId > 0 ==>
              SetsStatus(list, React(list, StatusOf(messageId, status)),
                         (set i: nat | i < |list| && list[i].id == messageId), status)
    ensures status == ShownNone || messageId == 0 ==> React(list, StatusOf(messageId, status)) == list
  {
  }

  // ----- Pages and pushes

  /** The entry says what the record says; a record without a status leaves the entry's own. */
  ghost predicate Says(x: Entry, e: Entry) {
    && x.id == e.id && x.clientId == e.clientId && x.sender == e.sender && x.content == e.content
    && x.createdAt == e.createdAt && (e.status != ShownNone ==> x.status == e.status)
  }

  /** The new list holds the merged entry and the old entries that do not clash with the record. */
  ghost predicate Files(list: seq<Entry>, list': seq<Entry>, merged: Entry, e: Entry) {
    forall x :: x in list' <==> x == merged || (x in list && !Clash(x, e))
  }

  /** A record takes the place of the entry it belongs to, if there is one, and touches no other. */
  lemma AbsorbSays(server: map<nat, string>, m: Merge, e: Entry) returns (merged: Entry)
    requires OneToOne(server) && ListOk(server, m.list) && Indexed(m) && IsAcceptable(server, m.list, e)
    ensures Says(merged, e)
    ensures Files(m.list, Absorb(m, e).list, merged, e)
    ensures e.status == ShownNone ==>
              if exists x :: x in m.list && Clash(x, e)
              then exists x :: x in m.list && Clash(x, e) && merged.status == x.status
              else merged.status == ShownNone
  {
    var p := HitIsTheClash(server, m, e);
    OkIsTidy(server, m.list);
    if p.None? {
      merged := e;
      FileAppends(m, e);
      assert Absorb(m, e).list == m.list + [e];
      AppendedTo(m.list, e);
    } else {
      var k := p.value;
      var o := m.list[k];
      merged := MergeRecord(Some(o), e);
      UniqueIndex(m.list, k);
      assert IsFaithful(server, o) && Clash(o, e);
      if o.id == e.id {
        assert Absorb(m, e).list == m.list[k := merged];
        ReplacedAt(m.list, k, merged, e);
      } else {
        TakesPlace(server, m, k, merged);
        assert Absorb(m, e) == File(m.(list := Remove(m.list, KeyOf(o))), merged);
        RemovedAt(m.list, k, merged, e);
      }
    }
  }

  /** A confirmed record is filed after the unconfirmed one it belongs to has been removed. */
  lemma TakesPlace(server: map<nat, string>, m: Merge, k: nat, e: Entry)
    requires ListOk(server, m.list) && Indexed(m) && k < |m.list| && Confirms(server, e)
    requires forall i :: 0 <= i < |m.list| && i != k ==> !Clash(m.list[i], e)
    ensures File(m.(list := Remove(m.list, KeyOf(m.list[k]))), e).list == Without(m.list, k) + [e]
  {
    OkIsTidy(server, m.list);
    UniqueIndex(m.list, k);
    OkRemove(server, m.list, k);
    var rest := Without(m.list, k);
    forall i | 0 <= i < |rest| ensures !Clash(rest[i], e) {
      assert rest[i] == m.list[if i < k then i else i + 1];
    }
    OkIsTidy(server, rest);
    FreeKey(rest, e);
  }

  lemma AppendedTo(list: seq<Entry>, e: Entry)
    requires forall i :: 0 <= i < |list| ==> !Clash(list[i], e)
    ensures Files(list, list + [e], e, e)
  {
    forall x | x in list ensures !Clash(x, e) {
      var i :| 0 <= i < |list| && list[i] == x;
      assert !Clash(list[i], e);
    }
  }

  lemma ReplacedAt(list: seq<Entry>, k: nat, merged: Entry, e: Entry)
    requires k < |list| && Clash(list[k], e) && forall i :: 0 <= i < |list| && i != k ==> !Clash(list[i], e)
    ensures Files(list, list[k := merged], merged, e)
  {
    var list' := list[k := merged];
    assert list'[k] == merged;
    forall x | x in list && !Clash(x, e) ensures x in list' {
      var i :| 0 <= i < |list| && list[i] == x;
      assert list'[i] == x;
    }
  }

  lemma RemovedAt(list: seq<Entry>, k: nat, merged: Entry, e: Entry)
    requires k < |list| && Clash(list[k], e) && forall i :: 0 <= i < |list| && i != k ==> !Clash(list[i], e)
    ensures Files(list, Without(list, k) + [merged], merged, e)
  {
    var rest := Without(list, k);
    forall x | x in list && !Clash(x, e) ensures x in rest {
      var i :| 0 <= i < |list| && list[i] == x;
      assert rest[if i < k then i else i - 1] == x;
    }
    forall x | x in rest ensures x in list && !Clash(x, e) {
      var i :| 0 <= i < |rest| && rest[i] == x;
      assert list[if i < k then i else i + 1] == x;
    }
  }

  /** No later record of the page is about the same message. */
  ghost predicate IsLast(items: seq<Entry>, i: int) {
    0 <= i < |items| && forall j :: i < j < |items| ==> items[j].id != items[i].id
  }

  ghost predicate ClashesWith(items: seq<Entry>, x: Entry) {
    exists i :: 0 <= i < |items| && Clash(x, items[i])
  }

  ghost predicate IsSaid(list: seq<Entry>, e: Entry) {
    exists x :: x in list && Says(x, e)
  }

  lemma {:induction false} AbsorbAllSays(server: map<nat, string>, m: Merge, items: seq<Entry>)
    requires OneToOne(server) && ListOk(server, m.list) && Indexed(m)
    requires forall i :: 0 <= i < |items| ==> Confirms(server, items[i])
    ensures forall i :: IsLast(items, i) ==> IsSaid(AbsorbAll(m, items).list, items[i])
    ensures forall x :: x in m.list && !ClashesWith(items, x) ==> x in AbsorbAll(m, items).list
    ensures forall x :: x in AbsorbAll(m, items).list ==>
              (x in m.list && !ClashesWith(items, x)) || exists i :: 0 <= i < |items| && Says(x, items[i])
  {
    if items != [] {
      var n := |items| - 1;
      var front, e := items[..n], items[n];
      var mid := AbsorbAll(m, front);
      AbsorbAllSays(server, m, front);
      AbsorbAllKeepsOk(server, m, front);
      var merged := AbsorbSays(server, mid, e);
      forall i | IsLast(items, i) ensures IsSaid(Absorb(mid, e).list, items[i]) {
        if i < n {
          LastOfFront(items, i);
          SaidStays(mid.list, Absorb(mid, e).list, merged, e, items[i]);
        }
      }
      forall x | x in m.list && !ClashesWith(items, x) ensures x in Absorb(mid, e).list {
        ClashesWithFront(items, x);
      }
      forall x | x in Absorb(mid, e).list
        ensures (x in m.list && !ClashesWith(items, x)) || exists i :: 0 <= i < |items| && Says(x, items[i])
      {
        ClashesWithFront(items, x);
        if x == merged {
          assert Says(x, items[n]);
        } else if !(x in m.list && !ClashesWith(front, x)) {
          var i :| 0 <= i < |front| && Says(x, front[i]);
          assert Says(x, items[i]);
        }
      }
    }
  }

  /** What the list says about a message lasts until a record about that message comes. */
  lemma SaidStays(list: seq<Entry>, list': seq<Entry>, merged: Entry, e: Entry, earlier: Entry)
    requires Files(list, list', merged, e) && IsSaid(list, earlier) && !Clash(earlier, e)
    ensures IsSaid(list', earlier)
  {
    var x :| x in list && Says(x, earlier);
    assert !Clash(x, e);
  }

  lemma LastOfFront(items: seq<Entry>, i: nat)
    requires IsLast(items, i) && i < |items| - 1
    ensures IsLast(items[..|items| - 1], i)
  {
  }

  lemma ClashesWithFront(items: seq<Entry>, x: Entry)
    requires items != []
    ensures ClashesWith(items, x) <==> ClashesWith(items[..|items| - 1], x) || Clash(x, items[|items| - 1])
  {
    var n := |items| - 1;
    if ClashesWith(items[..n], x) {
      var i :| 0 <= i < n && Clash(x, items[..n][i]);
      assert Clash(x, items[i]);
    }
    if ClashesWith(items, x) {
      var i :| 0 <= i < |items| && Clash(x, items[i]);
      assert i < n ==> Clash(x, items[..n][i]);
    }
  }

  /**
    After a page or a push of confirmed records: the last record about each message is what the list says about it, with
    the record's status where it gives one; entries no record is about are unchanged; and there is nothing else.
   */
  lemma PageIsShown(server: map<nat, string>, list: seq<Entry>, items: seq<Entry>)
    requires OneToOne(server) && IsGood(server, list) && IsHonest(server, list, Arrive(items))
    ensures var list' := React(list, Arrive(items));
            && (forall i :: IsLast(items, i) ==> IsSaid(list', items[i]))
            && (forall x :: x in list && !ClashesWith(items, x) ==> x in list')
            && (forall x :: x in list' ==>
                  (x in list && !ClashesWith(items, x)) || exists i :: 0 <= i < |items| && Says(x, items[i]))
  {
    OkIsTidy(server, list);
    LoadKeepsList(list);
    AbsorbAllSays(server, Load(list), items);
    AbsorbAllKeepsOk(server, Load(list), items);
    var merged := AbsorbAll(Load(list), items).list;
    SortKeeps(server, merged);
    forall i | IsLast(items, i) ensures IsSaid(Sort(merged), items[i]) {
      var x :| x in merged && Says(x, items[i]);
    }
  }

  /** A local echo is added as it is and changes no other entry. */
  lemma EchoIsAdded(server: map<nat, string>, list: seq<Entry>, e: Entry)
    requires OneToOne(server) && IsGood(server, list) && IsHonest(server, list, Echo(e))
    ensures forall x :: x in React(list, Echo(e)) <==> x in list || x == e
  {
    OkIsTidy(server, list);
    LoadKeepsList(list);
    var m := Load(list);
    forall i | 0 <= i < |list| ensures list[i].clientId != e.clientId && !Clash(list[i], e) {
      assert list[i] in list;
    }
    NoneToHit(server, m, e);
    assert [e][..0] == [];
    assert AbsorbAll(m, [e]) == Absorb(AbsorbAll(m, []), e);
    AbsorbKeepsOk(server, m, e);
    SortKeeps(server, Absorb(m, e).list);
  }

  lemma NoneToHit(server: map<nat, string>, m: Merge, e: Entry)
    requires OneToOne(server) && ListOk(server, m.list) && Indexed(m) && IsAcceptable(server, m.list, e) && e.id == 0
    ensures Absorb(m, e).list == m.list + [e]
  {
    var p := HitIsTheClash(server, m, e);
    OkIsTidy(server, m.list);
    FileAppends(m, e);
  }

  // ----- Order

  /**
    However the inputs come: confirmed entries first, by strictly ascending id, and then the unconfirmed ones, the
    older before the younger.
   */
  lemma ListIsOrdered(server: map<nat, string>, inputs: seq<Input>, i: nat, j: nat)
    requires OneToOne(server) && IsHonestRun(server, inputs) && i < j < |Shown(inputs)|
    ensures var a, b := Shown(inputs)[i], Shown(inputs)[j];
            if b.id > 0 then 0 < a.id < b.id else a.id > 0 || a.createdAt <= b.createdAt
  {
    ListStaysGood(server, inputs);
    assert !Clash(Shown(inputs)[i], Shown(inputs)[j]);
    assert !Precedes(Shown(inputs)[j], Shown(inputs)[i]);
  }
}
