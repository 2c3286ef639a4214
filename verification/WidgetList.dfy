/** The widget's list stays duplicate-free, complete and ordered under every honest sequence of inputs. */
module WidgetList {
  import opened Prelude
  import opened Widget

  predicate Clash(a: Entry, b: Entry) {
    (a.id > 0 && a.id == b.id) || (a.clientId != "" && a.clientId == b.clientId)
  }

  ghost predicate Distinct(list: seq<Entry>) {
    forall i, j {:trigger Clash(list[i], list[j])} :: 0 <= i < j < |list| ==> !Clash(list[i], list[j])
  }

  ghost predicate IsFaithful(server: map<nat, string>, e: Entry) {
    if e.id > 0 then Confirms(server, e) else e.clientId != ""
  }

  /** No two entries clash, and every entry has an id or a client id. */
  ghost predicate Tidy(list: seq<Entry>) {
    Distinct(list) && forall i {:trigger IsNormalized(list[i])} :: 0 <= i < |list| ==> IsNormalized(list[i])
  }

  ghost predicate ListOk(server: map<nat, string>, list: seq<Entry>) {
    Distinct(list) && forall i {:trigger IsFaithful(server, list[i])} :: 0 <= i < |list| ==> IsFaithful(server, list[i])
  }

  /** The same message, now or later: a client id stays, and so does an id once the server has given it. */
  predicate IsSame(e: Entry, later: Entry) {
    (e.clientId != "" ==> later.clientId == e.clientId) && (e.id > 0 ==> later.id == e.id)
  }

  ghost predicate Has(list: seq<Entry>, e: Entry) {
    exists j :: 0 <= j < |list| && IsSame(e, list[j])
  }

  ghost predicate Keeps(older: seq<Entry>, newer: seq<Entry>) {
    forall i {:trigger Has(newer, older[i])} :: 0 <= i < |older| ==> Has(newer, older[i])
  }

  lemma HasAt(list: seq<Entry>, e: Entry, j: nat)
    requires j < |list| && IsSame(e, list[j])
    ensures Has(list, e)
  {
  }

  lemma KeepsSelf(list: seq<Entry>)
    ensures Keeps(list, list)
  {
    forall i | 0 <= i < |list| ensures Has(list, list[i]) {
      HasAt(list, list[i], i);
    }
  }

  lemma KeepsTrans(a: seq<Entry>, b: seq<Entry>, c: seq<Entry>)
    requires Keeps(a, b) && Keeps(b, c)
    ensures Keeps(a, c)
  {
    forall i | 0 <= i < |a| ensures Has(c, a[i]) {
      assert Has(b, a[i]);
      var j :| 0 <= j < |b| && IsSame(a[i], b[j]);
      assert Has(c, b[j]);
      var k :| 0 <= k < |c| && IsSame(b[j], c[k]);
      HasAt(c, a[i], k);
    }
  }

  // ----- Lists without clashes

  lemma OkAppend(server: map<nat, string>, list: seq<Entry>, e: Entry)
    requires ListOk(server, list) && IsFaithful(server, e) && forall i :: 0 <= i < |list| ==> !Clash(list[i], e)
    ensures ListOk(server, list + [e]) && Keeps(list, list + [e]) && Has(list + [e], e)
  {
    forall i | 0 <= i < |list| ensures Has(list + [e], list[i]) {
      HasAt(list + [e], list[i], i);
    }
    HasAt(list + [e], e, |list|);
  }

  lemma DistinctReplace(list: seq<Entry>, k: nat, e: Entry)
    requires Distinct(list) && k < |list| && list[k].id == e.id && list[k].clientId == e.clientId
    ensures Distinct(list[k := e])
  {
    var list' := list[k := e];
    forall i, j | 0 <= i < j < |list| ensures !Clash(list'[i], list'[j]) {
      assert !Clash(list[i], list[j]);
      assert Clash(list'[i], list'[j]) == Clash(list[i], list[j]) by {
        assert list'[i].id == list[i].id && list'[i].clientId == list[i].clientId;
        assert list'[j].id == list[j].id && list'[j].clientId == list[j].clientId;
      }
    }
  }

  lemma OkReplace(server: map<nat, string>, list: seq<Entry>, k: nat, e: Entry)
    requires ListOk(server, list) && k < |list| && IsFaithful(server, e)
    requires list[k].id == e.id && list[k].clientId == e.clientId
    ensures ListOk(server, list[k := e]) && Keeps(list, list[k := e]) && Has(list[k := e], e)
  {
    var list' := list[k := e];
    DistinctReplace(list, k, e);
    forall i | 0 <= i < |list| ensures IsFaithful(server, list'[i]) {
      assert IsFaithful(server, list[i]);
    }
    forall i | 0 <= i < |list| ensures Has(list', list[i]) {
      HasAt(list', list[i], i);
    }
    HasAt(list', e, k);
  }

  function Without(list: seq<Entry>, k: nat): seq<Entry>
    requires k < |list|
  {
    list[..k] + list[k + 1..]
  }

  lemma OkRemove(server: map<nat, string>, list: seq<Entry>, k: nat)
    requires ListOk(server, list) && k < |list|
    ensures ListOk(server, Without(list, k))
    ensures forall i :: 0 <= i < |list| - 1 ==> Without(list, k)[i] == list[if i < k then i else i + 1]
  {
    var rest := Without(list, k);
    forall i, j | 0 <= i < j < |rest| ensures !Clash(rest[i], rest[j]) {
      assert !Clash(list[if i < k then i else i + 1], list[if j < k then j else j + 1]);
    }
  }

  lemma OkIsTidy(server: map<nat, string>, list: seq<Entry>)
    requires ListOk(server, list)
    ensures Tidy(list)
  {
    forall i | 0 <= i < |list| ensures IsNormalized(list[i]) {
      assert IsFaithful(server, list[i]);
    }
  }

  /** Different entries are filed under different keys. */
  lemma KeysDiffer(list: seq<Entry>, i: nat, j: nat)
    requires Tidy(list) && i < |list| && j < |list| && KeyOf(list[i]) == KeyOf(list[j])
    ensures i == j
  {
    assert IsNormalized(list[i]) && IsNormalized(list[j]);
    assert Clash(list[i], list[j]) && Clash(list[j], list[i]);
  }

  lemma UniqueIndex(list: seq<Entry>, k: nat)
    requires Tidy(list) && k < |list|
    ensures IndexOf(list, KeyOf(list[k])) == Some(k)
  {
    KeysDiffer(list, IndexOf(list, KeyOf(list[k])).value, k);
  }

  /** An entry that clashes with nothing has a key of its own. */
  lemma FreeKey(list: seq<Entry>, e: Entry)
    requires Tidy(list) && IsNormalized(e) && forall i :: 0 <= i < |list| ==> !Clash(list[i], e)
    ensures IndexOf(list, KeyOf(e)).None?
  {
    var r := IndexOf(list, KeyOf(e));
    if r.Some? {
      assert IsNormalized(list[r.value]);
      assert Clash(list[r.value], e);
      assert false;
    }
  }

  // ----- Merging

  predicate Knows(list: seq<Entry>, clientId: string) {
    exists i :: 0 <= i < |list| && list[i].clientId == clientId
  }

  ghost predicate FiledAt(index: map<string, Key>, e: Entry) {
    e.clientId != "" ==> e.clientId in index && index[e.clientId] == KeyOf(e)
  }

  /** Exactly the client ids of the list are filed, under their entries' keys. */
  ghost predicate Indexed(m: Merge) {
    && (forall i {:trigger FiledAt(m.index, m.list[i])} :: 0 <= i < |m.list| ==> FiledAt(m.index, m.list[i]))
    && (forall c :: c in m.index ==> c != "" && Knows(m.list, c))
  }

  function Filed(index: map<string, Key>, e: Entry): map<string, Key> {
    if e.clientId != "" then index[e.clientId := KeyOf(e)] else index
  }

  /** Filing a record next to entries that do not clash with it keeps the index exact. */
  lemma IndexFollows(index: map<string, Key>, list: seq<Entry>, list': seq<Entry>, e: Entry)
    requires Indexed(Merge(list, index))
    requires e in list' && forall x :: x in list' && x != e ==> x in list && !Clash(x, e)
    requires forall x :: x in list ==> x in list' || x.clientId == e.clientId
    ensures Indexed(Merge(list', Filed(index, e)))
  {
    forall i | 0 <= i < |list'| ensures FiledAt(Filed(index, e), list'[i]) {
      if list'[i] != e {
        assert list'[i] in list';
        var j :| 0 <= j < |list| && list[j] == list'[i];
        assert FiledAt(index, list[j]);
      }
    }
    forall c | c in Filed(index, e) ensures c != "" && Knows(list', c) {
      if e.clientId == c {
        var i :| 0 <= i < |list'| && list'[i] == e;
        assert list'[i].clientId == c;
      } else {
        assert Knows(list, c);
        var i :| 0 <= i < |list| && list[i].clientId == c;
        assert list[i] in list;
        var j :| 0 <= j < |list'| && list'[j] == list[i];
        assert list'[j].clientId == c;
      }
    }
  }

  lemma FileAppends(m: Merge, e: Entry)
    requires Tidy(m.list) && Indexed(m) && IsNormalized(e)
    requires forall i :: 0 <= i < |m.list| ==> !Clash(m.list[i], e)
    ensures File(m, e) == Merge(m.list + [e], Filed(m.index, e)) && Indexed(File(m, e))
  {
    FreeKey(m.list, e);
    IndexFollows(m.index, m.list, m.list + [e], e);
  }

  lemma {:induction false} LoadKeepsList(list: seq<Entry>)
    requires Tidy(list)
    ensures Load(list).list == list && Indexed(Load(list))
  {
    if list != [] {
      var n := |list| - 1;
      DistinctFront(list);
      forall i | 0 <= i < n ensures IsNormalized(list[..n][i]) {
        assert IsNormalized(list[i]);
      }
      LoadKeepsList(list[..n]);
      assert list == list[..n] + [list[n]];
      assert IsNormalized(list[n]);
      forall i | 0 <= i < n ensures !Clash(list[..n][i], list[n]) {
        assert !Clash(list[i], list[n]);
      }
      FileAppends(Load(list[..n]), list[n]);
    }
  }

  /** An incoming record as honest inputs bring it: confirmed, or a local echo nobody has seen. */
  ghost predicate IsAcceptable(server: map<nat, string>, list: seq<Entry>, e: Entry) {
    || Confirms(server, e)
    || (e.id == 0 && e.clientId != "" && forall i :: 0 <= i < |list| ==> list[i].clientId != e.clientId)
  }

  /** Where the record an incoming one belongs to stands, if anywhere. */
  lemma HitIsTheClash(server: map<nat, string>, m: Merge, e: Entry) returns (p: Option<nat>)
    requires OneToOne(server) && ListOk(server, m.list) && Indexed(m) && IsAcceptable(server, m.list, e)
    ensures p.None? ==> Hit(m, e).None? && forall i :: 0 <= i < |m.list| ==> !Clash(m.list[i], e)
    ensures p.Some? ==>
              && p.value < |m.list| && Hit(m, e) == Some(KeyOf(m.list[p.value])) && e.id > 0
              && m.list[p.value].clientId == e.clientId && (m.list[p.value].id == 0 || m.list[p.value].id == e.id)
              && forall i :: 0 <= i < |m.list| && i != p.value ==> !Clash(m.list[i], e)
  {
    assert forall i :: 0 <= i < |m.list| ==> IsFaithful(server, m.list[i]) && FiledAt(m.index, m.list[i]);
    if e.clientId != "" && e.clientId in m.index {
      assert Knows(m.list, e.clientId);
      var i :| 0 <= i < |m.list| && m.list[i].clientId == e.clientId;
      p := Some(i);
      forall j | 0 <= j < |m.list| && j != i ensures !Clash(m.list[j], e) {
        assert !Clash(m.list[i], m.list[j]) || !Clash(m.list[j], m.list[i]);
      }
    } else {
      p := IndexOf(m.list, KeyOf(e));
      if p.Some? {
        forall j | 0 <= j < |m.list| && j != p.value ensures !Clash(m.list[j], e) {
          assert !Clash(m.list[p.value], m.list[j]) || !Clash(m.list[j], m.list[p.value]);
        }
      }
    }
  }

  lemma AbsorbKeepsOk(server: map<nat, string>, m: Merge, e: Entry)
    requires OneToOne(server) && ListOk(server, m.list) && Indexed(m) && IsAcceptable(server, m.list, e)
    ensures ListOk(server, Absorb(m, e).list) && Indexed(Absorb(m, e))
    ensures Keeps(m.list, Absorb(m, e).list) && Has(Absorb(m, e).list, e)
  {
    var p := HitIsTheClash(server, m, e);
    if p.None? {
      OkIsTidy(server, m.list);
      FileAppends(m, e);
      OkAppend(server, m.list, e);
    } else {
      var k, merged := p.value, MergeRecord(Get(m.list, KeyOf(m.list[p.value])), e);
      assert KeyOf(merged) == KeyOf(e) && Confirms(server, merged);
      if m.list[k].id == e.id {
        ReplaceInPlace(server, m, k, merged);
        assert Absorb(m, e) == File(m, merged);
      } else {
        MoveToEnd(server, m, k, merged);
        assert Absorb(m, e) == File(m.(list := Remove(m.list, KeyOf(m.list[k]))), merged);
      }
      assert forall x :: IsSame(merged, x) <==> IsSame(e, x);
    }
  }

  lemma ReplaceInPlace(server: map<nat, string>, m: Merge, k: nat, e: Entry)
    requires ListOk(server, m.list) && Indexed(m) && k < |m.list| && IsFaithful(server, e)
    requires m.list[k].id == e.id && m.list[k].clientId == e.clientId
    ensures ListOk(server, File(m, e).list) && Indexed(File(m, e))
    ensures Keeps(m.list, File(m, e).list) && Has(File(m, e).list, e)
  {
    OkIsTidy(server, m.list);
    UniqueIndex(m.list, k);
    OkReplace(server, m.list, k, e);
    var list' := m.list[k := e];
    assert File(m, e) == Merge(list', Filed(m.index, e));
    assert list'[k] == e;
    forall x | x in list' && x != e ensures x in m.list && !Clash(x, e) {
      var i :| 0 <= i < |list'| && list'[i] == x;
      assert m.list[i] == x;
      assert !Clash(list'[i], list'[k]) || !Clash(list'[k], list'[i]);
    }
    forall x | x in m.list ensures x in list' || x.clientId == e.clientId {
      var i :| 0 <= i < |m.list| && m.list[i] == x;
      assert i == k || list'[i] == x;
    }
    IndexFollows(m.index, m.list, list', e);
  }

  /** A confirmed record replaces the unconfirmed one it belongs to, under its new key. */
  lemma MoveToEnd(server: map<nat, string>, m: Merge, k: nat, e: Entry)
    requires ListOk(server, m.list) && Indexed(m) && k < |m.list| && Confirms(server, e)
    requires m.list[k].id == 0 && m.list[k].clientId == e.clientId
    requires forall i :: 0 <= i < |m.list| && i != k ==> !Clash(m.list[i], e)
    ensures var m' := File(m.(list := Remove(m.list, KeyOf(m.list[k]))), e);
            ListOk(server, m'.list) && Indexed(m') && Keeps(m.list, m'.list) && Has(m'.list, e)
  {
    OkIsTidy(server, m.list);
    UniqueIndex(m.list, k);
    OkRemove(server, m.list, k);
    var rest := Without(m.list, k);
    assert forall i :: 0 <= i < |rest| ==> !Clash(rest[i], e) && IsFaithful(server, rest[i]);
    OkIsTidy(server, rest);
    FreeKey(rest, e);
    OkAppend(server, rest, e);
    var list' := rest + [e];
    assert File(m.(list := rest), e) == Merge(list', Filed(m.index, e));
    forall i | 0 <= i < |m.list|
      ensures Has(list', m.list[i]) && (m.list[i] in list' || m.list[i].clientId == e.clientId)
    {
      var j := if i < k then i else if i == k then |rest| else i - 1;
      HasAt(list', m.list[i], j);
      assert i == k || list'[j] == m.list[i];
    }
    IndexFollows(m.index, m.list, list', e);
  }

  lemma {:induction false} AbsorbAllKeepsOk(server: map<nat, string>, m: Merge, items: seq<Entry>)
    requires OneToOne(server) && ListOk(server, m.list) && Indexed(m)
    requires forall i :: 0 <= i < |items| ==> Confirms(server, items[i])
    ensures ListOk(server, AbsorbAll(m, items).list) && Indexed(AbsorbAll(m, items))
    ensures Keeps(m.list, AbsorbAll(m, items).list) && Keeps(items, AbsorbAll(m, items).list)
  {
    if items == [] {
      KeepsSelf(m.list);
    } else {
      var n := |items| - 1;
      var mid := AbsorbAll(m, items[..n]);
      AbsorbAllKeepsOk(server, m, items[..n]);
      AbsorbKeepsOk(server, mid, items[n]);
      var last := Absorb(mid, items[n]).list;
      KeepsTrans(m.list, mid.list, last);
      KeepsTrans(items[..n], mid.list, last);
      forall i | 0 <= i < |items| ensures Has(last, items[i]) {
        if i < n {
          assert Has(last, items[..n][i]);
        }
      }
    }
  }

  // ----- Sorting

  lemma {:induction false} InsertSplits(sorted: seq<Entry>, e: Entry) returns (k: nat)
    ensures k <= |sorted| && Insert(sorted, e) == sorted[..k] + [e] + sorted[k..]
    ensures k > 0 ==> !Precedes(e, sorted[k - 1])
    ensures forall i :: k <= i < |sorted| ==> Precedes(e, sorted[i])
  {
    var n := |sorted| - 1;
    if sorted == [] || !Precedes(e, sorted[n]) {
      k := |sorted|;
      assert sorted[..k] == sorted;
    } else {
      k := InsertSplits(sorted[..n], e);
      assert sorted[..n][..k] == sorted[..k];
      assert sorted[k..] == sorted[..n][k..] + [sorted[n]];
    }
  }

  lemma InsertKeepsOrder(sorted: seq<Entry>, e: Entry)
    requires IsSorted(sorted)
    ensures IsSorted(Insert(sorted, e))
  {
    var k := InsertSplits(sorted, e);
    var r := Insert(sorted, e);
    forall i, j | 0 <= i < j < |r| ensures !Precedes(r[j], r[i]) {
      var a := if i < k then i else i - 1;
      var b := if j < k then j else j - 1;
      if i == k {
        assert r[j] == sorted[b] && Precedes(e, sorted[b]);
      } else if j == k {
        assert r[i] == sorted[a];
        assert a == k - 1 || !Precedes(sorted[k - 1], sorted[a]);
      } else {
        assert r[i] == sorted[a] && r[j] == sorted[b];
      }
    }
  }

  lemma DistinctInsert(list: seq<Entry>, k: nat, e: Entry)
    requires Distinct(list) && k <= |list| && forall i :: 0 <= i < |list| ==> !Clash(list[i], e)
    ensures Distinct(list[..k] + [e] + list[k..])
  {
    var r := list[..k] + [e] + list[k..];
    forall i, j | 0 <= i < j < |r| ensures !Clash(r[i], r[j]) {
      if i == k {
        assert !Clash(list[j - 1], e) && r[j] == list[j - 1];
      } else if j == k {
        assert !Clash(list[i], e) && r[i] == list[i];
      } else {
        var a, b := if i < k then i else i - 1, if j < k then j else j - 1;
        assert !Clash(list[a], list[b]) && r[i] == list[a] && r[j] == list[b];
      }
    }
  }

  lemma {:induction false} InsertMembers(list: seq<Entry>, e: Entry)
    ensures forall x :: x in Insert(list, e) <==> x in list || x == e
  {
    var n := |list| - 1;
    if list != [] && Precedes(e, list[n]) {
      InsertMembers(list[..n], e);
      assert list == list[..n] + [list[n]];
    }
  }

  lemma {:induction false} SortKeepsDistinct(list: seq<Entry>)
    requires Distinct(list)
    ensures Distinct(Sort(list)) && IsSorted(Sort(list))
    ensures forall e :: e in Sort(list) <==> e in list
  {
    if list != [] {
      var n := |list| - 1;
      var front := Sort(list[..n]);
      DistinctFront(list);
      SortKeepsDistinct(list[..n]);
      InsertKeepsOrder(front, list[n]);
      assert list == list[..n] + [list[n]];
      forall i | 0 <= i < |front| ensures !Clash(front[i], list[n]) {
        assert front[i] in list[..n];
        var j :| 0 <= j < n && list[..n][j] == front[i];
        assert !Clash(list[j], list[n]);
      }
      var k := InsertSplits(front, list[n]);
      DistinctInsert(front, k, list[n]);
      InsertMembers(front, list[n]);
    }
  }

  lemma DistinctFront(list: seq<Entry>)
    requires Distinct(list) && list != []
    ensures Distinct(list[..|list| - 1])
  {
    var front := list[..|list| - 1];
    forall i, j | 0 <= i < j < |front| ensures !Clash(front[i], front[j]) {
      assert !Clash(list[i], list[j]);
    }
  }

  lemma SortKeeps(server: map<nat, string>, list: seq<Entry>)
    requires ListOk(server, list)
    ensures ListOk(server, Sort(list)) && IsSorted(Sort(list))
    ensures forall e :: e in Sort(list) <==> e in list
  {
    SortKeepsDistinct(list);
    forall i | 0 <= i < |Sort(list)| ensures IsFaithful(server, Sort(list)[i]) {
      assert Sort(list)[i] in list;
      var j :| 0 <= j < |list| && list[j] == Sort(list)[i];
      assert IsFaithful(server, list[j]);
    }
  }

  lemma SortKeepsAll(server: map<nat, string>, list: seq<Entry>)
    requires ListOk(server, list)
    ensures Keeps(list, Sort(list))
  {
    SortKeeps(server, list);
    forall i | 0 <= i < |list| ensures Has(Sort(list), list[i]) {
      assert list[i] in Sort(list);
      var j :| 0 <= j < |Sort(list)| && Sort(list)[j] == list[i];
      HasAt(Sort(list), list[i], j);
    }
  }

  // ----- Every input

  ghost predicate IsGood(server: map<nat, string>, list: seq<Entry>) {
    ListOk(server, list) && IsSorted(list)
  }

  lemma MergeKeepsGood(server: map<nat, string>, list: seq<Entry>, items: seq<Entry>)
    requires OneToOne(server) && IsGood(server, list)
    requires forall i :: 0 <= i < |items| ==> Confirms(server, items[i])
    ensures IsGood(server, MergeMessages(list, items)) && Keeps(list, MergeMessages(list, items))
    ensures Keeps(items, MergeMessages(list, items))
  {
    OkIsTidy(server, list);
    LoadKeepsList(list);
    AbsorbAllKeepsOk(server, Load(list), items);
    var merged := AbsorbAll(Load(list), items).list;
    SortKeeps(server, merged);
    SortKeepsAll(server, merged);
    KeepsTrans(list, merged, Sort(merged));
    KeepsTrans(items, merged, Sort(merged));
  }

  lemma EchoKeepsGood(server: map<nat, string>, list: seq<Entry>, e: Entry)
    requires OneToOne(server) && IsGood(server, list) && IsHonest(server, list, Echo(e))
    ensures IsGood(server, MergeMessages(list, [e])) && Keeps(list, MergeMessages(list, [e]))
  {
    OkIsTidy(server, list);
    LoadKeepsList(list);
    var m := Load(list);
    forall i | 0 <= i < |list| ensures list[i].clientId != e.clientId {
      assert list[i] in list;
    }
    AbsorbKeepsOk(server, m, e);
    assert [e][..0] == [];
    assert AbsorbAll(m, [e]) == Absorb(AbsorbAll(m, []), e);
    SortKeeps(server, Absorb(m, e).list);
    SortKeepsAll(server, Absorb(m, e).list);
    KeepsTrans(list, Absorb(m, e).list, Sort(Absorb(m, e).list));
  }

  lemma PatchKeepsOk(server: map<nat, string>, list: seq<Entry>, clientId: string, p: Patch)
    requires OneToOne(server) && ListOk(server, list) && clientId != ""
    requires p.id > 0 ==> p.id in server && server[p.id] == clientId
    ensures ListOk(server, PatchAll(list, clientId, p)) && Keeps(list, PatchAll(list, clientId, p))
  {
    var patched := PatchAll(list, clientId, p);
    forall i | 0 <= i < |list|
      ensures IsFaithful(server, patched[i]) && IsSame(list[i], patched[i]) && Has(patched, list[i])
    {
      assert IsFaithful(server, list[i]);
      HasAt(patched, list[i], i);
    }
    forall i, j | 0 <= i < j < |list| ensures !Clash(patched[i], patched[j]) {
      assert !Clash(list[i], list[j]);
      assert patched[i].clientId == list[i].clientId && patched[j].clientId == list[j].clientId;
      assert IsFaithful(server, patched[i]) && IsFaithful(server, patched[j]);
      assert IsFaithful(server, list[i]) && IsFaithful(server, list[j]);
    }
  }

  lemma PatchKeepsGood(server: map<nat, string>, list: seq<Entry>, clientId: string, p: Patch)
    requires OneToOne(server) && IsGood(server, list)
    requires p.id > 0 && clientId != "" ==> p.id in server && server[p.id] == clientId
    ensures IsGood(server, UpdateByClientId(list, clientId, p)) && Keeps(list, UpdateByClientId(list, clientId, p))
  {
    if clientId == "" || !Mentions(list, clientId) {
      KeepsSelf(list);
    } else {
      var patched := PatchAll(list, clientId, p);
      PatchKeepsOk(server, list, clientId, p);
      SortKeeps(server, patched);
      SortKeepsAll(server, patched);
      KeepsTrans(list, patched, Sort(patched));
    }
  }

  /** Changing statuses only changes neither identity nor order. */
  lemma StatusesKeepGood(server: map<nat, string>, list: seq<Entry>, list': seq<Entry>)
    requires IsGood(server, list) && |list'| == |list|
    requires forall i :: 0 <= i < |list| ==> list'[i] == list[i].(status := list'[i].status)
    ensures IsGood(server, list') && Keeps(list, list')
  {
    assert forall i :: 0 <= i < |list| ==>
        && list'[i].id == list[i].id && list'[i].clientId == list[i].clientId
        && list'[i].createdAt == list[i].createdAt;
    forall i, j | 0 <= i < j < |list| ensures !Clash(list'[i], list'[j]) && !Precedes(list'[j], list'[i]) {
      assert !Clash(list[i], list[j]) && !Precedes(list[j], list[i]);
    }
    forall i | 0 <= i < |list| ensures IsFaithful(server, list'[i]) && Has(list', list[i]) {
      assert IsFaithful(server, list[i]);
      HasAt(list', list[i], i);
    }
  }

  lemma ReactKeepsGood(server: map<nat, string>, list: seq<Entry>, input: Input)
    requires OneToOne(server) && IsGood(server, list) && IsHonest(server, list, input)
    ensures IsGood(server, React(list, input)) && Keeps(list, React(list, input))
  {
    match input {
      case Arrive(items) => MergeKeepsGood(server, list, items);
      case Echo(e) => EchoKeepsGood(server, list, e);
      case Ack(clientId, id, status) =>
        PatchKeepsGood(server, list, clientId, Patch(id, if status == ShownNone then ShownSent else status));
      case Fail(clientId) => PatchKeepsGood(server, list, clientId, Patch(0, ShownFailed));
      case _ => StatusesKeepGood(server, list, React(list, input));
    }
  }

  /**
    After any honest sequence of pages, pushes, echoes, acknowledgements and read events: no two entries share an
    id or a client id, and confirmed messages stand in id order before unconfirmed ones in time order.
   */
  lemma {:induction false} ListStaysGood(server: map<nat, string>, inputs: seq<Input>)
    requires OneToOne(server) && IsHonestRun(server, inputs)
    ensures Distinct(Shown(inputs)) && IsSorted(Shown(inputs))
    ensures IsGood(server, Shown(inputs))
  {
    if inputs != [] {
      ListStaysGood(server, inputs[..|inputs| - 1]);
      ReactKeepsGood(server, Shown(inputs[..|inputs| - 1]), inputs[|inputs| - 1]);
    }
  }

  /** An entry once shown stays, under the same client id and, once confirmed, the same id. */
  lemma {:induction false} NothingDisappears(server: map<nat, string>, inputs: seq<Input>, i: nat)
    requires OneToOne(server) && IsHonestRun(server, inputs) && i <= |inputs|
    ensures Keeps(Shown(inputs[..i]), Shown(inputs))
  {
    if i == |inputs| {
      assert inputs[..i] == inputs;
      KeepsSelf(Shown(inputs));
    } else {
      var front := inputs[..|inputs| - 1];
      assert front[..i] == inputs[..i];
      NothingDisappears(server, front, i);
      ListStaysGood(server, front);
      ReactKeepsGood(server, Shown(front), inputs[|inputs| - 1]);
      KeepsTrans(Shown(inputs[..i]), Shown(front), Shown(inputs));
    }
  }
}
