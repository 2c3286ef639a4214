/** Listing the open conversations page by page. */
module OpenConversations {
  import opened Prelude
  import opened ChatModel

  const SCAN_BATCH: nat := 200

  /** The open conversations with ids below n, newest first. */
  function OpenIds(conversations: map<nat, Conversation>, n: nat): (ids: seq<nat>)
    ensures forall id :: id in ids <==> id in conversations && id < n && conversations[id].open
    ensures forall i, j :: 0 <= i < j < |ids| ==> ids[i] > ids[j]
  {
    if n == 0 then []
    else
      var rest := OpenIds(conversations, n - 1);
      assert forall j :: 0 <= j < |rest| ==> rest[j] in rest;
      if n - 1 in conversations && conversations[n - 1].open then [n - 1] + rest else rest
  }

  /** LIMIT limit OFFSET offset. */
  function Page(ids: seq<nat>, limit: nat, offset: nat): seq<nat> {
    ids[Min(offset, |ids|)..Min(offset + limit, |ids|)]
  }

  lemma PageExtends(ids: seq<nat>, limit: nat, offset: nat)
    requires offset <= |ids|
    ensures ids[..offset] + Page(ids, limit, offset) == ids[..Min(offset + limit, |ids|)]
  {
  }

  /** SELECT ... WHERE status = open ORDER BY id DESC LIMIT limit OFFSET offset. */
  function ListOpen(db: Db, limit: nat, offset: nat): seq<nat> {
    Page(OpenIds(db.conversations, db.nextConversation), limit, offset)
  }

  /** Pages through the open conversations; the pages together are the whole list. */
  method CollectOpen(db: Db) returns (ids: seq<nat>)
    ensures ids == OpenIds(db.conversations, db.nextConversation)
  {
    ids := [];
    var offset := 0;
    ghost var all := OpenIds(db.conversations, db.nextConversation);
    ghost var total := |all|;
    while true
      invariant offset <= total && ids == all[..offset]
      decreases total - offset
    {
      var page := ListOpen(db, SCAN_BATCH, offset);
      PageExtends(all, SCAN_BATCH, offset);
      if |page| == 0 {
        break;
      }
      ids := ids + page;
      if |page| < SCAN_BATCH {
        assert offset + |page| == total;
        break;
      }
      offset := offset + SCAN_BATCH;
    }
    assert all[..total] == all;
  }
}
