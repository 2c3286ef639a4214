/** The timer map as an object, and the start-up scan that fills it. */
module AutoCloseSchedulers {
  import opened ChatModel
  import opened AutoClose
  import opened OpenConversations

  class AutoCloseScheduler {
    var timers: map<nat, nat>

    constructor ()
      ensures timers == map[]
    {
      timers := map[];
    }

    method Schedule(id: nat, due: nat)
      modifies this
      ensures timers == Scheduled(old(timers), id, due)
    {
      if id == 0 {
        return;
      }
      if id in timers {
        if timers[id] == due {
          return;
        }
        timers := timers - {id};
      }
      timers := timers[id := due];
    }

    method Cancel(id: nat)
      modifies this
      ensures timers == if id == 0 then old(timers) else Cancelled(old(timers), id)
    {
      if id == 0 {
        return;
      }
      if id in timers {
        timers := timers - {id};
      }
    }

    method Stop()
      modifies this
      ensures timers == map[]
    {
      while timers.Keys != {}
        decreases |timers.Keys|
      {
        var id :| id in timers.Keys;
        ghost var before := timers.Keys;
        timers := timers - {id};
        assert timers.Keys == before - {id};
      }
    }

    /** A firing timer removes itself and asks for the callback only if it is still on record. */
    method Fire(id: nat, due: nat) returns (call: bool)
      modifies this
      ensures call == IsOnRecord(old(timers), id, due)
      ensures timers == if call then Cancelled(old(timers), id) else old(timers)
    {
      call := id in timers && timers[id] == due;
      if call {
        timers := timers - {id};
      }
    }

    /** Restores one conversation's timer, or closes it if its time is up. */
    method Resume(db: Db, id: nat, now: nat, after: nat) returns (db': Db, ghost ops: seq<Op>)
      requires id in db.conversations && db.conversations[id].open
      modifies this
      ensures (db' == db && ops == [])
              || (ops == [CloseIdle(id, now - after, now, false)] && db' == Step(db, ops[0]).db)
      ensures var d := Deadline(db, id, after);
              if d.None? then db' == db && timers == old(timers)
              else if d.value > now then db' == db && timers == Scheduled(old(timers), id, d.value)
              else timers == old(timers) && db' == Step(db, CloseIdle(id, now - after, now, false)).db
    {
      db', ops := db, [];
      var latest := LatestNonSystem(db.messages, id);
      if latest.Some? && latest.value.sender == Agent {
        var deadline := latest.value.createdAt + after;
        if deadline > now {
          Schedule(id, deadline);
        } else {
          ops := [CloseIdle(id, now - after, now, false)];
          db' := Step(db, CloseIdle(id, now - after, now, false)).db;
        }
      }
    }

    /**
      Start-up: every open conversation whose last word is an agent's gets a timer for its deadline, or is closed
      on the spot when the deadline has passed.
     */
    method StartAutoCloseScheduler(db: Db, now: nat, after: nat) returns (db': Db, ghost ops: seq<Op>)
      requires EventLog.KeysBelowCounter(db) && Homed(db) && Stamped(db, now)
      requires timers == map[]
      modifies this
      ensures Ready(AutoClose.Sys(now, db', timers, [], multiset{}), after)
      ensures db' == Run(db, ops) && forall i :: 0 <= i < |ops| ==> ops[i].CloseIdle? && ops[i].cutoff == now - after
      ensures forall id :: Deadline(db', id, after).Some? <==>
                           Deadline(db, id, after).Some? && Deadline(db, id, after).value > now
      ensures forall id :: Deadline(db', id, after).Some? ==>
                           id in timers && timers[id] == Deadline(db, id, after).value
    {
      var ids := CollectOpen(db);
      db', ops := db, [];
      for i := 0 to |ids|
        modifies this
        invariant Scanned(db, db', timers, ids, i, now, after)
        invariant db' == Run(db, ops) && forall k :: 0 <= k < |ops| ==>
            ops[k].CloseIdle? && ops[k].cutoff == now - after
      {
        assert ids[i] in ids && ids[i] !in ids[..i] && SameRow(db, db', ids[i]);
        ghost var before, timersBefore := db', timers;
        ghost var more;
        db', more := Resume(db', ids[i], now, after);
        if more != [] {
          assert (ops + more)[..|ops|] == ops && |more| == 1;
        } else {
          assert ops + more == ops;
        }
        ops := ops + more;
        ScanStep(db, before, db', timersBefore, timers, ids, i, now, after);
      }
      ScanDone(db, db', timers, ids, now, after);
    }
  }

  /** After the first i conversations: they are settled, the rest is untouched. */
  ghost predicate Scanned(db: Db, db': Db, timers: map<nat, nat>, ids: seq<nat>, i: nat, now: nat, after: nat)
    requires i <= |ids|
  {
    && EventLog.KeysBelowCounter(db') && Homed(db') && db'.messages == db.messages
    && (forall k :: 0 <= k < i ==> Settled(db, db', timers, ids[k], now, after))
    && (forall id :: id !in ids[..i] ==> id !in timers && SameRow(db, db', id))
  }

  ghost predicate Settled(db: Db, db': Db, timers: map<nat, nat>, id: nat, now: nat, after: nat) {
    if Deadline(db, id, after).Some? && Deadline(db, id, after).value > now
    then && Deadline(db', id, after) == Deadline(db, id, after)
         && id in timers && timers[id] == Deadline(db, id, after).value
    else Deadline(db', id, after).None? && id !in timers
  }

  ghost predicate SameRow(db: Db, db': Db, id: nat) {
    (id in db.conversations <==> id in db'.conversations)
    && (id in db.conversations ==> db.conversations[id] == db'.conversations[id])
  }

  /** Closing one idle conversation touches no other row and no message. */
  lemma IdleCloseIsLocal(db: Db, op: Op)
    requires op.CloseIdle?
    ensures Step(db, op).db.messages == db.messages
    ensures forall id :: id != op.conversation ==> SameRow(db, Step(db, op).db, id)
  {
    if PlanOf(db, op).Ok? {
      var writes := PlanOf(db, op).value.writes;
      if writes != [] {
        assert writes == [writes[0]];
        EventLog.CommitOfTwo(db, writes[0], writes[0]);
      }
    }
  }

  lemma ScanStep(db: Db, mid: Db, db': Db, timers: map<nat, nat>, timers': map<nat, nat>, ids: seq<nat>, i: nat,
                 now: nat, after: nat)
    requires i < |ids| && ids[i] != 0 && ids[i] !in ids[..i]
    requires Scanned(db, mid, timers, ids, i, now, after)
    requires var d := Deadline(mid, ids[i], after);
             if d.None? then db' == mid && timers' == timers
             else if d.value > now then db' == mid && timers' == Scheduled(timers, ids[i], d.value)
             else timers' == timers && db' == Step(mid, CloseIdle(ids[i], now - after, now, false)).db
    ensures Scanned(db, db', timers', ids, i + 1, now, after)
  {
    assert ids[..i + 1] == ids[..i] + [ids[i]];
    assert SameRow(db, mid, ids[i]);
    if Deadline(mid, ids[i], after).Some? && Deadline(mid, ids[i], after).value <= now {
      var s := AutoClose.Sys(now, mid, timers, [], multiset{});
      CallMovesDeadline(mid, IdleOp(s, ids[i], after), ids[i], after);
      TransactDecides(s, ids[i], after);
      IdleCloseIsLocal(mid, IdleOp(s, ids[i], after));
    }
    forall k | 0 <= k < i + 1 ensures Settled(db, db', timers', ids[k], now, after) {
      if k < i {
        assert ids[k] in ids[..i];
        assert Settled(db, mid, timers, ids[k], now, after);
        assert SameRow(mid, db', ids[k]);
      }
    }
    forall id | id !in ids[..i + 1] ensures id !in timers' && SameRow(db, db', id) {
      assert id !in ids[..i] && id != ids[i];
      assert SameRow(db, mid, id) && SameRow(mid, db', id);
    }
  }

  lemma ScanDone(db: Db, db': Db, timers: map<nat, nat>, ids: seq<nat>, now: nat, after: nat)
    requires EventLog.KeysBelowCounter(db) && Stamped(db, now)
    requires ids == OpenIds(db.conversations, db.nextConversation) && Scanned(db, db', timers, ids, |ids|, now, after)
    ensures Ready(AutoClose.Sys(now, db', timers, [], multiset{}), after)
    ensures forall id :: Deadline(db', id, after).Some? <==>
                         Deadline(db, id, after).Some? && Deadline(db, id, after).value > now
    ensures forall id :: Deadline(db', id, after).Some? ==> id in timers && timers[id] == Deadline(db, id, after).value
  {
    assert ids[..|ids|] == ids;
    forall id
      ensures Deadline(db', id, after).Some? <==> Deadline(db, id, after).Some? && Deadline(db, id, after).value > now
      ensures id in timers <==> Deadline(db', id, after).Some?
      ensures id in timers ==> timers[id] == Deadline(db', id, after).value == Deadline(db, id, after).value
    {
      if id in ids {
        var k :| 0 <= k < |ids| && ids[k] == id;
        assert Settled(db, db', timers, ids[k], now, after);
      } else {
        assert SameRow(db, db', id);
      }
    }
    forall id ensures IsGood(AutoClose.Sys(now, db', timers, [], multiset{}), id, after) {
      if id in timers {
        assert LatestNonSystem(db.messages, id).value in db.messages;
      }
    }
  }
}
