/** What a batch that closes idle conversations one by one has done so far, and what it leaves. */
module IdleBatch {
  import opened Prelude
  import opened ChatModel
  import opened OpenConversations

  /** The newest message that is no system notice is an agent's from no later than the cutoff. */
  predicate IsIdle(messages: seq<Message>, id: nat, cutoff: int) {
    var latest := LatestNonSystem(messages, id);
    latest.Some? && latest.value.sender == Agent && latest.value.createdAt <= cutoff
  }

  function IdleIds(messages: seq<Message>, ids: seq<nat>, cutoff: int): seq<nat> {
    if ids == [] then []
    else
      var last := ids[|ids| - 1];
      IdleIds(messages, ids[..|ids| - 1], cutoff) + if IsIdle(messages, last, cutoff) then [last] else []
  }

  lemma IdleIdsSnoc(messages: seq<Message>, ids: seq<nat>, i: nat, cutoff: int)
    requires i < |ids|
    ensures IdleIds(messages, ids[..i + 1], cutoff)
            == IdleIds(messages, ids[..i], cutoff) + if IsIdle(messages, ids[i], cutoff) then [ids[i]] else []
  {
    assert ids[..i + 1][..i] == ids[..i];
  }

  lemma {:induction false} IdleIdsPrefix(messages: seq<Message>, ids: seq<nat>, i: nat, cutoff: int)
    requires i <= |ids|
    ensures IdleIds(messages, ids[..i], cutoff) <= IdleIds(messages, ids, cutoff)
  {
    if i == |ids| {
      assert ids[..i] == ids;
    } else {
      var front := ids[..|ids| - 1];
      assert front[..i] == ids[..i];
      IdleIdsPrefix(messages, front, i, cutoff);
    }
  }

  ghost predicate IsOpenIn(db: Db, id: nat) {
    id != 0 && id in db.conversations && db.conversations[id].open
  }

  /** The listed conversations were open and are listed once. */
  ghost predicate AreOpen(db: Db, ids: seq<nat>) {
    && (forall k {:trigger IsOpenIn(db, ids[k])} :: 0 <= k < |ids| ==> IsOpenIn(db, ids[k]))
    && (forall k {:trigger ids[..k]} :: 0 <= k < |ids| ==> ids[k] !in ids[..k])
  }

  /** What a scan that has done some conversations leaves of one row. */
  ghost predicate IsLeft(before: Db, db: Db, done: seq<nat>, id: nat, cutoff: int) {
    id in before.conversations ==>
      && id in db.conversations
      && if id in done && IsIdle(before.messages, id, cutoff) then !db.conversations[id].open
         else db.conversations[id] == before.conversations[id]
  }

  /** The scan so far: of the conversations done exactly the idle ones are closed; nothing else changed. */
  ghost predicate Scanned(before: Db, db: Db, done: seq<nat>, cutoff: int) {
    && db.messages == before.messages && db.conversations.Keys == before.conversations.Keys
    && db.nextConversation == before.nextConversation
    && forall id {:trigger IsLeft(before, db, done, id, cutoff)} :: IsLeft(before, db, done, id, cutoff)
  }

  /** All that a closing transaction can change besides the log: the one row, if it closes it. */
  ghost predicate ClosesAtMost(db: Db, db': Db, id: nat, closed: bool) {
    && db'.messages == db.messages && db'.conversations.Keys == db.conversations.Keys
    && db'.nextConversation == db.nextConversation
    && (closed ==> id in db.conversations && !db'.conversations[id].open)
    && (forall other :: other in db.conversations && (other != id || !closed) ==>
          db'.conversations[other] == db.conversations[other])
  }

  lemma ScanOne(before: Db, db: Db, db': Db, done: seq<nat>, id: nat, cutoff: int, closed: bool)
    requires Scanned(before, db, done, cutoff) && ClosesAtMost(db, db', id, closed) && id !in done
    requires closed <==> IsIdle(before.messages, id, cutoff)
    ensures Scanned(before, db', done + [id], cutoff)
  {
    forall other ensures IsLeft(before, db', done + [id], other, cutoff) {
      assert IsLeft(before, db, done, other, cutoff);
    }
  }

  /** One closing transaction per conversation, in order. */
  ghost predicate AreFor(ops: seq<Op>, ids: seq<nat>, cutoff: int, clock: nat -> nat, faults: set<nat>) {
    |ops| == |ids| && forall k :: 0 <= k < |ops| ==> ops[k] == CloseIdle(ids[k], cutoff, clock(k), k in faults)
  }

  // ----- A batch

  /** What a batch works on, and the transactions it has run. */
  datatype Batch = Batch(before: Db, ids: seq<nat>, cutoff: int, clock: nat -> nat, faults: set<nat>, ops: seq<Op>)

  function BatchOf(before: Db, cutoff: int, clock: nat -> nat, faults: set<nat>, ops: seq<Op>): Batch {
    Batch(before, OpenIds(before.conversations, before.nextConversation), cutoff, clock, faults, ops)
  }

  /** The transactions are for the first idle conversations, in order. */
  ghost predicate IsStopped(b: Batch) {
    && |b.ops| <= |IdleIds(b.before.messages, b.ids, b.cutoff)|
    && AreFor(b.ops, IdleIds(b.before.messages, b.ids, b.cutoff)[..|b.ops|], b.cutoff, b.clock, b.faults)
  }

  /** The first i conversations are done: the idle ones among them, and no others, were closed, each with its event. */
  ghost predicate IsBatchAt(b: Batch, db: Db, i: nat) {
    && i <= |b.ids| && AreOpen(b.before, b.ids) && Scanned(b.before, db, b.ids[..i], b.cutoff)
    && |db.outbox| == |b.before.outbox| + |b.ops|
    && AreFor(b.ops, IdleIds(b.before.messages, b.ids[..i], b.cutoff), b.cutoff, b.clock, b.faults)
  }

  /** The tables after each transaction of the batch. */
  ghost predicate IsPast(b: Batch, past: seq<Db>, db: Db) {
    && |past| == |b.ops| + 1 && past[0] == b.before && past[|b.ops|] == db
    && forall k {:trigger StepsOn(past, b.ops, k)} :: 0 <= k < |b.ops| ==> StepsOn(past, b.ops, k)
  }

  ghost predicate StepsOn(past: seq<Db>, ops: seq<Op>, k: nat)
    requires k < |ops| && k + 1 < |past|
  {
    past[k + 1] == Step(past[k], ops[k]).db
  }

  lemma PastGrows(b: Batch, past: seq<Db>, db: Db, op: Op, db': Db)
    requires IsPast(b, past, db) && db' == Step(db, op).db
    ensures IsPast(b.(ops := b.ops + [op]), past + [db'], db')
  {
    var ops', past' := b.ops + [op], past + [db'];
    forall k | 0 <= k < |ops'| ensures StepsOn(past', ops', k) {
      assert k < |b.ops| ==> StepsOn(past, b.ops, k);
    }
  }

  lemma {:induction false} PastIsRun(b: Batch, past: seq<Db>, db: Db)
    requires IsPast(b, past, db)
    ensures db == Run(b.before, b.ops)
    decreases |b.ops|
  {
    var n := |b.ops|;
    if n > 0 {
      var front := b.(ops := b.ops[..n - 1]);
      forall k | 0 <= k < n - 1 ensures StepsOn(past[..n], front.ops, k) {
        assert StepsOn(past, b.ops, k);
      }
      PastIsRun(front, past[..n], past[n - 1]);
      assert StepsOn(past, b.ops, n - 1);
    }
  }

  /** The whole batch went through, or it stopped at a failing transaction or a failing check. */
  ghost predicate IsDone(b: Batch, db: Db, closedCount: nat, error: Option<Error>, readFaults: set<nat>) {
    if error.None? then IsBatchAt(b, db, |b.ids|) && closedCount == |b.ops|
    else
      && error == Some(Storage) && IsStopped(b)
      && if b.ops != [] && |b.ops| - 1 in b.faults then closedCount == |b.ops| - 1
         else readFaults != {} && closedCount == |b.ops|
  }

  lemma BatchStarts(b: Batch)
    requires b.ops == [] && b.ids == OpenIds(b.before.conversations, b.before.nextConversation)
             && 0 !in b.before.conversations
    ensures IsBatchAt(b, b.before, 0)
  {
    OpenIdsAreOpen(b.before, b.ids);
    assert b.ids[..0] == [];
    forall id ensures IsLeft(b.before, b.before, [], id, b.cutoff) {
    }
  }

  lemma OpenIdsAreOpen(db: Db, ids: seq<nat>)
    requires ids == OpenIds(db.conversations, db.nextConversation) && 0 !in db.conversations
    ensures AreOpen(db, ids)
  {
    forall k | 0 <= k < |ids| ensures IsOpenIn(db, ids[k]) && ids[k] !in ids[..k] {
      assert ids[k] in ids;
    }
  }

  lemma BatchStops(b: Batch, db: Db, i: nat)
    requires IsBatchAt(b, db, i)
    ensures IsStopped(b)
  {
    IdleIdsPrefix(b.before.messages, b.ids, i, b.cutoff);
  }

  lemma BatchNext(b: Batch, db: Db, i: nat)
    requires IsBatchAt(b, db, i) && i < |b.ids|
    ensures IsOpenIn(db, b.ids[i]) && b.ids[i] !in b.ids[..i] && db.messages == b.before.messages
    ensures b.ids[..i + 1] == b.ids[..i] + [b.ids[i]]
  {
    assert IsOpenIn(b.before, b.ids[i]);
    assert IsLeft(b.before, db, b.ids[..i], b.ids[i], b.cutoff);
  }

  lemma BatchSkips(b: Batch, db: Db, i: nat)
    requires IsBatchAt(b, db, i) && i < |b.ids| && !IsIdle(b.before.messages, b.ids[i], b.cutoff)
    ensures IsBatchAt(b, db, i + 1)
  {
    BatchNext(b, db, i);
    ScanOne(b.before, db, db, b.ids[..i], b.ids[i], b.cutoff, false);
    IdleIdsSnoc(b.before.messages, b.ids, i, b.cutoff);
  }

  lemma BatchClosed(b: Batch, db: Db, db': Db, i: nat, op: Op, closed: bool)
    requires IsBatchAt(b, db, i) && i < |b.ids| && IsIdle(b.before.messages, b.ids[i], b.cutoff)
    requires op == CloseIdle(b.ids[i], b.cutoff, b.clock(|b.ops|), |b.ops| in b.faults)
    requires |db'.outbox| == |db.outbox| + (if closed then 1 else 0) && ClosesAtMost(db, db', b.ids[i], closed)
    ensures closed ==> IsBatchAt(b.(ops := b.ops + [op]), db', i + 1)
    ensures IsStopped(b.(ops := b.ops + [op]))
  {
    BatchNext(b, db, i);
    IdleIdsSnoc(b.before.messages, b.ids, i, b.cutoff);
    IdleIdsPrefix(b.before.messages, b.ids, i + 1, b.cutoff);
    OneMoreFor(b.ops, IdleIds(b.before.messages, b.ids[..i], b.cutoff), b.ids[i], b.cutoff, b.clock, b.faults);
    if closed {
      ScanOne(b.before, db, db', b.ids[..i], b.ids[i], b.cutoff, true);
    }
  }

  lemma OneMoreFor(ops: seq<Op>, ids: seq<nat>, id: nat, cutoff: int, clock: nat -> nat, faults: set<nat>)
    requires AreFor(ops, ids, cutoff, clock, faults)
    ensures AreFor(ops + [CloseIdle(id, cutoff, clock(|ops|), |ops| in faults)], ids + [id], cutoff, clock, faults)
  {
  }

  /** A batch that went through leaves no open conversation idle, and has closed exactly the ones that were. */
  lemma BatchLeavesNoneIdle(b: Batch, db: Db, id: nat)
    requires b.ids == OpenIds(b.before.conversations, b.before.nextConversation) && IsBatchAt(b, db, |b.ids|)
    requires id in b.before.conversations && id < b.before.nextConversation && b.before.conversations[id].open
    ensures id in db.conversations && (db.conversations[id].open <==> !IsIdle(db.messages, id, b.cutoff))
    ensures |b.ops| == |IdleIds(b.before.messages, b.ids, b.cutoff)|
  {
    assert b.ids[..|b.ids|] == b.ids;
    assert IsLeft(b.before, db, b.ids, id, b.cutoff);
  }
}
