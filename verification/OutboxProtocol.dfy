/**
  Outbox rows and the dispatchers that deliver them: any number of workers claim rows, publish and mark
  them, crash, and have stale claims taken away from them. The marking writes name a row by id only.
 */
module OutboxProtocol {
  import opened Prelude
  import opened ChatModel

  datatype RowStatus = Pending | Processing | Published | Dead

  datatype OutboxRow = OutboxRow(
    event: Event, status: RowStatus, attempts: nat, processingAt: Option<nat>, nextRetryAt: Option<int>,
    publishedAt: Option<nat>)

  /** What a worker knows of a row it claimed: the row as of the claim, and the transport's verdict once it has one. */
  datatype Item = Item(index: nat, attempts: nat, claimedAt: nat, accepted: Option<bool>)

  datatype Config = Config(maxAttempts: nat, retryBase: nat, retryMax: nat, processingTimeout: nat)

  ghost predicate ValidConfig(cfg: Config) {
    cfg.maxAttempts > 0 && cfg.retryBase > 0 && cfg.retryMax > 0 && cfg.processingTimeout > 0
  }

  /** `held[w]` are the items worker w has claimed and not finished with, in order. */
  datatype Sys = Sys(now: nat, rows: seq<OutboxRow>, held: map<nat, seq<Item>>)

  const START := Sys(0, [], map[])

  /** A worker publishes its first held item, then writes the outcome, or fails to, and moves on. */
  datatype Action =
    | Append(events: seq<Event>)
    | Tick(elapsed: nat)
    | Requeue(staleBefore: int)
    | ClaimRows(worker: nat, indices: seq<nat>, retryableBefore: nat)
    | Publish(worker: nat, accepted: bool)
    | Mark(worker: nat, written: bool)
    | Crash(worker: nat)
    | ReplayDead(limit: nat)

  const INT64_LIMIT: int := 0x8000_0000_0000_0000

  /** Two's-complement wrap-around of a 64-bit signed result. */
  function Wrap64(x: int): int {
    (x + INT64_LIMIT) % (2 * INT64_LIMIT) - INT64_LIMIT
  }

  function Doubled64(delay: int, max: int, rounds: nat): int
    decreases rounds
  {
    if rounds == 0 then (if delay > max then max else delay)
    else
      var next := Wrap64(delay * 2);
      if next >= max then max else Doubled64(next, max, rounds - 1)
  }

  /** The delay before attempt n + 1: doubled each time in 64-bit arithmetic, up to a ceiling. */
  function Delay64(cfg: Config, attempts: nat): int {
    Doubled64(cfg.retryBase, cfg.retryMax, if attempts < 1 then 0 else attempts - 1)
  }

  function Held(s: Sys, w: nat): seq<Item> {
    if w in s.held then s.held[w] else []
  }

  function NewRow(e: Event): OutboxRow {
    OutboxRow(e, Pending, 0, None, None, None)
  }

  predicate IsEligible(row: OutboxRow, retryableBefore: nat) {
    row.status == Pending && (row.nextRetryAt.None? || row.nextRetryAt.value <= retryableBefore)
  }

  predicate IsStale(row: OutboxRow, staleBefore: int) {
    row.status == Processing && row.processingAt.Some? && row.processingAt.value <= staleBefore
  }

  function ClaimRow(row: OutboxRow, now: nat): OutboxRow {
    row.(status := Processing, attempts := row.attempts + 1, processingAt := Some(now))
  }

  function RequeueRow(row: OutboxRow, now: nat): OutboxRow {
    row.(status := Pending, processingAt := None, nextRetryAt := Some(now))
  }

  function MarkPublishedRow(row: OutboxRow, now: nat): OutboxRow {
    row.(status := Published, publishedAt := Some(now), processingAt := None, nextRetryAt := None)
  }

  function MarkForRetryRow(row: OutboxRow, at: int): OutboxRow {
    row.(status := Pending, processingAt := None, nextRetryAt := Some(at))
  }

  function MarkDeadRow(row: OutboxRow): OutboxRow {
    row.(status := Dead, processingAt := None, nextRetryAt := None)
  }

  /** The write that follows a publish attempt, decided on what the worker saw when it claimed. */
  function OutcomeRow(cfg: Config, row: OutboxRow, item: Item, now: nat): OutboxRow
    requires item.accepted.Some?
  {
    if item.accepted.value then MarkPublishedRow(row, now)
    else if item.attempts >= cfg.maxAttempts then MarkDeadRow(row)
    else MarkForRetryRow(row, now + Delay64(cfg, item.attempts))
  }

  /** How many rows are dead. */
  function CountDead(rows: seq<OutboxRow>): nat {
    if rows == [] then 0
    else CountDead(rows[..|rows| - 1]) + if rows[|rows| - 1].status == Dead then 1 else 0
  }

  function Requeued(s: Sys, staleBefore: int): seq<OutboxRow> {
    seq(|s.rows|, i requires 0 <= i < |s.rows| =>
      if IsStale(s.rows[i], staleBefore) then RequeueRow(s.rows[i], s.now) else s.rows[i])
  }

  function Claimed(s: Sys, indices: seq<nat>): seq<OutboxRow> {
    seq(|s.rows|, i requires 0 <= i < |s.rows| => if i in indices then ClaimRow(s.rows[i], s.now) else s.rows[i])
  }

  /** The dead rows with the lowest ids, up to a limit, become pending again. */
  function Revived(s: Sys, limit: nat): seq<OutboxRow> {
    seq(|s.rows|, i requires 0 <= i < |s.rows| =>
      if s.rows[i].status == Dead && CountDead(s.rows[..i]) < limit then RequeueRow(s.rows[i], s.now) else s.rows[i])
  }

  function ClaimItems(s: Sys, indices: seq<nat>): seq<Item>
    requires forall k :: 0 <= k < |indices| ==> indices[k] < |s.rows|
  {
    seq(|indices|, k requires 0 <= k < |indices| => Item(indices[k], s.rows[indices[k]].attempts + 1, s.now, None))
  }

  ghost predicate Ascending(indices: seq<nat>) {
    forall j, k :: 0 <= j < k < |indices| ==> indices[j] < indices[k]
  }

  ghost predicate Enabled(cfg: Config, s: Sys, a: Action) {
    match a
    case Append(_) => true
    case Tick(_) => true
    case Requeue(staleBefore) => staleBefore <= s.now - cfg.processingTimeout
    case ClaimRows(w, indices, retryableBefore) =>
      && Held(s, w) == [] && retryableBefore <= s.now && Ascending(indices)
      && forall k :: 0 <= k < |indices| ==> indices[k] < |s.rows| && IsEligible(s.rows[indices[k]], retryableBefore)
    case Publish(w, _) => Held(s, w) != [] && Held(s, w)[0].index < |s.rows| && Held(s, w)[0].accepted.None?
    case Mark(w, _) => Held(s, w) != [] && Held(s, w)[0].index < |s.rows| && Held(s, w)[0].accepted.Some?
    case Crash(_) => true
    case ReplayDead(_) => true
  }

  function Next(cfg: Config, s: Sys, a: Action): Sys
    requires Enabled(cfg, s, a)
  {
    match a
    case Append(events) => s.(rows := s.rows + seq(|events|, i requires 0 <= i < |events| => NewRow(events[i])))
    case Tick(elapsed) => s.(now := s.now + elapsed)
    case Requeue(staleBefore) => s.(rows := Requeued(s, staleBefore))
    case ClaimRows(w, indices, _) => s.(rows := Claimed(s, indices), held := s.held[w := ClaimItems(s, indices)])
    case Publish(w, accepted) =>
      s.(held := s.held[w := Held(s, w)[0 := Held(s, w)[0].(accepted := Some(accepted))]])
    case Mark(w, written) =>
      var item := Held(s, w)[0];
      var rows := if written then s.rows[item.index := OutcomeRow(cfg, s.rows[item.index], item, s.now)] else s.rows;
      s.(rows := rows, held := s.held[w := Held(s, w)[1..]])
    case Crash(w) => s.(held := s.held[w := []])
    case ReplayDead(limit) => s.(rows := Revived(s, limit))
  }

  /** The claim takes the eligible rows with the lowest ids, up to the batch size. */
  ghost predicate TakesFirst(s: Sys, a: Action, batch: nat)
    requires a.ClaimRows?
  {
    && |a.indices| <= batch
    && forall i :: 0 <= i < |s.rows| && IsEligible(s.rows[i], a.retryableBefore) && i !in a.indices ==>
         |a.indices| == batch && forall k :: 0 <= k < |a.indices| ==> a.indices[k] < i
  }

  /** A batch size or replay limit that is not positive means the default. */
  function LimitOf(limit: int): nat {
    if limit <= 0 then 100 else limit
  }

  ghost predicate IsRun(cfg: Config, run: seq<Action>)
    decreases |run|, 0
  {
    run == [] || (IsRun(cfg, run[..|run| - 1]) && Enabled(cfg, Final(cfg, run[..|run| - 1]), run[|run| - 1]))
  }

  function Final(cfg: Config, run: seq<Action>): Sys
    requires IsRun(cfg, run)
    decreases |run|, 1
  {
    if run == [] then START else Next(cfg, Final(cfg, run[..|run| - 1]), run[|run| - 1])
  }
}
