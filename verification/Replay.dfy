/**
  Reconnect replay: page backwards through a conversation until the last message the client saw or the
  cap, then send what was missed in ascending order. Paging is proved to equal a one-shot query.
 */
module Replay {
  import opened Prelude

  /** The ids of a table below n, newest first. */
  function Desc(table: set<nat>, n: nat): (ids: seq<nat>)
    ensures forall id :: id in ids <==> id in table && id < n
    ensures forall i, j :: 0 <= i < j < |ids| ==> ids[i] > ids[j]
  {
    if n == 0 then []
    else
      var rest := Desc(table, n - 1);
      assert forall j :: 0 <= j < |rest| ==> rest[j] in rest;
      if n - 1 in table then [n - 1] + rest else rest
  }

  /** The one-shot query: ids of the table above `last` and below n, newest first. */
  function Missed(table: set<nat>, last: nat, n: nat): (ids: seq<nat>)
    ensures forall id :: id in ids <==> id in table && last < id < n
    ensures forall i, j :: 0 <= i < j < |ids| ==> ids[i] > ids[j]
  {
    if n <= last + 1 then []
    else
      var rest := Missed(table, last, n - 1);
      assert forall j :: 0 <= j < |rest| ==> rest[j] in rest;
      if n - 1 in table then [n - 1] + rest else rest
  }

  function Take(ids: seq<nat>, n: nat): seq<nat> {
    ids[..Min(n, |ids|)]
  }

  function Reversed(ids: seq<nat>): (r: seq<nat>)
    ensures |r| == |ids|
    ensures forall i :: 0 <= i < |ids| ==> r[i] == ids[|ids| - 1 - i]
  {
    if ids == [] then [] else Reversed(ids[1..]) + [ids[0]]
  }

  // ----- Sorting

  function InsertSorted(sorted: seq<nat>, id: nat): seq<nat> {
    if sorted == [] || id <= sorted[0] then [id] + sorted else [sorted[0]] + InsertSorted(sorted[1..], id)
  }

  function Sorted(ids: seq<nat>): seq<nat> {
    if ids == [] then [] else InsertSorted(Sorted(ids[1..]), ids[0])
  }

  lemma {:induction false} InsertAtEnd(sorted: seq<nat>, id: nat)
    requires forall i :: 0 <= i < |sorted| ==> sorted[i] < id
    ensures InsertSorted(sorted, id) == sorted + [id]
  {
    if sorted != [] {
      InsertAtEnd(sorted[1..], id);
      assert [sorted[0]] + (sorted[1..] + [id]) == sorted + [id];
    }
  }

  /** Sorting a strictly descending list reverses it. */
  lemma {:induction false} SortingReverses(ids: seq<nat>)
    requires forall i, j :: 0 <= i < j < |ids| ==> ids[i] > ids[j]
    ensures Sorted(ids) == Reversed(ids)
  {
    if ids != [] {
      SortingReverses(ids[1..]);
      var tail := Reversed(ids[1..]);
      forall i | 0 <= i < |tail| ensures tail[i] < ids[0] {
        assert tail[i] == ids[1..][|tail| - 1 - i];
      }
      InsertAtEnd(tail, ids[0]);
    }
  }

  // ----- One page

  /** What the loop knows after looking at a page's items. */
  datatype Scan = Scan(missed: seq<nat>, stopped: bool, truncated: bool)

  /** Takes items until one the client has seen, or until the cap. */
  function Absorb(missed: seq<nat>, page: seq<nat>, last: nat, cap: nat): Scan
    decreases |page|
  {
    if page == [] then Scan(missed, false, false)
    else if page[0] <= last then Scan(missed, true, false)
    else if |missed| + 1 >= cap then Scan(missed + [page[0]], true, true)
    else Absorb(missed + [page[0]], page[1..], last, cap)
  }

  method AbsorbPage(missed: seq<nat>, page: seq<nat>, last: nat, cap: nat) returns (scan: Scan)
    ensures scan == Absorb(missed, page, last, cap)
  {
    scan := Scan(missed, false, false);
    var i := 0;
    while i < |page| && !scan.stopped
      invariant 0 <= i <= |page|
      invariant Absorb(missed, page, last, cap)
             == if scan.stopped then scan else Absorb(scan.missed, page[i..], last, cap)
      invariant !scan.stopped ==> !scan.truncated
    {
      assert page[i..][1..] == page[i + 1..];
      if page[i] <= last {
        scan := scan.(stopped := true);
      } else {
        scan := scan.(missed := scan.missed + [page[i]]);
        if |scan.missed| >= cap {
          scan := scan.(truncated := true, stopped := true);
        }
      }
      i := i + 1;
    }
  }

  /** On a descending page, absorbing takes the leading items above `last`, up to the cap. */
  lemma {:induction false} AbsorbTakes(missed: seq<nat>, page: seq<nat>, newer: seq<nat>, last: nat, cap: nat)
    requires |missed| < cap
    requires newer <= page && (forall id :: id in newer ==> id > last) && (|newer| < |page| ==> page[|newer|] <= last)
    ensures var scan := Absorb(missed, page, last, cap);
            && scan.missed == missed + Take(newer, cap - |missed|)
            && (scan.truncated <==> |missed| + |newer| >= cap)
            && (scan.stopped <==> scan.truncated || |newer| < |page|)
    decreases |page|
  {
    if page != [] && newer != [] {
      assert newer[0] in newer && page[0] == newer[0];
      if |missed| + 1 < cap {
        assert forall id :: id in newer[1..] ==> id in newer;
        AbsorbTakes(missed + [page[0]], page[1..], newer[1..], last, cap);
        assert missed + [page[0]] + Take(newer[1..], cap - |missed| - 1) == missed + Take(newer, cap - |missed|);
      } else {
        assert Take(newer, 1) == [page[0]];
      }
    }
  }

  // ----- The whole replay

  datatype Report = Report(replayed: seq<nat>, lastReplayed: nat, truncated: bool, nextBefore: nat)

  /** A client that has seen nothing asks for no replay; a failing request or a full queue ends one with an error. */
  datatype Outcome = Skipped | RequestFailed | QueueFull | Replayed(report: Report)

  /** Newer ids come first: what is below n splits at `last`. */
  lemma {:induction false} DescSplits(table: set<nat>, last: nat, n: nat)
    ensures Desc(table, n) == Missed(table, last, n) + Desc(table, Min(n, last + 1))
  {
    if n > last + 1 {
      DescSplits(table, last, n - 1);
    }
  }

  lemma AfterFirst(first: nat, rest: seq<nat>, k: nat)
    requires k <= |rest|
    ensures ([first] + rest)[k + 1..] == rest[k..]
    ensures ([first] + rest)[k] == if k == 0 then first else rest[k - 1]
  {
  }

  /** Continuing below the k-th id continues the list. */
  lemma {:induction false} MissedContinues(table: set<nat>, last: nat, n: nat, k: nat)
    requires k < |Missed(table, last, n)|
    ensures Missed(table, last, n)[k + 1..] == Missed(table, last, Missed(table, last, n)[k])
  {
    var ids, rest := Missed(table, last, n), Missed(table, last, n - 1);
    if n - 1 in table {
      AfterFirst(n - 1, rest, k);
      if k > 0 {
        MissedContinues(table, last, n - 1, k - 1);
      }
    } else {
      MissedContinues(table, last, n - 1, k);
    }
  }

  /** The fresh part of the page below n. */
  lemma PageHolds(table: set<nat>, last: nat, n: nat, size: nat)
    ensures var page, newer := Take(Desc(table, n), size), Take(Missed(table, last, n), size);
            && newer <= page && (forall id :: id in newer ==> id > last)
            && (|newer| < |page| ==> page[|newer|] <= last)
            && (|newer| < size ==> newer == Missed(table, last, n))
  {
    DescSplits(table, last, n);
    var newer := Take(Missed(table, last, n), size);
    forall id | id in newer ensures id > last {
      assert id in Missed(table, last, n);
    }
    var page := Take(Desc(table, n), size);
    if |newer| < |page| {
      assert page[|newer|] == Desc(table, Min(n, last + 1))[0];
      assert page[|newer|] in Desc(table, Min(n, last + 1));
    }
  }

  /** What a page does to the list collected so far, given which of its items are new. */
  lemma ScanAdvances(all: seq<nat>, missed: seq<nat>, rest: seq<nat>, page: seq<nat>, newer: seq<nat>,
                     last: nat, cap: nat)
    requires |missed| <= |all| && missed == Take(all, |missed|) && all[|missed|..] == rest && |missed| < cap
    requires newer <= page && newer <= rest && (forall id :: id in newer ==> id > last)
    requires |newer| < |page| ==> page[|newer|] <= last && newer == rest
    ensures var scan := Absorb(missed, page, last, cap);
            && |scan.missed| <= |all| && scan.missed == Take(all, |scan.missed|) && |scan.missed| <= cap
            && (scan.stopped ==> scan.missed == Take(all, cap))
            && (scan.truncated <==> |scan.missed| == cap) && (scan.truncated ==> scan.stopped)
            && (!scan.stopped ==>
                  newer == page && |scan.missed| == |missed| + |page| && all[|scan.missed|..] == rest[|page|..])
  {
    AbsorbTakes(missed, page, newer, last, cap);
    ReplayAdvances(all, missed, Absorb(missed, page, last, cap).missed, newer, rest, cap);
  }

  /** The cursor after a page of new items: it has moved down, and what is still missing lies below it. */
  lemma CursorMoves(table: set<nat>, last: nat, bound: nat, size: nat)
    requires var page := Take(Desc(table, bound), size);
             page != [] && page == Take(Missed(table, last, bound), size)
    ensures var page := Take(Desc(table, bound), size);
            && |page| <= |Missed(table, last, bound)| && page[|page| - 1] < bound
            && Missed(table, last, bound)[|page|..] == Missed(table, last, page[|page| - 1])
  {
    var page := Take(Desc(table, bound), size);
    assert page[|page| - 1] in Missed(table, last, bound);
    MissedContinues(table, last, bound, |page| - 1);
  }

  /**
    Pages backwards with the last id of each page as the next cursor, which strictly decreases. `failing` is the
    number of the page whose request fails, if it comes to that.
   */
  method CollectMissed(table: set<nat>, top: nat, last: nat, size: nat, cap: nat, failing: Option<nat>)
    returns (missed: seq<nat>, truncated: bool, failed: bool)
    requires size > 0
    ensures !failed ==> missed == Take(Missed(table, last, top), cap)
    ensures !failed ==> (truncated <==> 0 < cap <= |Missed(table, last, top)|)
    ensures failed ==> failing.Some? && failing.value <= |Missed(table, last, top)| && failing.value < cap
  {
    ghost var all := Missed(table, last, top);
    missed, truncated, failed := [], false, false;
    var stop := false;
    var bound, pages := top, 0;
    while |missed| < cap && !stop
      invariant missed == Take(all, |missed|) && |missed| <= |all|
      invariant !stop ==> all[|missed|..] == Missed(table, last, bound) && !truncated
      invariant stop ==> missed == Take(all, cap)
      invariant truncated <==> 0 < cap <= |missed|
      invariant |missed| <= cap && (!stop ==> pages <= |missed|)
      decreases !stop, bound
    {
      if failing == Some(pages) {
        failed := true;
        return;
      }
      pages := pages + 1;
      var page := Take(Desc(table, bound), size);
      if |page| == 0 {
        DescSplits(table, last, bound);
        stop := true;
        break;
      }
      PageHolds(table, last, bound, size);
      ghost var rest := Missed(table, last, bound);
      ScanAdvances(all, missed, rest, page, Take(rest, size), last, cap);
      var scan := AbsorbPage(missed, page, last, cap);
      missed, truncated, stop := scan.missed, scan.truncated, scan.stopped;
      if !stop {
        CursorMoves(table, last, bound, size);
        bound := page[|page| - 1];
      }
    }
  }

  /**
    For every table, page size and cap: the replayed ids are the ascending list of the newest `cap` ids
    above `last`; truncated says that there were at least `cap` of them; and then exactly the ids strictly
    between `last` and `nextBefore` were left out. `accepts` is how many frames the client's queue takes.
   */
  method ReplayMessages(table: set<nat>, top: nat, last: nat, size: nat, cap: nat, accepts: nat, failing: Option<nat>)
    returns (sent: seq<nat>, outcome: Outcome)
    requires size > 0
    requires forall id :: id in table ==> id < top
    ensures last == 0 <==> outcome.Skipped?
    ensures last == 0 || outcome.RequestFailed? ==> sent == []
    ensures outcome.RequestFailed? ==>
              failing.Some? && failing.value <= |Missed(table, last, top)| && failing.value < cap
    ensures last > 0 && !outcome.RequestFailed? ==>
              var all := Missed(table, last, top);
              && sent == Take(Reversed(Take(all, cap)), accepts)
              && (outcome.Replayed? <==> Min(cap, |all|) < accepts)
              && (outcome.Replayed? ==>
                    && outcome.report.replayed == Reversed(Take(all, cap))
                    && outcome.report.lastReplayed == (if all == [] || cap == 0 then last else all[0])
                    && (outcome.report.truncated <==> 0 < cap <= |all|)
                    && (outcome.report.truncated ==>
                          all[cap..] == Missed(table, last, outcome.report.nextBefore)
                          && outcome.report.nextBefore == all[cap - 1]))
  {
    if last == 0 {
      return [], Skipped;
    }
    ghost var all := Missed(table, last, top);
    var missed, truncated, failed := CollectMissed(table, top, last, size, cap, failing);
    if failed {
      return [], RequestFailed;
    }
    SortingReverses(missed);
    var ordered := Sorted(missed);
    sent := Take(ordered, accepts);
    outcome := QueueFull;
    if |ordered| < accepts {
      var lastReplayed, nextBefore := last, 0;
      if |ordered| > 0 {
        lastReplayed := ordered[|ordered| - 1];
        if truncated {
          nextBefore := ordered[0];
        }
      }
      outcome := Replayed(Report(ordered, lastReplayed, truncated, nextBefore));
      if truncated {
        MissedContinues(table, last, top, cap - 1);
      }
    }
  }

  /** Adding the fresh part of a page to what was collected stays a prefix of the whole. */
  lemma ReplayAdvances(all: seq<nat>, before: seq<nat>, missed: seq<nat>, newer: seq<nat>, rest: seq<nat>, cap: nat)
    requires |before| <= |all| && before == Take(all, |before|) && all[|before|..] == rest && |before| < cap
    requires newer <= rest && missed == before + Take(newer, cap - |before|)
    ensures |missed| <= |all| && missed == Take(all, |missed|)
    ensures all[|missed|..] == rest[|missed| - |before|..]
  {
    assert all == before + rest;
  }
}
