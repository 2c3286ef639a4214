/**
  A client reconnecting while messages keep being committed, in any id order, and published at least once
  each: because it is registered for broadcasts before paging starts, nothing falls between the two.
 */
module Reconnect {
  import opened Prelude
  import opened Replay

  /** The connection: `None` as bound means that no page has been read yet. */
  datatype Phase =
    | Fresh
    | Paging(bound: Option<nat>, missed: seq<nat>)
    | Sending(queue: seq<nat>, floor: nat)
    | Live(floor: nat)
    | Broken

  /** One conversation: committed ids, those whose event is still to be published, and what reached the client. */
  datatype World = World(table: set<nat>, unpublished: set<nat>, registered: bool, phase: Phase, delivered: set<nat>)

  datatype Action =
    | Commit(id: nat)
    | Publish(id: nat, accepted: bool)
    | Register
    | BeginReplay
    | ReadPage(page: seq<nat>)
    | SendOne(accepted: bool)

  predicate IsBelow(id: nat, bound: Option<nat>) {
    bound.None? || id < bound.value
  }

  /** SELECT id ... WHERE id < bound ORDER BY id DESC LIMIT size. */
  ghost predicate IsPage(table: set<nat>, bound: Option<nat>, size: nat, page: seq<nat>) {
    && |page| <= size
    && (forall i, j :: 0 <= i < j < |page| ==> page[i] > page[j])
    && (forall i :: 0 <= i < |page| ==> page[i] in table && IsBelow(page[i], bound))
    && (forall id :: id in table && IsBelow(id, bound) && id !in page ==>
          |page| == size && forall i :: 0 <= i < |page| ==> id < page[i])
  }

  ghost predicate Enabled(s: World, a: Action, size: nat) {
    match a
    case Commit(id) => id !in s.table
    case Publish(id, _) => id in s.table
    case Register => !s.registered
    case BeginReplay => s.phase.Fresh?
    case ReadPage(page) => s.phase.Paging? && IsPage(s.table, s.phase.bound, size, page)
    case SendOne(_) => s.phase.Sending?
  }

  /** A page ends the paging when it is empty, reaches what the client saw, or fills the cap. */
  function AfterPage(phase: Phase, page: seq<nat>, last: nat, cap: nat): Phase
    requires phase.Paging?
  {
    var scan := Absorb(phase.missed, page, last, cap);
    if page == [] || scan.stopped
    then Sending(Sorted(scan.missed),
                 if scan.truncated && scan.missed != [] then scan.missed[|scan.missed| - 1] else last + 1)
    else Paging(Some(page[|page| - 1]), scan.missed)
  }

  function Next(s: World, a: Action, last: nat, cap: nat): World {
    match a
    case Commit(id) => s.(table := s.table + {id}, unpublished := s.unpublished + {id})
    case Publish(id, accepted) =>
      var s' := s.(unpublished := s.unpublished - {id});
      if !s.registered then s'
      else if accepted then s'.(delivered := s.delivered + {id})
      else s'.(phase := Broken)
    case Register => s.(registered := true)
    case BeginReplay =>
      s.(phase := if last == 0 then Live(0) else if cap == 0 then Sending([], last + 1) else Paging(None, []))
    case ReadPage(page) => if s.phase.Paging? then s.(phase := AfterPage(s.phase, page, last, cap)) else s
    case SendOne(accepted) =>
      if !s.phase.Sending? then s
      else if !accepted then s.(phase := Broken)
      else if s.phase.queue == [] then s.(phase := Live(s.phase.floor))
      else s.(delivered := s.delivered + {s.phase.queue[0]}, phase := Sending(s.phase.queue[1..], s.phase.floor))
  }

  function Initial(table: set<nat>, unpublished: set<nat>): World {
    World(table, unpublished, false, Fresh, {})
  }

  ghost predicate IsRun(start: World, run: seq<Action>, last: nat, size: nat, cap: nat) {
    run == []
    || (&& IsRun(start, run[..|run| - 1], last, size, cap)
        && Enabled(Final(start, run[..|run| - 1], last, cap), run[|run| - 1], size))
  }

  function Final(start: World, run: seq<Action>, last: nat, cap: nat): World {
    if run == [] then start else Next(Final(start, run[..|run| - 1], last, cap), run[|run| - 1], last, cap)
  }

  /** The connection is registered on the hub before its replay begins. */
  ghost predicate RegistersFirst(start: World, run: seq<Action>, last: nat, cap: nat) {
    run == []
    || (&& RegistersFirst(start, run[..|run| - 1], last, cap)
        && (run[|run| - 1].BeginReplay? ==> Final(start, run[..|run| - 1], last, cap).registered))
  }

  // ----- Nothing is missed

  /** Why a committed id above `last` is not, or not yet, at the client. */
  ghost predicate IsAccountedFor(s: World, id: nat, last: nat) {
    || id in s.delivered
    || id in s.unpublished
    || match s.phase
       case Fresh => true
       case Paging(bound, missed) => IsBelow(id, bound) || id in missed
       case Sending(queue, floor) => id in queue || id < floor
       case Live(floor) => id < floor
       case Broken => true
  }

  ghost predicate NoneMissing(s: World, last: nat, cap: nat) {
    && (!s.phase.Fresh? && !s.phase.Broken? ==> s.registered)
    && (s.phase.Paging? ==> |s.phase.missed| < cap)
    && (s.phase.Paging? ==> forall i :: 0 <= i < |s.phase.missed| ==>
          !IsBelow(s.phase.missed[i], s.phase.bound))
    && forall id :: id in s.table && id > last > 0 ==> IsAccountedFor(s, id, last)
  }

  lemma {:induction false} SortedKeeps(ids: seq<nat>)
    ensures forall id :: id in Sorted(ids) <==> id in ids
  {
    if ids != [] {
      SortedKeeps(ids[1..]);
      InsertKeeps(Sorted(ids[1..]), ids[0]);
      assert ids == [ids[0]] + ids[1..];
    }
  }

  lemma {:induction false} InsertKeeps(sorted: seq<nat>, id: nat)
    ensures forall x :: x in InsertSorted(sorted, id) <==> x in sorted || x == id
  {
    if sorted != [] && id > sorted[0] {
      InsertKeeps(sorted[1..], id);
      assert sorted == [sorted[0]] + sorted[1..];
    }
  }

  /** Absorbing keeps what was collected, and loses only items already seen or below the cut. */
  lemma {:induction false} AbsorbLoses(missed: seq<nat>, page: seq<nat>, last: nat, cap: nat)
    requires |missed| < cap
    requires forall i, j :: 0 <= i < j < |page| ==> page[i] > page[j]
    ensures var scan := Absorb(missed, page, last, cap);
            && missed <= scan.missed
            && (!scan.stopped ==> |scan.missed| < cap && scan.missed == missed + page)
            && (scan.truncated ==> scan.stopped && |scan.missed| > |missed| && scan.missed[|scan.missed| - 1] in page)
            && (forall id :: id in page && id > last && id !in scan.missed ==>
                  scan.truncated && id < scan.missed[|scan.missed| - 1])
    decreases |page|
  {
    if page != [] && page[0] > last && |missed| + 1 < cap {
      AbsorbLoses(missed + [page[0]], page[1..], last, cap);
      assert page == [page[0]] + page[1..];
      assert missed + [page[0]] + page[1..] == missed + page;
      var scan := Absorb(missed, page, last, cap);
      assert scan.missed[|missed|] == page[0];
    } else if page != [] {
      forall id | id in page && id > last && id !in Absorb(missed, page, last, cap).missed
        ensures page[0] > last && id < page[0]
      {
        var i :| 0 <= i < |page| && page[i] == id;
        assert page[0] > last;
        assert (missed + [page[0]])[|missed|] == page[0];
      }
    }
  }

  lemma PageMissesNothing(s: World, page: seq<nat>, last: nat, size: nat, cap: nat, id: nat)
    requires size > 0 && NoneMissing(s, last, cap) && Enabled(s, ReadPage(page), size)
    requires id in s.table && id > last > 0 && id !in s.delivered && id !in s.unpublished
    ensures IsAccountedFor(Next(s, ReadPage(page), last, cap), id, last)
  {
    var bound, missed := s.phase.bound, s.phase.missed;
    assert IsAccountedFor(s, id, last);
    AbsorbLoses(missed, page, last, cap);
    var scan := Absorb(missed, page, last, cap);
    SortedKeeps(scan.missed);
    if id in missed {
      var i :| 0 <= i < |missed| && missed[i] == id;
      assert scan.missed[i] == id;
    } else if id !in page && page != [] {
      assert id < page[|page| - 1];
      if scan.stopped && !scan.truncated {
        SeenCutsOff(missed, page, last, cap);
      }
    }
  }

  /** Stopping without filling the cap means that the page reached what the client had seen. */
  lemma {:induction false} SeenCutsOff(missed: seq<nat>, page: seq<nat>, last: nat, cap: nat)
    requires Absorb(missed, page, last, cap).stopped && !Absorb(missed, page, last, cap).truncated
    requires forall i, j :: 0 <= i < j < |page| ==> page[i] > page[j]
    ensures page != [] && page[|page| - 1] <= last
    decreases |page|
  {
    if page != [] && page[0] > last && |missed| + 1 < cap {
      SeenCutsOff(missed + [page[0]], page[1..], last, cap);
    }
  }

  lemma StepKeepsNoneMissing(s: World, a: Action, last: nat, size: nat, cap: nat)
    requires size > 0 && cap > 0 && NoneMissing(s, last, cap) && Enabled(s, a, size)
    requires a.BeginReplay? ==> s.registered
    ensures NoneMissing(Next(s, a, last, cap), last, cap)
  {
    var s' := Next(s, a, last, cap);
    if a.ReadPage? {
      AbsorbLoses(s.phase.missed, a.page, last, cap);
    }
    forall id | id in s'.table && id > last > 0 ensures IsAccountedFor(s', id, last) {
      if id in s.table {
        assert IsAccountedFor(s, id, last);
        if a.ReadPage? && id !in s.delivered && id !in s.unpublished {
          PageMissesNothing(s, a.page, last, size, cap, id);
        } else if a.SendOne? && s.phase.queue != [] {
          assert s.phase.queue == [s.phase.queue[0]] + s.phase.queue[1..];
        }
      }
    }
  }

  lemma {:induction false} RunsMissNothing(start: World, run: seq<Action>, last: nat, size: nat, cap: nat)
    requires size > 0 && cap > 0 && NoneMissing(start, last, cap)
    requires IsRun(start, run, last, size, cap) && RegistersFirst(start, run, last, cap)
    ensures NoneMissing(Final(start, run, last, cap), last, cap)
  {
    if run != [] {
      RunsMissNothing(start, run[..|run| - 1], last, size, cap);
      StepKeepsNoneMissing(Final(start, run[..|run| - 1], last, cap), run[|run| - 1], last, size, cap);
    }
  }

  /**
    Reconnect leaves no gap: once the replay has finished without overflow and every committed row has been
    published, each message above the client's last one and at or above the reported floor reached the client;
    when the replay was not truncated the floor is just above that last one.
   */
  lemma NoGap(table: set<nat>, unpublished: set<nat>, run: seq<Action>, last: nat, size: nat, cap: nat, id: nat)
    requires size > 0 && cap > 0 && last > 0
    requires IsRun(Initial(table, unpublished), run, last, size, cap)
    requires RegistersFirst(Initial(table, unpublished), run, last, cap)
    requires Final(Initial(table, unpublished), run, last, cap).phase.Live?
    requires Final(Initial(table, unpublished), run, last, cap).unpublished == {}
    requires id in Final(Initial(table, unpublished), run, last, cap).table
    requires id > last && id >= Final(Initial(table, unpublished), run, last, cap).phase.floor
    ensures id in Final(Initial(table, unpublished), run, last, cap).delivered
  {
    RunsMissNothing(Initial(table, unpublished), run, last, size, cap);
    assert IsAccountedFor(Final(Initial(table, unpublished), run, last, cap), id, last);
  }

  // ----- The reported floor

  /** Committed ids above `last`, newest first. */
  ghost predicate Descends(ids: seq<nat>, table: set<nat>, last: nat) {
    && (forall i, j :: 0 <= i < j < |ids| ==> ids[i] > ids[j])
    && forall i :: 0 <= i < |ids| ==> ids[i] in table && ids[i] > last
  }

  /** There are `cap` committed ids above `last` from the floor on, the floor being one of them. */
  ghost predicate IsFull(table: set<nat>, floor: nat, last: nat, cap: nat) {
    exists ids :: |ids| == cap > 0 && Descends(ids, table, last) && ids[cap - 1] == floor
  }

  ghost predicate IsFloor(s: World, floor: nat, last: nat, cap: nat) {
    floor == last + 1 || IsFull(s.table, floor, last, cap)
  }

  /** What paging has collected descends from the newest id to its bound, and the floor follows from it. */
  ghost predicate IsCollecting(s: World, last: nat, cap: nat) {
    match s.phase
    case Paging(bound, missed) =>
      && |missed| < cap && Descends(missed, s.table, last)
      && forall i :: 0 <= i < |missed| ==> !IsBelow(missed[i], bound)
    case Sending(_, floor) => IsFloor(s, floor, last, cap)
    case Live(floor) => IsFloor(s, floor, last, cap)
    case _ => true
  }

  lemma {:induction false} AbsorbCollects(table: set<nat>, missed: seq<nat>, page: seq<nat>, last: nat, cap: nat)
    requires |missed| < cap && Descends(missed, table, last)
    requires forall i, j :: 0 <= i < j < |page| ==> page[i] > page[j]
    requires forall i :: 0 <= i < |page| ==> page[i] in table
    requires forall i, j :: 0 <= i < |missed| && 0 <= j < |page| ==> missed[i] > page[j]
    ensures var scan := Absorb(missed, page, last, cap);
            && Descends(scan.missed, table, last)
            && (if scan.truncated then |scan.missed| == cap else |scan.missed| < cap)
            && forall i :: 0 <= i < |scan.missed| ==> scan.missed[i] in missed || scan.missed[i] in page
    decreases |page|
  {
    if page != [] && page[0] > last {
      var missed' := missed + [page[0]];
      assert Descends(missed', table, last);
      if |missed'| < cap {
        AbsorbCollects(table, missed', page[1..], last, cap);
      }
    }
  }

  lemma TableGrows(s: World, s': World, floor: nat, last: nat, cap: nat)
    requires s.table <= s'.table && IsFloor(s, floor, last, cap)
    ensures IsFloor(s', floor, last, cap)
  {
    if floor != last + 1 {
      var ids :| |ids| == cap > 0 && Descends(ids, s.table, last) && ids[cap - 1] == floor;
      assert Descends(ids, s'.table, last);
    }
  }

  lemma StepKeepsCollecting(s: World, a: Action, last: nat, size: nat, cap: nat)
    requires cap > 0 && last > 0 && IsCollecting(s, last, cap) && Enabled(s, a, size)
    ensures IsCollecting(Next(s, a, last, cap), last, cap)
  {
    var s' := Next(s, a, last, cap);
    if a.ReadPage? {
      var missed := s.phase.missed;
      forall i, j | 0 <= i < |missed| && 0 <= j < |a.page| ensures missed[i] > a.page[j] {
        assert !IsBelow(missed[i], s.phase.bound) && IsBelow(a.page[j], s.phase.bound);
      }
      AbsorbCollects(s.table, missed, a.page, last, cap);
      AbsorbLoses(missed, a.page, last, cap);
    } else if s.phase.Sending? {
      TableGrows(s, s', s.phase.floor, last, cap);
    } else if s.phase.Live? {
      TableGrows(s, s', s.phase.floor, last, cap);
    }
  }

  /**
    The reported floor is just above the client's last message, unless the replay is full: then it is one of `cap`
    committed ids above that message, none of which is below it.
   */
  lemma {:induction false} FloorIsHonest(table: set<nat>, unpublished: set<nat>, run: seq<Action>, last: nat,
                                         size: nat, cap: nat)
    requires cap > 0 && last > 0 && IsRun(Initial(table, unpublished), run, last, size, cap)
    ensures var s := Final(Initial(table, unpublished), run, last, cap);
            && IsCollecting(s, last, cap)
            && (s.phase.Live? ==> IsFloor(s, s.phase.floor, last, cap))
  {
    if run != [] {
      var front := run[..|run| - 1];
      FloorIsHonest(table, unpublished, front, last, size, cap);
      StepKeepsCollecting(Final(Initial(table, unpublished), front, last, cap), run[|run| - 1], last, size, cap);
    }
  }

  // ----- Registering after the replay leaves a gap

  function LateRegistration(): seq<Action> {
    [BeginReplay, ReadPage([]), SendOne(true), Commit(2), Publish(2, true), Register]
  }

  function LateWorld(i: nat): World {
    if i == 0 then Initial({}, {})
    else if i == 1 then World({}, {}, false, Paging(None, []), {})
    else if i == 2 then World({}, {}, false, Sending([], 2), {})
    else if i == 3 then World({}, {}, false, Live(2), {})
    else if i == 4 then World({2}, {2}, false, Live(2), {})
    else if i == 5 then World({2}, {}, false, Live(2), {})
    else World({2}, {}, true, Live(2), {})
  }

  lemma {:induction false} LatePrefix(i: nat)
    requires i <= 6
    ensures IsRun(Initial({}, {}), LateRegistration()[..i], 1, 1, 1)
    ensures Final(Initial({}, {}), LateRegistration()[..i], 1, 1) == LateWorld(i)
  {
    if i > 0 {
      LatePrefix(i - 1);
      assert LateRegistration()[..i][..i - 1] == LateRegistration()[..i - 1];
      assert Next(LateWorld(i - 1), LateRegistration()[i - 1], 1, 1) == LateWorld(i);
    }
  }

  /** Had the connection been registered only after its replay, a message could be lost for good. */
  lemma LateRegistrationLeavesAGap()
    ensures IsRun(Initial({}, {}), LateRegistration(), 1, 1, 1)
    ensures var s := Final(Initial({}, {}), LateRegistration(), 1, 1);
            s.phase == Live(2) && s.unpublished == {} && 2 in s.table && 2 !in s.delivered
  {
    LatePrefix(6);
    assert LateRegistration()[..6] == LateRegistration();
  }
}
