/**
 How long a worker waits in epoll_wait, and what can make a wait already begun last beyond a deadline: any run of the
 timer manager's operations, each with the report the caller sees of it.
 */
module Waits {

  import opened Base
  import opened Timers

  const MAX_TIMEOUT: nat := 3000

  // How long the poll may wait, from the time to the first deadline, all ones standing for none.
  function WaitBound(untilNext: uint64): nat {
    if untilNext != WORD - 1 then (if untilNext < MAX_TIMEOUT then untilNext else MAX_TIMEOUT) else MAX_TIMEOUT
  }

  // Some timer is due before a wait until `until` is over.
  ghost predicate DueBefore(ts: seq<Timer>, until: nat)
    reads ts`executeTime
  {
    exists t :: t in ts && t.executeTime < until
  }

  // A wait is at most 3000 ms long, outlasts no deadline of the set it was computed from, is empty exactly when some
  // timer is due already, and shorter than that only when it ends at a deadline.
  lemma WaitIsBounded(manager: TimerManager, now: uint64)
    requires manager.Valid()
    ensures var bound := WaitBound(manager.TimeUntilNext(now));
            && bound <= 3000
            && (bound < 3000 ==> DueBefore(manager.timers, now + bound + 1))
            && (bound > 0 ==> !DueBefore(manager.timers, now + bound))
            && (bound == 0 <==> DueBefore(manager.timers, now + 1))
  {
    if manager.timers != [] {
      manager.FirstIsEarliest();
      assert manager.timers[0] in manager.timers;
    }
  }

  // In an ordered set it is the first timer that counts.
  lemma FirstDecides(manager: TimerManager, until: nat)
    requires manager.Valid()
    ensures DueBefore(manager.timers, until) <==> manager.timers != [] && manager.timers[0].executeTime < until
  {
    if manager.timers != [] {
      manager.FirstIsEarliest();
    }
  }

  // --- operations --------------------------------------------------------------------------------------------

  datatype Op =
    | Add(timer: Timer)
    | Cancel(timer: Timer)
    | Refresh(timer: Timer, now: uint64)
    | Reset(timer: Timer, runCycle: uint64, fromNow: bool, now: uint64)
    | Expire(now: uint64, probe: nat)

  // What came of it: an add says whether the timer stands first; cancelling a timer that is not there is undefined.
  datatype Report =
    | Added(front: bool, deadline: nat)
    | Unmoved
    | Rescheduled(deadline: nat)
    | Rearmed(deadlines: seq<nat>)
    | Undefined

  // An operation that put a deadline before the end of the wait.
  predicate Shortens(report: Report, until: nat) {
    match report
    case Added(front, deadline) => front && deadline < until
    case Rescheduled(deadline) => deadline < until
    case Rearmed(deadlines) => exists i :: 0 <= i < |deadlines| && deadlines[i] < until
    case Unmoved => false
    case Undefined => false
  }

  // The due times the recurring ones among the timers are given.
  function Rearmings(ts: seq<Timer>, now: uint64): (r: seq<nat>)
    reads ts`runCycle
    ensures forall t :: t in ts && t.recurring ==> Wrap(now + t.runCycle) in r
    ensures forall d :: d in r ==> exists t :: t in ts && t.recurring && d == Wrap(now + t.runCycle)
  {
    if ts == [] then []
    else (if ts[0].recurring then [Wrap(now + ts[0].runCycle)] else []) + Rearmings(ts[1..], now)
  }

  // All timers alive, in the set or not, have addresses of their own.
  ghost predicate Housed(manager: TimerManager, alive: seq<Timer>)
    reads manager`timers
  {
    Apart(alive) && forall t :: t in manager.timers ==> t in alive
  }

  lemma HousedJoins(manager: TimerManager, alive: seq<Timer>, timer: Timer)
    requires manager.Valid() && Housed(manager, alive) && timer in alive
    ensures manager.Joins(timer)
  {
    if timer !in manager.timers {
      forall t | t in manager.timers
        ensures t.address != timer.address
      {
        var i: nat :| i < |alive| && alive[i] == t;
        var j: nat :| j < |alive| && alive[j] == timer;
        assert i < j || j < i;
      }
      manager.JoinsWhenApart(timer);
    }
  }

  predicate Among(op: Op, alive: seq<Timer>) {
    op.Expire? || op.timer in alive
  }

  // A timer moved inside the set: only its own new due time can lie before the end of a wait that outlasted none.
  lemma MovedDecides(manager: TimerManager, before: seq<Timer>, timer: Timer, until: nat)
    requires manager.Moved(before, timer) && forall t :: t in before && t != timer ==> until <= t.executeTime
    ensures DueBefore(manager.timers, until) <==> timer.executeTime < until
    ensures forall t :: t in manager.timers ==> t in before
  {
    var k, p :| 0 <= k < |before| && 0 <= p < |manager.timers| && before[k] == timer && manager.timers[p] == timer &&
                before[..k] + before[k + 1..] == manager.timers[..p] + manager.timers[p + 1..];
    var rest := manager.timers[..p] + manager.timers[p + 1..];
    assert manager.timers == manager.timers[..p] + [timer] + manager.timers[p + 1..];
    assert forall t :: t in manager.timers ==> t == timer || t in rest;
    assert forall t :: t in rest ==> t in before;
  }

  method PerformAdd(manager: TimerManager, timer: Timer, ghost alive: seq<Timer>, ghost until: nat)
    returns (report: Report)
    requires manager.Valid() && Housed(manager, alive) && timer in alive
    modifies manager`timers
    ensures manager.Valid() && Housed(manager, alive)
    ensures !old(DueBefore(manager.timers, until)) ==>
              (DueBefore(manager.timers, until) <==> Shortens(report, until))
    ensures report.Added? && report.deadline == timer.executeTime
    ensures timer !in old(manager.timers) ==> manager.timers != [] && (report.front <==> manager.timers[0] == timer)
  {
    hide Sorted, Apart;
    HousedJoins(manager, alive, timer);
    var front, place := manager.AddTimer(timer);
    report := Added(front, timer.executeTime);
    assert timer in manager.timers;
    assert forall t :: t in manager.timers ==> t == timer || t in old(manager.timers);
    assert forall t :: t in old(manager.timers) ==> t in manager.timers;
    FirstDecides(manager, until);
  }

  method PerformCancel(manager: TimerManager, timer: Timer, ghost alive: seq<Timer>, ghost until: nat)
    returns (report: Report)
    requires manager.Valid() && Housed(manager, alive) && timer in alive
    modifies manager`timers
    ensures manager.Valid() && Housed(manager, alive)
    ensures !old(DueBefore(manager.timers, until)) ==> !DueBefore(manager.timers, until)
    ensures report == if timer.callback.Some? && timer !in old(manager.timers) then Undefined else Unmoved
  {
    hide Sorted, Apart;
    HousedJoins(manager, alive, timer);
    var result := manager.CancelTimer(timer);
    report := if result.EraseEnd? then Undefined else Unmoved;
    assert forall t :: t in manager.timers ==> t in old(manager.timers);
  }

  method PerformRefresh(manager: TimerManager, timer: Timer, now: uint64, ghost alive: seq<Timer>, ghost until: nat)
    returns (report: Report)
    requires manager.Valid() && Housed(manager, alive) && timer in alive
    modifies manager`timers, timer`executeTime
    ensures manager.Valid() && Housed(manager, alive)
    ensures !old(DueBefore(manager.timers, until)) ==>
              (DueBefore(manager.timers, until) <==> Shortens(report, until))
    ensures report == if timer.callback.Some? && timer in old(manager.timers) then Rescheduled(timer.executeTime)
                      else Unmoved
  {
    hide Sorted, Apart;
    HousedJoins(manager, alive, timer);
    var done := manager.RefreshExecuteTime(timer, now);
    report := if done then Rescheduled(timer.executeTime) else Unmoved;
    if done && !old(DueBefore(manager.timers, until)) {
      MovedDecides(manager, old(manager.timers), timer, until);
    }
    if done {
      MovedAmong(manager, old(manager.timers), timer);
    }
  }

  lemma MovedAmong(manager: TimerManager, before: seq<Timer>, timer: Timer)
    requires manager.Moved(before, timer)
    ensures forall t :: t in manager.timers ==> t in before
  {
    MovedDecides(manager, before, timer, 0);
  }

  method PerformReset(manager: TimerManager, timer: Timer, runCycle: uint64, fromNow: bool, now: uint64,
                      ghost alive: seq<Timer>, ghost until: nat)
    returns (report: Report)
    requires manager.Valid() && Housed(manager, alive) && timer in alive
    modifies manager`timers, timer`executeTime, timer`runCycle
    ensures manager.Valid() && Housed(manager, alive)
    ensures !old(DueBefore(manager.timers, until)) ==>
              (DueBefore(manager.timers, until) <==> Shortens(report, until))
    ensures var moves := (runCycle != old(timer.runCycle) || fromNow) && timer.callback.Some?;
            report == if moves && timer in old(manager.timers) then Rescheduled(timer.executeTime) else Unmoved
  {
    hide Sorted, Apart;
    HousedJoins(manager, alive, timer);
    var same := runCycle == timer.runCycle && !fromNow;
    var done := manager.ResetRunCycle(timer, runCycle, fromNow, now);
    report := if done && !same then Rescheduled(timer.executeTime) else Unmoved;
    if done && !same {
      MovedAmong(manager, old(manager.timers), timer);
      if !old(DueBefore(manager.timers, until)) {
        MovedDecides(manager, old(manager.timers), timer, until);
      }
    }
  }

  // Of the timers left after expiry only those armed again can be due before the end of a wait that outlasted none.
  lemma ExpiryDecides(left: seq<Timer>, fired: seq<Timer>, kept: seq<Timer>, now: uint64, until: nat)
    requires forall t :: t in left <==> t in kept || (t in fired && t.recurring)
    requires forall t :: t in kept ==> until <= t.executeTime
    requires forall t :: t in fired && t.recurring ==> t.executeTime == Wrap(now + t.runCycle)
    ensures DueBefore(left, until) <==> Shortens(Rearmed(Rearmings(fired, now)), until)
  {
    hide Rearmings, Wrap;
    var deadlines := Rearmings(fired, now);
    if DueBefore(left, until) {
      var t :| t in left && t.executeTime < until;
      assert t.executeTime in deadlines;
    }
    if Shortens(Rearmed(deadlines), until) {
      var i :| 0 <= i < |deadlines| && deadlines[i] < until;
      assert deadlines[i] in deadlines;
    }
  }

  lemma SomeRearmed(fired: seq<Timer>, now: uint64)
    requires Rearmings(fired, now) != []
    ensures fired != []
  {
  }

  // Unless the clock went back, timers that are armed again were due before now, so the wait was over.
  method PerformExpire(manager: TimerManager, now: uint64, probe: nat, ghost alive: seq<Timer>, ghost until: nat)
    returns (report: Report)
    requires manager.Valid() && Housed(manager, alive)
    modifies manager, manager.timers`executeTime
    ensures manager.Valid() && Housed(manager, alive) && report.Rearmed?
    ensures !old(DueBefore(manager.timers, until)) ==>
              (DueBefore(manager.timers, until) <==> Shortens(report, until))
    ensures !old(DueBefore(manager.timers, until)) && !RolledBack(old(manager.previousTime), now) ==>
              report.deadlines == [] || until <= now
  {
    hide Sorted, Apart, Wrap, RolledBack, Rearmings, Shortens;
    var before := manager.timers;
    var callbacks := manager.GetExpiredCallbacks(now, probe);
    ghost var kept := before[|callbacks|..];
    var fired := before[..|callbacks|];
    assert before == fired + kept;
    assert forall t :: t in fired || t in kept ==> t in before;
    report := Rearmed(Rearmings(fired, now));
    if !old(DueBefore(manager.timers, until)) {
      ExpiryDecides(manager.timers, fired, kept, now, until);
      if report.deadlines != [] {
        SomeRearmed(fired, now);
        assert fired[0] in fired;
      }
    }
  }

  method Perform(manager: TimerManager, op: Op, ghost alive: seq<Timer>, ghost until: nat) returns (report: Report)
    requires manager.Valid() && Housed(manager, alive) && Among(op, alive)
    modifies manager, alive`executeTime, alive`runCycle
    ensures manager.Valid() && Housed(manager, alive)
    ensures !old(DueBefore(manager.timers, until)) ==>
              (DueBefore(manager.timers, until) <==> Shortens(report, until))
  {
    hide Sorted, Apart, DueBefore, Shortens;
    match op
    case Add(timer) => report := PerformAdd(manager, timer, alive, until);
    case Cancel(timer) =>
      report := PerformCancel(manager, timer, alive, until);
      CancelNeverShortens(report, until);
    case Refresh(timer, now) => report := PerformRefresh(manager, timer, now, alive, until);
    case Reset(timer, runCycle, fromNow, now) =>
      report := PerformReset(manager, timer, runCycle, fromNow, now, alive, until);
    case Expire(now, probe) =>
      assert forall i :: 0 <= i < |manager.timers| ==> manager.timers[i] in alive;
      report := PerformExpire(manager, now, probe, alive, until);
  }

  lemma CancelNeverShortens(report: Report, until: nat)
    ensures report.Unmoved? || report.Undefined? ==> !Shortens(report, until)
  {
  }

  // Any run of the manager's operations after a wait was computed: it outlasts a deadline of the set in the end only if
  // some operation put a deadline before its end. An add that does reports "first", and IOManager::addTimer tickles on
  // that; nobody is told of a refresh, a reset or a re-arming.
  method Run(manager: TimerManager, ops: seq<Op>, ghost alive: seq<Timer>, ghost until: nat)
    returns (reports: seq<Report>)
    requires manager.Valid() && Housed(manager, alive) && forall op :: op in ops ==> Among(op, alive)
    modifies manager, alive`executeTime, alive`runCycle
    ensures manager.Valid() && Housed(manager, alive)
    ensures |reports| <= |ops| && (|reports| < |ops| ==> reports != [] && reports[|reports| - 1] == Undefined)
    ensures !old(DueBefore(manager.timers, until)) && DueBefore(manager.timers, until) ==>
              exists i :: 0 <= i < |reports| && Shortens(reports[i], until)
    decreases |ops|
  {
    hide Sorted, Apart, DueBefore, Shortens, Housed;
    reports := [];
    ghost var late := DueBefore(manager.timers, until);
    if ops != [] {
      assert ops[0] in ops;
      var first := Perform(manager, ops[0], alive, until);
      reports := [first];
      ghost var later := DueBefore(manager.timers, until);
      if first != Undefined {
        var more := Run(manager, ops[1..], alive, until);
        reports := [first] + more;
        if !later && DueBefore(manager.timers, until) {
          var i :| 0 <= i < |more| && Shortens(more[i], until);
          assert reports[i + 1] == more[i];
        }
      }
      assert reports[0] == first;
      assert !late && later ==> Shortens(reports[0], until);
    }
  }

  // Resetting a cycle can do that: a wait of 3000 ms computed for a set of one timer outlasts that timer's deadline
  // once its cycle has been reset to less.
  method ResetOutrunsWait(manager: TimerManager, timer: Timer, runCycle: uint64, now: uint64) returns (waiting: nat)
    requires manager.Valid() && manager.timers == [timer] && timer.callback.Some?
    requires now + MAX_TIMEOUT <= timer.executeTime && runCycle < MAX_TIMEOUT
    modifies manager`timers, timer`executeTime, timer`runCycle
    ensures manager.Valid() && waiting == old(WaitBound(manager.TimeUntilNext(now))) == MAX_TIMEOUT
    ensures manager.timers == [timer] && manager.timers[0].executeTime == now + runCycle < now + waiting
    ensures DueBefore(manager.timers, now + waiting)
  {
    hide Sorted, Apart;
    waiting := WaitBound(manager.TimeUntilNext(now));
    var done := manager.ResetRunCycle(timer, runCycle, true, now);
    MovedAmong(manager, [timer], timer);
    assert timer in manager.timers;
  }
}
