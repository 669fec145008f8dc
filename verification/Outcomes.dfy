/** How the calls of do_io and connect_with_timeout go, and which step gives each of them its result. */
module Outcomes {

  import opened Base
  import opened TaskQueue
  import opened EventTable
  import opened Runtime
  import opened Weave
  import opened Crew
  import opened Safety

  // --- the steps that can end a call -------------------------------------------------------------------------

  // The original function did not ask to wait.
  predicate Returns(s: State, step: Step, c: nat) {
    step.InHook? && step.hook.IoReturn? && step.fiber < |s.fibers| && s.fibers[step.fiber].local == IoTop(c)
  }

  // The event could not be registered.
  predicate GivesUp(s: State, step: Step, c: nat) {
    && step.InHook? && step.hook.IoCancel? && step.fiber < |s.fibers|
    && s.fibers[step.fiber].local.IoRefused? && s.fibers[step.fiber].local.call == c
  }

  // The woken call reads its flag.
  predicate Judges(s: State, step: Step, c: nat) {
    step.InHook? && step.hook.IoJudge? && step.fiber < |s.fibers| && s.fibers[step.fiber].local == IoChecked(c)
  }

  predicate Flag(s: State, c: nat)
    requires c < |s.calls|
  {
    s.calls[c].flag.Some?
  }

  // What makes a call end that way: do_io (`retry`) finishes only by the original function's return and fails only on a
  // refused registration; connect goes on to ask the socket after a refusal and after an unflagged wake-up.
  predicate Gives(s: State, step: Step, c: nat, retry: bool, result: Result) {
    c < |s.calls| &&
    match result
    case Finished => Returns(s, step, c) || (!retry && (GivesUp(s, step, c) || (Judges(s, step, c) && !Flag(s, c))))
    case Failed => retry && GivesUp(s, step, c)
    case TimedOut => Judges(s, step, c) && Flag(s, c)
  }

  // What a call is for, and its result unless the step gives it one.
  ghost predicate Ends(s: State, step: Step, s': State) {
    && |s.calls| <= |s'.calls|
    && (forall c :: |s.calls| <= c < |s'.calls| ==> s'.calls[c].result.None?)
    && (forall c :: 0 <= c < |s.calls| ==>
                      && s'.calls[c].fiber == s.calls[c].fiber && s'.calls[c].fd == s.calls[c].fd
                      && s'.calls[c].kind == s.calls[c].kind && s'.calls[c].timed == s.calls[c].timed
                      && s'.calls[c].retry == s.calls[c].retry)
    && (forall c :: 0 <= c < |s.calls| && s'.calls[c].result != s.calls[c].result ==>
                      s'.calls[c].result.Some? && Gives(s, step, c, s.calls[c].retry, s'.calls[c].result.value))
    && (forall c, result :: 0 <= c < |s.calls| && Gives(s, step, c, s.calls[c].retry, result) ==>
                              s'.calls[c].result == Some(result))
  }

  // One call gets the result given, or none does.
  lemma OneEnds(s: State, step: Step, s': State, c: nat, given: Option<Result>)
    requires c < |s.calls|
    requires s'.calls == if given.Some? then s.calls[c := s.calls[c].(result := given)] else s.calls
    requires forall result :: Gives(s, step, c, s.calls[c].retry, result) <==> given == Some(result)
    requires forall d: nat, retry, result :: d != c ==> !Gives(s, step, d, retry, result)
    ensures Ends(s, step, s')
  {
    hide Gives;
  }

  lemma ReturnEnds(s: State, f: nat)
    requires HookEnabled(s, f, IoReturn)
    ensures Ends(s, InHook(f, IoReturn), ApplyHook(s, f, IoReturn))
  {
    hide AddEvent, Alive, DoIoArm, DoIoRegister, DoIoCancel, DoIoJudge, DoCallbackWake, DoCallbackLock;
    hide DoCallbackSettle, Ends;
    OneEnds(s, InHook(f, IoReturn), ApplyHook(s, f, IoReturn), s.fibers[f].local.call, Some(Result.Finished));
  }

  lemma CancelEnds(s: State, f: nat)
    requires HookEnabled(s, f, IoCancel)
    ensures Ends(s, InHook(f, IoCancel), ApplyHook(s, f, IoCancel))
  {
    hide AddEvent, Alive, DoIoArm, DoIoRegister, DoIoJudge, DoCallbackWake, DoCallbackLock, DoCallbackSettle, Ends;
    var c := s.fibers[f].local.call;
    var given := if s.fibers[f].local.IoWoken? then None
                 else if s.calls[c].retry then Some(Failed) else Some(Result.Finished);
    OneEnds(s, InHook(f, IoCancel), ApplyHook(s, f, IoCancel), c, given);
  }

  lemma JudgeEnds(s: State, f: nat)
    requires HookEnabled(s, f, IoJudge)
    ensures Ends(s, InHook(f, IoJudge), ApplyHook(s, f, IoJudge))
  {
    hide AddEvent, Alive, DoIoArm, DoIoRegister, DoIoCancel, DoCallbackWake, DoCallbackLock, DoCallbackSettle, Ends;
    var c := s.fibers[f].local.call;
    var given := if Flag(s, c) then Some(TimedOut) else if s.calls[c].retry then None else Some(Result.Finished);
    OneEnds(s, InHook(f, IoJudge), ApplyHook(s, f, IoJudge), c, given);
  }

  lemma OtherHookEnds(s: State, f: nat, hook: HookStep)
    requires HookEnabled(s, f, hook) && !hook.IoReturn? && !hook.IoCancel? && !hook.IoJudge?
    ensures Ends(s, InHook(f, hook), ApplyHook(s, f, hook))
  {
    hide AddEvent, SettleEvent, Alive, DoIoCancel, DoIoJudge;
  }

  lemma CodeChangesCalls(s: State, f: nat, code: CodeStep)
    requires CodeEnabled(s, f, code)
    ensures var calls := ApplyCode(s, f, code).calls;
            if code.IoBegin? then
              |calls| == |s.calls| + 1 && calls[..|s.calls|] == s.calls && calls[|s.calls|].result.None?
            else if code.Unwatch? then
              calls == s.calls || exists c: nat :: c < |s.calls| && calls == Abandon(s, c).calls
            else calls == s.calls
  {
    hide AddEvent, DeleteEvent, SettleEvent, SettleAllEvents;
  }

  lemma CodeEnds(s: State, f: nat, code: CodeStep)
    requires CodeEnabled(s, f, code)
    ensures Ends(s, InCode(f, code), ApplyCode(s, f, code))
  {
    hide CodeEnabled, ApplyCode;
    CodeChangesCalls(s, f, code);
    var calls := ApplyCode(s, f, code).calls;
    assert code.IoBegin? ==> forall c :: 0 <= c < |s.calls| ==> calls[..|s.calls|][c] == calls[c];
  }

  lemma WorkerEnds(s: State, w: nat, work: WorkerStep)
    requires WorkerEnabled(s, w, work)
    ensures Ends(s, OnWorker(w, work), ApplyWorker(s, w, work))
  {
    hide WorkerEnabled, ApplyWorker;
    WorkerKeepsCalls(s, w, work);
  }

  lemma StepEnds(s: State, step: Step)
    requires Possible(s, step)
    ensures Ends(s, step, Apply(s, step))
  {
    hide Ends, WorkerEnabled, CodeEnabled, HookEnabled, ApplyWorker, ApplyCode, ApplyHook;
    match step
    case OnWorker(w, work) => WorkerEnds(s, w, work);
    case InCode(f, code) => CodeEnds(s, f, code);
    case InHook(f, hook) =>
      if hook.IoReturn? {
        ReturnEnds(s, f);
      } else if hook.IoCancel? {
        CancelEnds(s, f);
      } else if hook.IoJudge? {
        JudgeEnds(s, f);
      } else {
        OtherHookEnds(s, f, hook);
      }
    case Outside(outside) => OutsideEnds(s, outside);
  }

  lemma OutsideEnds(s: State, outside: OutsideStep)
    requires OutsideEnabled(s, outside)
    ensures Ends(s, Outside(outside), ApplyOutside(s, outside))
  {
  }

  // --- over every run ----------------------------------------------------------------------------------------

  // The step of the run at place i gives the call that result.
  ghost predicate GivesAt(s: State, steps: seq<Step>, i: nat, c: nat, retry: bool, result: Result) {
    i < |steps| && FreeRuns(s, steps[..i]) && Gives(FreeAfter(s, steps[..i]), steps[i], c, retry, result)
  }

  lemma GivesLater(s: State, steps: seq<Step>, i: nat, c: nat, retry: bool, result: Result)
    requires FreeRuns(s, steps) && steps != [] && GivesAt(Apply(s, steps[0]), steps[1..], i, c, retry, result)
    ensures GivesAt(s, steps, i + 1, c, retry, result)
  {
    hide Possible, Apply, Gives;
    assert steps[..i + 1][0] == steps[0] && steps[..i + 1][1..] == steps[1..][..i];
  }

  lemma {:induction false} ResultGiven(s: State, steps: seq<Step>, c: nat)
    requires FreeRuns(s, steps) && c < |FreeAfter(s, steps).calls|
    ensures var call := FreeAfter(s, steps).calls[c];
            && (c < |s.calls| ==> call.retry == s.calls[c].retry)
            && (call.result.Some? && !(c < |s.calls| && s.calls[c].result == call.result) ==>
                  exists i: nat :: GivesAt(s, steps, i, c, call.retry, call.result.value))
    decreases |steps|
  {
    hide Possible, Apply, Gives, GivesAt;
    if steps != [] {
      var s1 := Apply(s, steps[0]);
      var call := FreeAfter(s, steps).calls[c];
      StepEnds(s, steps[0]);
      ResultGiven(s1, steps[1..], c);
      if call.result.Some? && !(c < |s.calls| && s.calls[c].result == call.result) {
        if c < |s1.calls| && s1.calls[c].result == call.result {
          GivesNow(s, steps, c, call.retry, call.result.value);
        } else {
          var i: nat :| GivesAt(s1, steps[1..], i, c, call.retry, call.result.value);
          GivesLater(s, steps, i, c, call.retry, call.result.value);
        }
      }
    }
  }

  lemma GivesNow(s: State, steps: seq<Step>, c: nat, retry: bool, result: Result)
    requires steps != [] && Gives(s, steps[0], c, retry, result)
    ensures GivesAt(s, steps, 0, c, retry, result)
  {
    hide Gives;
  }

  // Over every run: a call has a result only because a step of the run gave it that one.
  lemma EveryResultIsGiven(pool: nat, useCaller: bool, steps: seq<Step>, c: nat)
    requires ReachesFreely(pool, useCaller, steps) && c < |ReachedFreely(pool, useCaller, steps).calls|
    ensures var call := ReachedFreely(pool, useCaller, steps).calls[c];
            call.result.Some? ==>
              exists i: nat :: GivesAt(InitState(pool, useCaller), steps, i, c, call.retry, call.result.value)
  {
    hide FreeRuns, FreeAfter, GivesAt;
    ResultGiven(InitState(pool, useCaller), steps, c);
  }

  // In particular a do_io call finishes only where the original function, tried again each time, returns.
  lemma FinishesByReturning(pool: nat, useCaller: bool, steps: seq<Step>, c: nat)
    requires ReachesFreely(pool, useCaller, steps) && c < |ReachedFreely(pool, useCaller, steps).calls|
    requires var call := ReachedFreely(pool, useCaller, steps).calls[c];
             call.retry && call.result == Some(Result.Finished)
    ensures exists i: nat :: i < |steps| && ReachesFreely(pool, useCaller, steps[..i]) &&
                             Returns(ReachedFreely(pool, useCaller, steps[..i]), steps[i], c)
  {
    hide FreeRuns, FreeAfter, Returns;
    EveryResultIsGiven(pool, useCaller, steps, c);
    var i: nat :| GivesAt(InitState(pool, useCaller), steps, i, c, true, Result.Finished);
  }

  // --- the way through a call --------------------------------------------------------------------------------

  // A call begins before the original function, as it was asked for.
  lemma CallBegins(s: State, f: nat, fd: nat, kind: Kind, timed: bool, retry: bool)
    requires CodeEnabled(s, f, IoBegin(fd, kind, timed, retry))
    ensures var s' := Apply(s, InCode(f, IoBegin(fd, kind, timed, retry)));
            && s'.calls == s.calls + [Call(f, fd, kind, timed, retry, None, None, false)]
            && s'.fibers[f].local == IoTop(|s.calls|)
            && s'.io == s.io && s'.timers == s.timers
  {
  }

  // From there it returns, or arms a timer if it has a timeout and then registers for the event.
  lemma CallArms(s: State, f: nat, c: nat)
    requires HookEnabled(s, f, IoArm) && s.fibers[f].local == IoTop(c)
    ensures var s' := Apply(s, InHook(f, IoArm));
            && (if s.calls[c].timed
                then s'.timers == s.timers + [Timer(TimeoutOf(c), false, Armed)] &&
                     s'.fibers[f].local == IoArmed(c, Some(|s.timers|))
                else s'.timers == s.timers && s'.fibers[f].local == IoArmed(c, None))
            && s'.io == s.io && s'.calls == s.calls
  {
    hide AddEvent, SettleEvent, Alive;
  }

  lemma CallRegisters(s: State, f: nat, c: nat, armed: Option<nat>, willing: bool)
    requires IoInv(s.io) && HookEnabled(s, f, IoRegister(willing)) && s.fibers[f].local == IoArmed(c, armed)
    ensures var s', call := Apply(s, InHook(f, IoRegister(willing))), s.calls[c];
            var others := if call.fd < |s.io.table| then s.io.table[call.fd].registered else {};
            && s'.calls == s.calls && s'.timers == s.timers
            && s'.fibers[f].local ==
               (if willing && (others != {} || call.fd !in s.io.epoll) then IoRegistered(c, armed)
                else IoRefused(c, armed))
            && (s'.fibers[f].local.IoRegistered? ==>
                  && call.fd < |s'.io.table| && s'.io.table[call.fd].registered == others + {call.kind}
                  && s'.io.table[call.fd].Waiter(call.kind) == Some(f))
            && (s'.fibers[f].local.IoRefused? && call.fd < |s.io.table| ==> s'.io.table == s.io.table)
  {
    hide AddEvent, SettleEvent, Alive, IoInv;
    var call := s.calls[c];
    AddResult(s.io, call.fd, call.kind, f, willing);
    if call.fd < |s.io.table| {
      RefusedTable(s.io, call.fd, call.kind, f, willing);
    }
  }

  lemma RefusedTable(io: Io, fd: nat, kind: Kind, fiber: nat, willing: bool)
    requires |io.table| >= INITIAL_SLOTS && fd < |io.table|
    ensures AddEvent(io, fd, kind, fiber, willing).Refused? ==>
              AddEvent(io, fd, kind, fiber, willing).io.table == io.table
  {
  }

  // A refused registration ends do_io with a failure and sends connect on to the socket's own error; a woken call goes
  // on to its flag.
  lemma CallCancels(s: State, f: nat, c: nat, armed: Option<nat>)
    requires HookEnabled(s, f, IoCancel) && c < |s.calls|
    ensures s.fibers[f].local == IoRefused(c, armed) ==>
              var s' := Apply(s, InHook(f, IoCancel));
              && s'.fibers[f].local.User?
              && s'.calls[c].result == Some(if s.calls[c].retry then Failed else Result.Finished)
    ensures s.fibers[f].local == IoWoken(c, armed) ==>
              var s' := Apply(s, InHook(f, IoCancel)); s'.fibers[f].local == IoChecked(c) && s'.calls == s.calls
    ensures var s' := Apply(s, InHook(f, IoCancel)); s'.io == s.io
  {
    hide AddEvent, SettleEvent, Alive;
  }

  // With the flag set it returns ETIMEDOUT; without, do_io stands before the original function again, its call still
  // standing, and connect ends with the socket's own error.
  lemma CallJudges(s: State, f: nat, c: nat)
    requires HookEnabled(s, f, IoJudge) && s.fibers[f].local == IoChecked(c)
    ensures var s', call := Apply(s, InHook(f, IoJudge)), s.calls[c];
            && (call.flag.Some? ==> s'.fibers[f].local.User? && s'.calls[c].result == Some(TimedOut))
            && (call.flag.None? && call.retry ==> s'.fibers[f].local == IoTop(c) && s'.calls == s.calls)
            && (call.flag.None? && !call.retry ==>
                  s'.fibers[f].local.User? && s'.calls[c].result == Some(Result.Finished))
            && s'.io == s.io && s'.timers == s.timers
    ensures Inv(s) ==> s.calls[c].result.None?
  {
    hide AddEvent, SettleEvent, Alive, IoInv, CrewInv;
    if Inv(s) {
      assert FiberOk(s, f);
    }
  }

  // Where a fiber can come to stand before the original function: at the start of a call, or at an unflagged judge of a
  // do_io call.
  predicate Reenters(s: State, step: Step, g: nat, c: nat) {
    && c < |s.calls| && s.calls[c].retry && !Flag(s, c)
    && Judges(s, step, c) && step.fiber == g
  }

  ghost predicate TopKept(s: State, step: Step, s': State) {
    forall g, c :: 0 <= g < |s'.fibers| && 0 <= c && s'.fibers[g].local == IoTop(c) && c < |s.calls| ==>
                     (g < |s.fibers| && s.fibers[g].local == IoTop(c)) || Reenters(s, step, g, c)
  }

  lemma StepKeepsTop(s: State, step: Step)
    requires Possible(s, step)
    ensures TopKept(s, step, Apply(s, step))
  {
    hide TopKept, WorkerEnabled, CodeEnabled, HookEnabled, ApplyWorker, ApplyCode, ApplyHook;
    match step
    case OnWorker(w, work) => WorkerKeepsTop(s, w, work);
    case InCode(f, code) => CodeKeepsTop(s, f, code);
    case InHook(f, hook) => HookKeepsTop(s, f, hook);
    case Outside(outside) => OutsideKeepsTop(s, outside);
  }

  lemma WorkerKeepsTop(s: State, w: nat, work: WorkerStep)
    requires WorkerEnabled(s, w, work)
    ensures TopKept(s, OnWorker(w, work), ApplyWorker(s, w, work))
  {
    hide Dispatch, NoneEligible, Eligible;
  }

  lemma CodeKeepsTop(s: State, f: nat, code: CodeStep)
    requires CodeEnabled(s, f, code)
    ensures TopKept(s, InCode(f, code), ApplyCode(s, f, code))
  {
    CodeAlone(s, f, code);
    hide AddEvent, DeleteEvent, SettleEvent, SettleAllEvents;
  }

  lemma HookKeepsTop(s: State, f: nat, hook: HookStep)
    requires HookEnabled(s, f, hook)
    ensures TopKept(s, InHook(f, hook), ApplyHook(s, f, hook))
  {
    HookAlone(s, f, hook);
    hide AddEvent, SettleEvent, Alive, CancelTimer;
  }

  lemma OutsideKeepsTop(s: State, outside: OutsideStep)
    requires OutsideEnabled(s, outside)
    ensures TopKept(s, Outside(outside), ApplyOutside(s, outside))
  {
  }

  predicate AtTop(s: State, c: nat) {
    exists f :: 0 <= f < |s.fibers| && s.fibers[f].local == IoTop(c)
  }

  // Over every run: once a connect has gone past the original function, it never stands before it again.
  lemma {:induction false} ConnectTriesOnce(s: State, steps: seq<Step>, c: nat)
    requires FreeRuns(s, steps) && c < |s.calls| && !s.calls[c].retry && !AtTop(s, c)
    ensures !AtTop(FreeAfter(s, steps), c)
    decreases |steps|
  {
    hide Possible, Apply;
    if steps != [] {
      StepEnds(s, steps[0]);
      StepKeepsTop(s, steps[0]);
      ConnectTriesOnce(Apply(s, steps[0]), steps[1..], c);
    }
  }

  lemma ArmingLeavesTop(s: State, f: nat, c: nat)
    requires Inv(s) && HookEnabled(s, f, IoArm) && s.fibers[f].local == IoTop(c)
    ensures c < |s.calls| && !AtTop(Apply(s, InHook(f, IoArm)), c)
    ensures Apply(s, InHook(f, IoArm)).calls == s.calls
  {
    var s' := Apply(s, InHook(f, IoArm));
    CallArms(s, f, c);
    HookAlone(s, f, IoArm);
    hide ApplyHook, IoInv, CrewInv;
    assert FiberOk(s, f);
    forall g | 0 <= g < |s'.fibers|
      ensures s'.fibers[g].local != IoTop(c)
    {
      if g < |s.fibers| && g != f {
        assert FiberOk(s, g);
      }
    }
  }

  // So a connect that has seen EINPROGRESS and gone on to wait asks no second time, whatever happens.
  lemma ConnectWaitsOnce(s: State, f: nat, c: nat, steps: seq<Step>)
    requires Inv(s) && HookEnabled(s, f, IoArm) && s.fibers[f].local == IoTop(c)
    requires c < |s.calls| && !s.calls[c].retry && FreeRuns(Apply(s, InHook(f, IoArm)), steps)
    ensures !AtTop(FreeAfter(Apply(s, InHook(f, IoArm)), steps), c)
  {
    hide Inv, FreeRuns, FreeAfter, Apply;
    ArmingLeavesTop(s, f, c);
    ConnectTriesOnce(Apply(s, InHook(f, IoArm)), steps, c);
  }
}
