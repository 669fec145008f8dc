/** Nobody gets stuck: what a running fiber and a worker can do next, in every state that can be reached. */
module Progress {

  import opened Base
  import opened TaskQueue
  import opened Fibers
  import opened EventTable
  import opened Runtime
  import opened Weave
  import opened Crew
  import opened Safety
  import opened Completion

  // --- running fibers ----------------------------------------------------------------------------------------

  ghost predicate MayReturn(s: State, f: nat, ending: Ending)
    requires f < |s.fibers|
  {
    Possible(s, OnWorker(s.fibers[f].runner, Return(f, ending)))
  }

  // Ordinary code may give its worker back in any way, and do everything else that does not assert.
  lemma CodeGoesOn(s: State, f: nat, ending: Ending, pin: Option<nat>, fd: nat, kind: Kind, timed: bool, retry: bool)
    requires Inv(s) && Executing(s, f) && s.fibers[f].local.User?
    ensures MayReturn(s, f, ending)
    ensures Possible(s, InCode(f, Submit(pin))) && Possible(s, InCode(f, SleepBegin))
    ensures Possible(s, InCode(f, IoBegin(fd, kind, timed, retry))) && Possible(s, InCode(f, StartTimer(timed)))
    ensures Possible(s, InCode(f, Unwatch(fd, kind, timed))) && Possible(s, InCode(f, Settle(fd, kind, timed)))
    ensures Possible(s, InCode(f, SettleAll(fd, timed)))
    ensures Possible(s, InCode(f, Watch(fd, kind, timed))) <==> !Registered(s.io, fd, kind)
  {
    hide AddEvent, DeleteEvent, SettleEvent, SettleAllEvents, Woven, Bits;
    AddResult(s.io, fd, kind, |s.fibers|, timed);
  }

  // A fiber in a hooked call or a callback has its next step, wherever it stands; only a second registration of the
  // same event asserts.
  lemma HookGoesOn(s: State, f: nat, willing: bool)
    requires Inv(s) && Executing(s, f)
    ensures match s.fibers[f].local
            case IoTop(_) => Possible(s, InHook(f, IoReturn)) && Possible(s, InHook(f, IoArm))
            case IoArmed(c, _) =>
              && c < |s.calls|
              && (Possible(s, InHook(f, IoRegister(willing))) <==>
                  !Registered(s.io, s.calls[c].fd, s.calls[c].kind))
            case IoRefused(_, _) => Possible(s, InHook(f, IoCancel))
            case IoRegistered(_, _) => MayReturn(s, f, YieldedHold)
            case IoWoken(_, _) => Possible(s, InHook(f, IoCancel))
            case IoChecked(_) => Possible(s, InHook(f, IoJudge))
            case SleepArmed(_) => MayReturn(s, f, YieldedHold)
            case CallbackStart(t) =>
              && t < |s.timers|
              && (if s.timers[t].callback.WakeFiber? then Possible(s, InHook(f, CallbackWake))
                  else Possible(s, InHook(f, CallbackLock)))
            case CallbackLocked(_) => Possible(s, InHook(f, CallbackSettle(willing)))
            case CallbackDone => MayReturn(s, f, Ending.Finished)
            case User => true
            case _ => false
  {
    hide AddEvent, DeleteEvent, SettleEvent, SettleAllEvents, Bits;
    assert FiberOk(s, f);
    match s.fibers[f].local
    case IoArmed(c, _) => AddResult(s.io, s.calls[c].fd, s.calls[c].kind, f, willing);
    case CallbackStart(t) => assert TimerOk(s, t);
    case CallbackLocked(t) => assert TimerOk(s, t);
    case _ =>
  }

  // So over every run of considerate code a running fiber can go on, unless its next step asserts because the event it
  // is about to wait for is registered already.
  lemma RunningGoesOn(pool: nat, useCaller: bool, steps: seq<Step>, f: nat)
    requires Reaches(pool, useCaller, steps) && Executing(Reached(pool, useCaller, steps), f)
    ensures var s := Reached(pool, useCaller, steps);
            || (exists ending :: MayReturn(s, f, ending))
            || (exists hook :: Possible(s, InHook(f, hook)))
            || (s.fibers[f].local.IoArmed? && s.fibers[f].local.call < |s.calls| &&
                var call := s.calls[s.fibers[f].local.call]; Registered(s.io, call.fd, call.kind))
  {
    hide Possible, Runs, After, IoInv, CrewInv, Registered;
    ReachableInv(pool, useCaller, steps);
    var s := Reached(pool, useCaller, steps);
    assert FiberOk(s, f);
    HookGoesOn(s, f, true);
    if s.fibers[f].local.User? {
      CodeGoesOn(s, f, YieldedReady, None, 0, Read, true, true);
    }
  }

  // --- workers -----------------------------------------------------------------------------------------------

  lemma {:induction false} FirstTakable(s: State, w: nat, i: nat) returns (first: Option<nat>)
    requires i <= |s.io.tasks| && forall j: nat :: j < i ==> !Takable(s, w, j)
    ensures first.Some? ==> Takable(s, w, first.value) && forall j: nat :: j < first.value ==> !Takable(s, w, j)
    ensures first.None? ==> forall j: nat :: !Takable(s, w, j)
    decreases |s.io.tasks| - i
  {
    if i == |s.io.tasks| {
      first := None;
    } else if Takable(s, w, i) {
      first := Some(i);
    } else {
      first := FirstTakable(s, w, i + 1);
    }
  }

  // A worker that does not run a fiber always has a step of its own: until it has exited, and for the caller's thread
  // once the scheduler is stopped.
  lemma WorkerGoesOn(s: State, w: nat)
    requires Inv(s) && w < |s.workers|
    ensures match s.workers[w].phase
            case Exited => true
            case Running(f) => Executing(s, f) && s.fibers[f].runner == w
            case Fresh => Possible(s, Outside(CallerReadsTimers(w))) <==> s.stopped
            case CallerPending => Possible(s, Outside(CallerReadsPending(w)))
            case CallerTasks => Possible(s, Outside(CallerReadsTasks(w)))
            case _ => exists work :: Possible(s, OnWorker(w, work))
  {
    hide Dispatch, NoneEligible, FirstEligible, IoInv;
    match s.workers[w].phase
    case Scanning =>
      var first := FirstTakable(s, w, 0);
      var work := if first.Some? then Take(first.value) else if s.workers[w].idleDone then ExitWorker else EnterIdle;
      ScanningChoice(s, w, work);
      assert Possible(s, OnWorker(w, work));
    case Discarding => assert Possible(s, OnWorker(w, Discard));
    case CheckingTimers => assert Possible(s, OnWorker(w, ReadTimers));
    case CheckingPending => assert Possible(s, OnWorker(w, ReadPending));
    case CheckingTasks => assert Possible(s, OnWorker(w, ReadTasks));
    case Polling => PollingGoesOn(s, w);
    case _ =>
  }

  // It hands on what it has popped, or leaves its idle fiber.
  lemma PollingGoesOn(s: State, w: nat)
    requires InPhase(s, w, Polling)
    ensures exists work :: Possible(s, OnWorker(w, work))
  {
    hide Dispatch, NoneEligible, FirstEligible;
    if t: nat :| t < |s.timers| && OutWith(s.timers[t].place, w) {
      if s.timers[t].place.Lifted? {
        assert Possible(s, OnWorker(w, Rearm(t)));
      } else {
        assert Possible(s, OnWorker(w, Deliver(t)));
      }
    } else {
      assert Possible(s, OnWorker(w, LeaveIdle));
    }
  }
}
