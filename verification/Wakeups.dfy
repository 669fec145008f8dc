/** How a waiting fiber is woken: exactly once, by whom, and what a timeout callback can still do afterwards. */
module Wakeups {

  import opened Base
  import opened TaskQueue
  import opened Fibers
  import opened EventTable
  import opened Runtime
  import opened Weave
  import opened Crew
  import opened Safety

  // --- exactly once ------------------------------------------------------------------------------------------

  predicate Takes(s: State, step: Step, f: nat) {
    && step.OnWorker? && step.work.Take?
    && step.work.index < |s.io.tasks| && s.io.tasks[step.work.index].fiber == f
  }

  // How many entries for the fiber the step puts into the queue.
  ghost function Schedules(s: State, step: Step, f: nat): int
    requires Enabled(s, step)
  {
    Queued(Apply(s, step), f) - Queued(s, f) + (if Takes(s, step, f) then 1 else 0)
  }

  // The same over a run.
  ghost function TotalSchedules(s: State, steps: seq<Step>, f: nat): int
    requires Runs(s, steps)
    decreases |steps|
  {
    if steps == [] then 0
    else Schedules(s, steps[0], f) + TotalSchedules(Apply(s, steps[0]), steps[1..], f)
  }

  // Registered for or parked in the call, with nobody having deleted the event.
  predicate WaitsIn(s: State, f: nat, c: nat) {
    && f < |s.fibers| && c < |s.calls| && !s.calls[c].abandoned
    && match s.fibers[f].local
       case IoRegistered(c', _) => c' == c
       case IoParked(c', _) => c' == c
       case _ => false
  }

  predicate WokenIn(s: State, f: nat, c: nat) {
    f < |s.fibers| && s.fibers[f].local.IoWoken? && s.fibers[f].local.call == c
  }

  // The fiber waits in the call in every state of the run but the last one.
  ghost predicate WaitsThrough(s: State, steps: seq<Step>, f: nat, c: nat)
    requires Runs(s, steps)
    decreases |steps|
  {
    steps == [] || (WaitsIn(s, f, c) && WaitsThrough(Apply(s, steps[0]), steps[1..], f, c))
  }

  lemma OnlyTakeMoves(s: State, w: nat, work: WorkerStep, f: nat, c: nat)
    requires WorkerEnabled(s, w, work) && WaitsIn(s, f, c) && !Dead(s.fibers[f].state)
    requires f !in Busy(s) || s.fibers[f].local.IoRegistered?
    ensures CallsKept(s, ApplyWorker(s, w, work))
    ensures WokenIn(ApplyWorker(s, w, work), f, c) <==>
            Takes(s, OnWorker(w, work), f) && s.fibers[f].local.IoParked?
  {
    hide Dispatch, NoneEligible;
  }

  lemma CodeNeverWakes(s: State, g: nat, code: CodeStep, f: nat, c: nat)
    requires CodeEnabled(s, g, code) && WaitsIn(s, f, c)
    ensures CallsKept(s, ApplyCode(s, g, code)) && !WokenIn(ApplyCode(s, g, code), f, c)
  {
    CodeAlone(s, g, code);
    hide ApplyCode;
  }

  lemma HookNeverWakes(s: State, g: nat, hook: HookStep, f: nat, c: nat)
    requires HookEnabled(s, g, hook) && WaitsIn(s, f, c)
    ensures CallsKept(s, ApplyHook(s, g, hook)) && !WokenIn(ApplyHook(s, g, hook), f, c)
  {
    HookAlone(s, g, hook);
    hide ApplyHook;
  }

  lemma WorkerWakesByTaking(s: State, w: nat, work: WorkerStep, f: nat, c: nat)
    requires Inv(s) && WorkerEnabled(s, w, work) && WaitsIn(s, f, c)
    ensures CallsKept(s, ApplyWorker(s, w, work))
    ensures WokenIn(ApplyWorker(s, w, work), f, c) <==> Takes(s, OnWorker(w, work), f)
  {
    assert FiberOk(s, f);
    hide Inv, FiberOk, ApplyWorker, Eligible, NoneEligible;
    OnlyTakeMoves(s, w, work, f, c);
    if work.Take? {
      TakenIsIdle(s, w, work.index);
    }
  }

  lemma TakenIsIdle(s: State, w: nat, i: nat)
    requires WorkerEnabled(s, w, Take(i))
    ensures s.io.tasks[i].fiber !in Busy(s)
  {
  }

  // Only being taken from the queue wakes a fiber that waits in a call.
  lemma OnlyTakeWakes(s: State, step: Step, f: nat, c: nat)
    requires Inv(s) && Enabled(s, step) && WaitsIn(s, f, c)
    ensures CallsKept(s, Apply(s, step))
    ensures WokenIn(Apply(s, step), f, c) <==> Takes(s, step, f)
  {
    hide Inv, WorkerEnabled, CodeEnabled, HookEnabled, ApplyWorker, ApplyCode, ApplyHook;
    match step
    case OnWorker(w, work) => WorkerWakesByTaking(s, w, work, f, c);
    case InCode(g, code) => CodeNeverWakes(s, g, code, f, c);
    case InHook(g, hook) => HookNeverWakes(s, g, hook, f, c);
    case Outside(outside) =>
  }

  // From the moment of registration the number of times the fiber has been scheduled is 1 minus its event bit.
  lemma {:induction false} ScheduledSoFar(s: State, steps: seq<Step>, f: nat, c: nat)
    requires Inv(s) && Runs(s, steps) && WaitsThrough(s, steps, f, c)
    requires WaitsIn(After(s, steps), f, c)
    ensures TotalSchedules(s, steps, f) == Queued(After(s, steps), f) - Queued(s, f)
    decreases |steps|
  {
    hide Apply, Possible, Considerate, Inv;
    if steps != [] {
      var s1 := Apply(s, steps[0]);
      assert WaitsIn(s1, f, c);
      OnlyTakeWakes(s, steps[0], f, c);
      StepKeepsInv(s, steps[0]);
      ScheduledSoFar(s1, steps[1..], f, c);
    }
  }

  // While it waits, a fiber has been scheduled once if its event is gone and not at all while it is registered.
  lemma AtMostOneWake(s: State, steps: seq<Step>, f: nat, c: nat)
    requires Inv(s) && Runs(s, steps) && WaitsThrough(s, steps, f, c) && WaitsIn(After(s, steps), f, c)
    requires WaitsIn(s, f, c) && Bit(s, f, s.calls[c].fd, s.calls[c].kind)
    ensures var e := After(s, steps);
            TotalSchedules(s, steps, f) == if Bit(e, f, e.calls[c].fd, e.calls[c].kind) then 0 else 1
  {
    ScheduledSoFar(s, steps, f, c);
    RunKeepsInv(s, steps);
    assert FiberOk(s, f);
    assert FiberOk(After(s, steps), f);
  }

  // Every wait in do_io or connect is ended by exactly one schedule of the fiber.
  lemma {:induction false} ExactlyOneWake(s: State, steps: seq<Step>, f: nat, c: nat)
    requires Inv(s) && Runs(s, steps) && WaitsThrough(s, steps, f, c)
    requires WaitsIn(s, f, c) && WokenIn(After(s, steps), f, c)
    ensures TotalSchedules(s, steps, f) == if Bit(s, f, s.calls[c].fd, s.calls[c].kind) then 1 else 0
    ensures |steps| > 0
    decreases |steps|
  {
    assert FiberOk(s, f);
    if |steps| > 0 {
      var s1 := Apply(s, steps[0]);
      OnlyTakeWakes(s, steps[0], f, c);
      StepKeepsInv(s, steps[0]);
      assert FiberOk(s1, f);
      hide Inv, Apply, Possible, Considerate;
      if |steps| == 1 {
        assert After(s1, steps[1..]) == s1;
      } else {
        assert WaitsIn(s1, f, c);
        ExactlyOneWake(s1, steps[1..], f, c);
      }
    }
  }

  // --- timeout callbacks -------------------------------------------------------------------------------------

  // Fiber g runs the callback of timer t for the call and has got past its lock.
  predicate PastLock(s: State, t: int, g: int, c: nat) {
    && 0 <= t < |s.timers| && s.timers[t].callback == TimeoutOf(c) && s.timers[t].place.Held?
    && 0 <= g < |s.fibers| && s.timers[t].place.fiber == g && s.fibers[g].local == CallbackLocked(t)
  }

  lemma AliveIff(s: State, c: nat)
    requires c < |s.calls|
    ensures Alive(s, c) <==> s.calls[c].result.None? || exists t, g :: PastLock(s, t, g, c)
  {
    forall t | 0 <= t < |s.timers| && LockedOn(s, t, c)
      ensures exists t, g :: PastLock(s, t, g, c)
    {
      assert PastLock(s, t, s.timers[t].place.fiber, c);
    }
    forall t, g | PastLock(s, t, g, c)
      ensures LockedOn(s, t, c)
    {
    }
  }

  // The lock of a timeout callback succeeds exactly while the call stands or another callback of it is past its own
  // lock; when it fails, the callback has touched nothing and only ends.
  lemma LockOnlyWhileAlive(s: State, f: nat)
    requires Inv(s) && HookEnabled(s, f, CallbackLock)
    ensures var s' := Apply(s, InHook(f, CallbackLock));
            var c := s.timers[s.fibers[f].local.timer].callback.call;
            && s'.io == s.io
            && (s'.fibers[f].local.CallbackLocked? <==> Alive(s, c))
            && (Alive(s, c) <==> s.calls[c].result.None? || exists t, g :: PastLock(s, t, g, c))
            && (!Alive(s, c) ==>
                  && s'.calls == s.calls && s'.fibers[f].local.CallbackDone?
                  && forall step :: Enabled(s', step) && (step.InCode? || step.InHook?) ==> step.fiber != f)
  {
    hide Alive, LockedOn, PastLock, AddEvent, SettleEvent;
    AliveIff(s, s.timers[s.fibers[f].local.timer].callback.call);
  }

  // A fiber gets past the lock by its own CallbackLock step only.
  lemma LocksAreTaken(s: State, step: Step, k: nat)
    requires Inv(s) && Enabled(s, step) && step != InHook(k, CallbackLock)
    requires k < |Apply(s, step).fibers| && Apply(s, step).fibers[k].local.CallbackLocked?
    ensures k < |s.fibers| && Apply(s, step).fibers[k].local == s.fibers[k].local
  {
    hide Inv, CodeEnabled, HookEnabled, ApplyWorker, ApplyCode, ApplyHook;
    match step
    case OnWorker(w, work) => WorkerLocksNothing(s, w, work, k);
    case InCode(g, code) => CodeLocksNothing(s, g, code, k);
    case InHook(g, hook) => HookLocksNothing(s, g, hook, k);
    case Outside(outside) =>
  }

  lemma WorkerLocksNothing(s: State, w: nat, work: WorkerStep, k: nat)
    requires WorkerEnabled(s, w, work) && k < |ApplyWorker(s, w, work).fibers|
    requires ApplyWorker(s, w, work).fibers[k].local.CallbackLocked?
    ensures k < |s.fibers| && ApplyWorker(s, w, work).fibers[k].local == s.fibers[k].local
  {
    hide Dispatch, NoneEligible;
  }

  lemma CodeLocksNothing(s: State, g: nat, code: CodeStep, k: nat)
    requires CodeEnabled(s, g, code) && k < |ApplyCode(s, g, code).fibers|
    requires ApplyCode(s, g, code).fibers[k].local.CallbackLocked?
    ensures k < |s.fibers| && ApplyCode(s, g, code).fibers[k].local == s.fibers[k].local
  {
    hide AddEvent, DeleteEvent, SettleEvent, SettleAllEvents;
  }

  lemma HookLocksNothing(s: State, g: nat, hook: HookStep, k: nat)
    requires HookEnabled(s, g, hook) && k < |ApplyHook(s, g, hook).fibers| && !(k == g && hook.CallbackLock?)
    requires ApplyHook(s, g, hook).fibers[k].local.CallbackLocked?
    ensures k < |s.fibers| && ApplyHook(s, g, hook).fibers[k].local == s.fibers[k].local
  {
    HookAlone(s, g, hook);
    hide AddEvent, SettleEvent, Alive, CancelTimer;
  }

  // A returned call stays returned, timers keep their callbacks, and a new timer is held by nobody.
  ghost predicate ReturnedKept(s: State, s': State, c: nat) {
    && c < |s'.calls| && s'.calls[c].result.Some?
    && (forall t :: 0 <= t < |s.timers| ==> t < |s'.timers| && s'.timers[t].callback == s.timers[t].callback)
    && (forall t :: |s.timers| <= t < |s'.timers| ==> !s'.timers[t].place.Held?)
  }

  lemma CodeKeepsReturned(s: State, g: nat, code: CodeStep, c: nat)
    requires CodeEnabled(s, g, code) && c < |s.calls| && s.calls[c].result.Some?
    ensures ReturnedKept(s, ApplyCode(s, g, code), c)
  {
    hide AddEvent, DeleteEvent, SettleEvent, SettleAllEvents;
  }

  lemma IoKeepsReturned(s: State, g: nat, hook: HookStep, c: nat)
    requires HookEnabled(s, g, hook) && c < |s.calls| && s.calls[c].result.Some?
    requires hook.IoReturn? || hook.IoArm? || hook.IoRegister?
    ensures ReturnedKept(s, ApplyHook(s, g, hook), c)
  {
    hide AddEvent, SettleEvent, Alive, DoIoCancel, DoIoJudge, DoCallbackWake, DoCallbackLock, DoCallbackSettle;
  }

  lemma JudgeKeepsReturned(s: State, g: nat, hook: HookStep, c: nat)
    requires HookEnabled(s, g, hook) && c < |s.calls| && s.calls[c].result.Some?
    requires hook.IoCancel? || hook.IoJudge?
    ensures ReturnedKept(s, ApplyHook(s, g, hook), c)
  {
    hide AddEvent, SettleEvent, Alive, DoIoArm, DoIoRegister, DoCallbackWake, DoCallbackLock, DoCallbackSettle;
  }

  lemma CallbackKeepsReturned(s: State, g: nat, hook: HookStep, c: nat)
    requires HookEnabled(s, g, hook) && c < |s.calls| && s.calls[c].result.Some?
    requires hook.CallbackWake? || hook.CallbackLock? || hook.CallbackSettle?
    ensures ReturnedKept(s, ApplyHook(s, g, hook), c)
  {
    hide AddEvent, SettleEvent, Alive, DoIoArm, DoIoRegister, DoIoCancel, DoIoJudge;
  }

  lemma HookKeepsReturned(s: State, g: nat, hook: HookStep, c: nat)
    requires HookEnabled(s, g, hook) && c < |s.calls| && s.calls[c].result.Some?
    ensures ReturnedKept(s, ApplyHook(s, g, hook), c)
  {
    hide ApplyHook, ReturnedKept;
    match hook
    case IoReturn => IoKeepsReturned(s, g, hook, c);
    case IoArm => IoKeepsReturned(s, g, hook, c);
    case IoRegister(_) => IoKeepsReturned(s, g, hook, c);
    case IoCancel => JudgeKeepsReturned(s, g, hook, c);
    case IoJudge => JudgeKeepsReturned(s, g, hook, c);
    case _ => CallbackKeepsReturned(s, g, hook, c);
  }

  lemma WorkerKeepsReturned(s: State, w: nat, work: WorkerStep, c: nat)
    requires WorkerEnabled(s, w, work) && c < |s.calls| && s.calls[c].result.Some?
    ensures ReturnedKept(s, ApplyWorker(s, w, work), c)
  {
    hide Dispatch, FirstEligible, NoneEligible;
  }

  lemma Returned(s: State, step: Step, c: nat)
    requires Enabled(s, step) && c < |s.calls| && s.calls[c].result.Some?
    ensures ReturnedKept(s, Apply(s, step), c)
  {
    hide WorkerEnabled, CodeEnabled, HookEnabled, ApplyWorker, ApplyCode, ApplyHook;
    match step
    case OnWorker(w, work) => WorkerKeepsReturned(s, w, work, c);
    case InCode(g, code) => CodeKeepsReturned(s, g, code, c);
    case InHook(g, hook) => HookKeepsReturned(s, g, hook, c);
    case Outside(outside) =>
  }

  // Whoever holds a lock on a returned call held it, or found the call alive, before the step.
  lemma LockedBefore(s: State, step: Step, c: nat, t: nat)
    requires Inv(s) && Enabled(s, step) && c < |s.calls| && s.calls[c].result.Some?
    requires t < |Apply(s, step).timers| && LockedOn(Apply(s, step), t, c)
    ensures Alive(s, c)
  {
    var s' := Apply(s, step);
    Returned(s, step, c);
    hide Apply, Possible, Considerate;
    var k := s'.timers[t].place.fiber;
    if step == InHook(k, CallbackLock) {
      OwnLock(s, k, t);
    } else {
      LocksAreTaken(s, step, k);
      assert FiberOk(s, k);
      assert LockedOn(s, t, c);
    }
  }

  // A call that has returned, with no callback of it past its lock, can never be locked again.
  lemma ReturnedStays(s: State, step: Step, c: nat)
    requires Inv(s) && Enabled(s, step) && c < |s.calls| && !Alive(s, c)
    ensures c < |Apply(s, step).calls| && !Alive(Apply(s, step), c)
  {
    var s' := Apply(s, step);
    Returned(s, step, c);
    hide Apply, Possible, Considerate, Inv;
    forall t | 0 <= t < |s'.timers|
      ensures !LockedOn(s', t, c)
    {
      if LockedOn(s', t, c) {
        LockedBefore(s, step, c, t);
      }
    }
  }

  // A callback that gets past its lock found its call alive.
  lemma OwnLock(s: State, k: nat, t: nat)
    requires Inv(s) && Enabled(s, InHook(k, CallbackLock))
    requires Apply(s, InHook(k, CallbackLock)).fibers[k].local == CallbackLocked(t)
    ensures t < |s.timers| && s.timers[t].callback.TimeoutOf? && s.timers[t].callback.call < |s.calls|
    ensures Alive(s, s.timers[t].callback.call)
  {
  }

  lemma {:induction false} ReturnedForGood(s: State, steps: seq<Step>, c: nat)
    requires Inv(s) && Runs(s, steps) && c < |s.calls| && !Alive(s, c)
    ensures c < |After(s, steps).calls| && !Alive(After(s, steps), c)
    decreases |steps|
  {
    hide Inv, Possible, Considerate, Apply, Alive;
    if steps != [] {
      ReturnedStays(s, steps[0], c);
      StepKeepsInv(s, steps[0]);
      ReturnedForGood(Apply(s, steps[0]), steps[1..], c);
    }
  }

  // Once a call has returned with no callback of it past its lock, none of its leftover callbacks ever sets the flag
  // of a call, changes a registration or schedules a fiber: all that is left for them is to fail at the lock.
  lemma LeftoverCallbackInert(s: State, steps: seq<Step>, c: nat, f: nat)
    requires Inv(s) && Runs(s, steps) && c < |s.calls| && !Alive(s, c)
    requires var e := After(s, steps);
             InCallback(e, f) && e.timers[e.fibers[f].local.timer].callback == TimeoutOf(c)
    ensures var e := After(s, steps);
            && (forall hook :: HookEnabled(e, f, hook) ==> hook == CallbackLock)
            && (HookEnabled(e, f, CallbackLock) ==>
                  var e' := Apply(e, InHook(f, CallbackLock)); e'.io == e.io && e'.calls == e.calls)
            && (forall code :: !CodeEnabled(e, f, code))
  {
    ReturnedForGood(s, steps, c);
    RunKeepsInv(s, steps);
    var e := After(s, steps);
    var t := e.fibers[f].local.timer;
    assert FiberOk(e, f);
    assert !LockedOn(e, t, c);
  }

  lemma SettleTasks(io: Io, fd: nat, kind: Kind, willing: bool)
    requires IoInv(io)
    ensures Registered(io, fd, kind) ==> io.table[fd].Waiter(kind).Some?
    ensures SettleEvent(io, fd, kind, willing).io.tasks == io.tasks +
            if Registered(io, fd, kind) && willing then [Task(io.table[fd].Waiter(kind).value, None)] else []
  {
    if Registered(io, fd, kind) {
      assert io.table[fd].Known();
      assert kind.Read? || kind.Write?;
    }
  }

  // A callback of a call that has returned can change a registration or schedule a fiber exactly when it got past its
  // lock before the call returned, the event is registered again and the kernel lets go of it.
  lemma LeftoverActsIff(s: State, f: nat, c: nat, hook: HookStep)
    requires Inv(s) && HookEnabled(s, f, hook) && InCallback(s, f) && c < |s.calls| && s.calls[c].result.Some?
    requires s.timers[s.fibers[f].local.timer].callback == TimeoutOf(c)
    ensures Apply(s, InHook(f, hook)).io != s.io <==>
            s.fibers[f].local.CallbackLocked? && hook == CallbackSettle(true) &&
            Registered(s.io, s.calls[c].fd, s.calls[c].kind)
  {
    hide CrewInv, Woven, SettleEvent, Alive;
    var call := s.calls[c];
    SettleTasks(s.io, call.fd, call.kind, true);
    SettleTasks(s.io, call.fd, call.kind, false);
    RefusedChangesNothing(s.io, call.fd, call.kind);
  }

  lemma RefusedChangesNothing(io: Io, fd: nat, kind: Kind)
    ensures SettleEvent(io, fd, kind, false).io == io
    ensures !Registered(io, fd, kind) ==> SettleEvent(io, fd, kind, true).io == io
  {
  }

  // ETIMEDOUT comes only out of a call that asked for a timeout and one of whose own timers has fired, its callback
  // having found the call alive.
  lemma TimedOutByOwnTimer(pool: nat, useCaller: bool, steps: seq<Step>, c: nat)
    requires Reaches(pool, useCaller, steps) && c < |Reached(pool, useCaller, steps).calls|
    ensures var s := Reached(pool, useCaller, steps);
            s.calls[c].result == Some(TimedOut) ==>
              && s.calls[c].timed && s.calls[c].flag.Some? && s.calls[c].flag.value < |s.timers|
              && s.timers[s.calls[c].flag.value].callback == TimeoutOf(c)
              && (s.timers[s.calls[c].flag.value].place.Spent? || s.timers[s.calls[c].flag.value].place.Held?)
  {
    ReachableInv(pool, useCaller, steps);
    var s := Reached(pool, useCaller, steps);
    assert CallOk(s, c);
    if s.calls[c].result == Some(TimedOut) {
      assert TimerOk(s, s.calls[c].flag.value);
    }
  }

  // The settle of a timeout callback takes the event away exactly when the kernel lets it, and then a fiber still
  // waiting in that call has its queue entry.
  lemma SettleUnparks(s: State, f: nat, willing: bool)
    requires Inv(s) && HookEnabled(s, f, CallbackSettle(willing))
    ensures var c := s.timers[s.fibers[f].local.timer].callback.call;
            var s' := Apply(s, InHook(f, CallbackSettle(willing)));
            var call := s.calls[c];
            && (Registered(s'.io, call.fd, call.kind) <==> Registered(s.io, call.fd, call.kind) && !willing)
            && (willing && WaitsIn(s', call.fiber, c) ==> Queued(s', call.fiber) == 1)
  {
    var c := s.timers[s.fibers[f].local.timer].callback.call;
    var s' := Apply(s, InHook(f, CallbackSettle(willing)));
    var call := s.calls[c];
    StepKeepsInv(s, InHook(f, CallbackSettle(willing)));
    HookAlone(s, f, CallbackSettle(willing));
    assert Registered(s'.io, call.fd, call.kind) <==> Registered(s.io, call.fd, call.kind) && !willing;
    if WaitsIn(s', call.fiber, c) {
      assert FiberOk(s', call.fiber);
    }
  }

  // Fiber f runs a timeout callback of call c that has found the call standing and is about to settle its event.
  predicate Settling(s: State, f: nat, c: nat) {
    && InCallback(s, f) && s.fibers[f].local.CallbackLocked?
    && s.timers[s.fibers[f].local.timer].callback == TimeoutOf(c)
  }

  // The event of a standing call names that call's fiber only while the fiber waits in the call.
  lemma BitMeansWaiting(s: State, c: nat)
    requires Inv(s) && c < |s.calls| && s.calls[c].result.None? && !s.calls[c].abandoned
    ensures var call := s.calls[c];
            && StandsIn(s, call.fiber, c)
            && (Bit(s, call.fiber, call.fd, call.kind) ==> WaitsIn(s, call.fiber, c))
            && (Bit(s, call.fiber, call.fd, call.kind) || !WaitsIn(s, call.fiber, c) ==> Queued(s, call.fiber) == 0)
            && (!Bit(s, call.fiber, call.fd, call.kind) && WaitsIn(s, call.fiber, c) ==> Queued(s, call.fiber) == 1)
  {
    var call := s.calls[c];
    assert CallOk(s, c);
    assert FiberOk(s, call.fiber);
    if Bit(s, call.fiber, call.fd, call.kind) {
      assert SlotOk(s, call.fd, call.kind);
    }
  }

  // A settling callback schedules the call's fiber exactly when its event is registered and the kernel lets go of it.
  lemma SettleSchedules(s: State, f: nat, c: nat, willing: bool)
    requires Inv(s) && HookEnabled(s, f, CallbackSettle(willing)) && Settling(s, f, c)
    ensures var call := s.calls[c];
            Queued(Apply(s, InHook(f, CallbackSettle(willing))), call.fiber) == Queued(s, call.fiber) +
            if Bit(s, call.fiber, call.fd, call.kind) && willing then 1 else 0
  {
    hide IoInv, CrewInv, Woven, SettleEvent;
    var call := s.calls[c];
    SettleTasks(s.io, call.fd, call.kind, willing);
    assert s.io.tasks + [] == s.io.tasks;
    if Registered(s.io, call.fd, call.kind) {
      CountPush(s.io.tasks, Task(s.io.table[call.fd].Waiter(call.kind).value, None));
    }
  }

  // Nobody puts the fiber into the queue or takes it out.
  ghost predicate LeftAlone(s: State, steps: seq<Step>, g: nat)
    requires Runs(s, steps)
    decreases |steps|
  {
    steps == [] ||
    (Schedules(s, steps[0], g) == 0 && !Takes(s, steps[0], g) && LeftAlone(Apply(s, steps[0]), steps[1..], g))
  }

  lemma {:induction false} LeftAloneQueued(s: State, steps: seq<Step>, g: nat)
    requires Runs(s, steps) && LeftAlone(s, steps, g)
    ensures Queued(After(s, steps), g) == Queued(s, g)
    decreases |steps|
  {
    hide Possible, Considerate, Apply;
    if steps != [] {
      LeftAloneQueued(Apply(s, steps[0]), steps[1..], g);
    }
  }

  // When a timeout callback has settled for a standing call, and over every run in which nobody else touches the fiber,
  // it has left the fiber without a wake-up if and only if the fiber was not waiting in the call, so that there was
  // nothing to settle, or its event was registered and epoll_ctl failed.
  lemma TimeoutLostIff(s: State, f: nat, c: nat, willing: bool, steps: seq<Step>)
    requires Inv(s) && HookEnabled(s, f, CallbackSettle(willing)) && Settling(s, f, c)
    requires s.calls[c].result.None? && !s.calls[c].abandoned
    requires var s' := Apply(s, InHook(f, CallbackSettle(willing)));
             Runs(s', steps) && LeftAlone(s', steps, s.calls[c].fiber)
    ensures var call := s.calls[c];
            var e := After(Apply(s, InHook(f, CallbackSettle(willing))), steps);
            Queued(e, call.fiber) == 0 <==>
              !WaitsIn(s, call.fiber, c) || (Bit(s, call.fiber, call.fd, call.kind) && !willing)
  {
    hide Inv, Runs, After, LeftAlone, ApplyHook;
    BitMeansWaiting(s, c);
    SettleSchedules(s, f, c, willing);
    LeftAloneQueued(Apply(s, InHook(f, CallbackSettle(willing))), steps, s.calls[c].fiber);
  }

  // So when the fiber waits in the call at the end of the run its timeout is lost under just that condition: the event
  // is registered and only epoll, or somebody else, can end the wait.
  lemma LostMeansParked(s: State, f: nat, c: nat, willing: bool, steps: seq<Step>)
    requires Inv(s) && HookEnabled(s, f, CallbackSettle(willing)) && Settling(s, f, c)
    requires s.calls[c].result.None? && !s.calls[c].abandoned
    requires var s' := Apply(s, InHook(f, CallbackSettle(willing)));
             Runs(s', steps) && LeftAlone(s', steps, s.calls[c].fiber) && WaitsIn(After(s', steps), s.calls[c].fiber, c)
    ensures var call := s.calls[c];
            var e := After(Apply(s, InHook(f, CallbackSettle(willing))), steps);
            Bit(e, call.fiber, e.calls[c].fd, e.calls[c].kind) <==>
              !WaitsIn(s, call.fiber, c) || (Bit(s, call.fiber, call.fd, call.kind) && !willing)
  {
    hide Inv, Runs, After, LeftAlone, ApplyHook;
    var s1 := Apply(s, InHook(f, CallbackSettle(willing)));
    TimeoutLostIff(s, f, c, willing, steps);
    StepKeepsInv(s, InHook(f, CallbackSettle(willing)));
    RunKeepsInv(s1, steps);
    WaitingBit(After(s1, steps), s.calls[c].fiber, c);
  }

  lemma WaitingBit(s: State, g: nat, c: nat)
    requires Inv(s) && WaitsIn(s, g, c)
    ensures Bit(s, g, s.calls[c].fd, s.calls[c].kind) <==> Queued(s, g) == 0
  {
    assert FiberOk(s, g);
  }
}
