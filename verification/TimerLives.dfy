/** The timers of the runtime over whole runs: which step makes, pops, schedules, runs or cancels one, and how often. */
module TimerLives {

  import opened Base
  import opened TaskQueue
  import opened Fibers
  import opened EventTable
  import opened Runtime
  import opened Weave
  import opened Crew
  import opened Safety
  import opened Leftovers

  // --- one step ----------------------------------------------------------------------------------------------

  // The timer a step makes, if any: one asked for by the code, by sleep or by a call with a timeout, or the copy that
  // carries the callback of a recurring timer which goes back into the set.
  ghost function Made(s: State, step: Step): Option<Timer>
    requires Possible(s, step)
  {
    match step
    case InCode(_, StartTimer(recurring)) => Some(Timer(UserCallback, recurring, Armed))
    case Outside(OutsideTimer(recurring)) => Some(Timer(UserCallback, recurring, Armed))
    case InCode(f, SleepBegin) => Some(Timer(WakeFiber(f), false, Armed))
    case InHook(f, IoArm) =>
      var c := s.fibers[f].local.call;
      if s.calls[c].timed then Some(Timer(TimeoutOf(c), false, Armed)) else None
    case OnWorker(w, Rearm(t)) => Some(Timer(s.timers[t].callback, false, InFlight(w)))
    case _ => None
  }

  // The step ends the callback fiber's work for the timer.
  ghost predicate RunsOut(s: State, step: Step, t: nat)
    requires Possible(s, step)
  {
    step.InHook? && InCallback(s, step.fiber) && s.fibers[step.fiber].local.timer == t &&
    match step.hook
    case CallbackWake => true
    case CallbackSettle(_) => true
    case CallbackLock => !Alive(s, s.timers[t].callback.call)
    case _ => false
  }

  predicate TakesOut(s: State, step: Step, t: nat) {
    || (step.InCode? && step.code == StopTimer(t))
    || (step.InHook? && step.hook.IoCancel? && InCall(s, step.fiber)
        && (s.fibers[step.fiber].local.IoWoken? || s.fibers[step.fiber].local.IoRefused?)
        && s.fibers[step.fiber].local.armed == Some(t) && t < |s.timers| && s.timers[t].place.Armed?)
  }

  // Where the step leaves a timer that was there.
  ghost function PlaceAfter(s: State, step: Step, t: nat): Place
    requires Possible(s, step) && t < |s.timers|
  {
    if step.OnWorker? && step.work == Pop(t) then
      if s.timers[t].recurring then Lifted(step.worker) else InFlight(step.worker)
    else if step.OnWorker? && step.work == Rearm(t) then Armed
    else if step.OnWorker? && step.work == Deliver(t) then
      if s.timers[t].callback.UserCallback? then Spent else Held(|s.fibers|)
    else if TakesOut(s, step, t) then Cancelled
    else if RunsOut(s, step, t) then Spent
    else s.timers[t].place
  }

  ghost predicate Moves(s: State, step: Step, s': State)
    requires Possible(s, step)
  {
    && |s'.timers| == |s.timers| + (if Made(s, step).Some? then 1 else 0)
    && (Made(s, step).Some? ==> s'.timers[|s.timers|] == Made(s, step).value)
    && (forall t :: 0 <= t < |s.timers| ==> s'.timers[t] == s.timers[t].(place := PlaceAfter(s, step, t)))
  }

  lemma WorkerMovesTimers(s: State, w: nat, work: WorkerStep)
    requires WorkerEnabled(s, w, work)
    ensures Moves(s, OnWorker(w, work), ApplyWorker(s, w, work))
  {
    hide Dispatch, NoneEligible, FirstEligible;
  }

  lemma CodeMovesTimers(s: State, f: nat, code: CodeStep)
    requires CodeEnabled(s, f, code)
    ensures Moves(s, InCode(f, code), ApplyCode(s, f, code))
  {
    hide AddEvent, DeleteEvent, SettleEvent, SettleAllEvents;
  }

  lemma CallMovesTimers(s: State, f: nat, hook: HookStep)
    requires HookEnabled(s, f, hook) && !hook.CallbackWake? && !hook.CallbackLock? && !hook.CallbackSettle?
    ensures Moves(s, InHook(f, hook), ApplyHook(s, f, hook))
  {
    hide AddEvent, SettleEvent, Alive, DoCallbackWake, DoCallbackLock, DoCallbackSettle;
  }

  lemma CallbackMovesTimers(s: State, f: nat, hook: HookStep)
    requires HookEnabled(s, f, hook) && (hook.CallbackWake? || hook.CallbackLock? || hook.CallbackSettle?)
    ensures Moves(s, InHook(f, hook), ApplyHook(s, f, hook))
  {
    hide AddEvent, SettleEvent, Alive, DoIoArm, DoIoRegister, DoIoCancel, DoIoJudge;
  }

  lemma OutsideMovesTimers(s: State, outside: OutsideStep)
    requires OutsideEnabled(s, outside)
    ensures Moves(s, Outside(outside), ApplyOutside(s, outside))
  {
  }

  // What every step does to every timer: nothing but this.
  lemma StepOnTimers(s: State, step: Step)
    requires Possible(s, step)
    ensures Moves(s, step, Apply(s, step))
  {
    hide Moves, WorkerEnabled, CodeEnabled, HookEnabled, ApplyWorker, ApplyCode, ApplyHook;
    match step
    case OnWorker(w, work) => WorkerMovesTimers(s, w, work);
    case InCode(f, code) => CodeMovesTimers(s, f, code);
    case InHook(f, hook) =>
      if hook.CallbackWake? || hook.CallbackLock? || hook.CallbackSettle? {
        CallbackMovesTimers(s, f, hook);
      } else {
        CallMovesTimers(s, f, hook);
      }
    case Outside(outside) => OutsideMovesTimers(s, outside);
  }

  // --- over every run ----------------------------------------------------------------------------------------

  // How often some worker does this in the run.
  function Times(steps: seq<Step>, work: WorkerStep): nat {
    if steps == [] then 0
    else (if steps[0].OnWorker? && steps[0].work == work then 1 else 0) + Times(steps[1..], work)
  }

  // A one-shot timer has been popped, and its callback scheduled.
  function Popped(place: Place): int {
    if place.Armed? || place.Cancelled? then 0 else 1
  }

  function Scheduled(place: Place): int {
    if place.Held? || place.Spent? then 1 else 0
  }

  // A recurring one has been popped and not put back.
  function Away(place: Place): int {
    if place.Lifted? then 1 else 0
  }

  // What the timer is for never changes; of a one-shot each pop and each scheduling shows in its place, of a recurring
  // one the pops that have not been made good yet.
  ghost predicate Counts(s: State, s': State, t: nat, pops: int, rearms: int, deliveries: int) {
    && t < |s.timers| && t < |s'.timers|
    && s'.timers[t].callback == s.timers[t].callback && s'.timers[t].recurring == s.timers[t].recurring
    && if s.timers[t].recurring then
         deliveries == 0 && pops - rearms == Away(s'.timers[t].place) - Away(s.timers[t].place)
       else
         && rearms == 0
         && pops == Popped(s'.timers[t].place) - Popped(s.timers[t].place)
         && deliveries == Scheduled(s'.timers[t].place) - Scheduled(s.timers[t].place)
  }

  lemma StepCounts(s: State, step: Step, t: nat)
    requires Inv(s) && Possible(s, step) && t < |s.timers|
    ensures Counts(s, Apply(s, step), t, Times([step], Pop(t)), Times([step], Rearm(t)), Times([step], Deliver(t)))
  {
    hide IoInv, CrewInv, Apply, FiberOk, CallOk, SlotOk, Alive, AddEvent, Dispatch;
    StepOnTimers(s, step);
    assert TimerOk(s, t);
    assert [step][1..] == [];
    if RunsOut(s, step, t) {
      InOwnCallback(s, step.fiber);
    }
    if step.OnWorker? {
      WorkOnTimer(s, step, t);
    }
  }

  lemma WorkOnTimer(s: State, step: Step, t: nat)
    requires Possible(s, step) && t < |s.timers| && step.OnWorker?
    ensures step.work == Pop(t) ==> s.timers[t].place.Armed?
    ensures step.work == Rearm(t) ==> s.timers[t].place.Lifted?
    ensures step.work == Deliver(t) ==> s.timers[t].place.InFlight?
  {
    hide Dispatch, NoneEligible, FirstEligible;
  }

  // Over every run a one-shot timer that is in the set is popped at most once and its callback scheduled at most once:
  // popped exactly if it ends neither in the set nor cancelled, scheduled exactly if it ends held or run. A recurring
  // timer goes back once for every time it is popped, save a last one under way, and stays what it was.
  lemma {:induction false} TimerOverRun(s: State, steps: seq<Step>, t: nat)
    requires Inv(s) && Runs(s, steps) && t < |s.timers|
    ensures Counts(s, After(s, steps), t, Times(steps, Pop(t)), Times(steps, Rearm(t)), Times(steps, Deliver(t)))
    decreases |steps|
  {
    hide Inv, Possible, Considerate, Apply, Popped, Scheduled, Away;
    if steps != [] {
      StepCounts(s, steps[0], t);
      StepKeepsInv(s, steps[0]);
      TimerOverRun(Apply(s, steps[0]), steps[1..], t);
      assert [steps[0]][1..] == [];
    }
  }

  // Scheduling a popped callback: a new fiber for it at the end of the queue, pinned to nobody.
  lemma CallbackScheduled(s: State, w: nat, t: nat)
    requires WorkerEnabled(s, w, Deliver(t))
    ensures var s' := Apply(s, OnWorker(w, Deliver(t)));
            && s'.io.tasks == s.io.tasks + [Task(|s.fibers|, None)] && |s'.fibers| == |s.fibers| + 1
            && s'.fibers[|s.fibers|] ==
               Fiber(Initialize, if s.timers[t].callback.UserCallback? then Start else CallbackStart(t), 0)
  {
    hide Dispatch;
  }

  // And running it: sleep's callback schedules the sleeper; the timeout's sets the flag and settles the event.
  lemma CallbackRuns(s: State, f: nat, hook: HookStep)
    requires HookEnabled(s, f, hook) && InCallback(s, f)
    ensures var s', t := Apply(s, InHook(f, hook)), s.fibers[f].local.timer;
            match hook
            case CallbackWake =>
              && s'.io.tasks == s.io.tasks + [Task(s.timers[t].callback.fiber, None)]
              && s'.fibers[f].local.CallbackDone? && s'.calls == s.calls
            case CallbackLock =>
              var c := s.timers[t].callback.call;
              && s'.io == s.io
              && (if Alive(s, c) then s'.fibers[f].local == CallbackLocked(t) && s'.calls[c].flag == Some(t)
                  else s'.fibers[f].local.CallbackDone? && s'.calls == s.calls)
            case CallbackSettle(willing) =>
              var call := s.calls[s.timers[t].callback.call];
              && s'.io == SettleEvent(s.io, call.fd, call.kind, willing).io
              && s'.fibers[f].local.CallbackDone? && s'.calls == s.calls
            case _ => true
  {
    hide AddEvent, SettleEvent, Alive, DoIoArm, DoIoRegister, DoIoCancel, DoIoJudge;
  }
}
