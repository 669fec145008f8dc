/** What a returned call leaves behind: no timer in the set, and the outcome its flag decided. */
module Leftovers {

  import opened Base
  import opened TaskQueue
  import opened Fibers
  import opened EventTable
  import opened Runtime
  import opened Weave
  import opened Crew
  import opened Safety

  // The place in a call's code from which it is still to cancel the timer.
  predicate HoldsTimer(local: Local, c: nat, t: nat) {
    match local
    case IoArmed(c', armed) => c' == c && armed == Some(t)
    case IoRefused(c', armed) => c' == c && armed == Some(t)
    case IoRegistered(c', armed) => c' == c && armed == Some(t)
    case IoParked(c', armed) => c' == c && armed == Some(t)
    case IoWoken(c', armed) => c' == c && armed == Some(t)
    case _ => false
  }

  predicate OwnedBy(s: State, t: nat, c: nat) {
    && c < |s.calls| && s.calls[c].fiber < |s.fibers|
    && HoldsTimer(s.fibers[s.calls[c].fiber].local, c, t)
  }

  predicate TimerFor(s: State, t: nat, c: nat) {
    t < |s.timers| && s.timers[t].callback == TimeoutOf(c)
  }

  // The call's cancelTimer on its timer.
  predicate Cancels(s: State, step: Step, t: nat, c: nat) {
    && step.InHook? && step.hook.IoCancel? && step.fiber < |s.fibers|
    && HoldsTimer(s.fibers[step.fiber].local, c, t)
  }

  // All a step does to a call's hold on its timers: only cancelTimer ends it, and takes the timer out of the set; a new
  // timer is held by its call; a cancelled one stays so, and none comes back into the set.
  ghost predicate HandsOn(s: State, step: Step, s': State) {
    && (forall t: nat, c: nat :: OwnedBy(s, t, c) ==> OwnedBy(s', t, c) || Cancels(s, step, t, c))
    && (forall t: nat, c: nat :: TimerFor(s', t, c) ==> TimerFor(s, t, c) || OwnedBy(s', t, c))
    && (forall t: nat, c: nat :: TimerFor(s', t, c) && TimerFor(s, t, c) ==>
                                   && (s.timers[t].place.Cancelled? ==> s'.timers[t].place.Cancelled?)
                                   && (s'.timers[t].place.Armed? ==> s.timers[t].place.Armed?)
                                   && (Cancels(s, step, t, c) ==> !s'.timers[t].place.Armed?)
                                   && (Cancels(s, step, t, c) && s.timers[t].place.Armed? ==>
                                         s'.timers[t].place.Cancelled?))
  }

  // A fiber keeps its timer when it is taken and when it gives its worker back.
  lemma StillHolds(local: Local, ending: Ending)
    ensures forall t: nat, c: nat :: HoldsTimer(local, c, t) ==> HoldsTimer(Resumed(local), c, t)
    ensures MayEnd(local, ending) ==>
              forall t: nat, c: nat :: HoldsTimer(local, c, t) ==> HoldsTimer(Parked(local, ending), c, t)
  {
  }

  lemma TurnHandsOn(s: State, w: nat, work: WorkerStep)
    requires WorkerEnabled(s, w, work) && (work.Take? || work.Return?)
    ensures HandsOn(s, OnWorker(w, work), ApplyWorker(s, w, work))
  {
    hide Dispatch, NoneEligible, Eligible, HoldsTimer, Resumed, Parked, MayEnd;
    if work.Take? {
      StillHolds(s.fibers[s.io.tasks[work.index].fiber].local, YieldedHold);
    } else {
      StillHolds(s.fibers[work.fiber].local, work.ending);
    }
  }

  lemma PopHandsOn(s: State, w: nat, t: nat)
    requires WorkerEnabled(s, w, Pop(t))
    ensures HandsOn(s, OnWorker(w, Pop(t)), DoPop(s, w, t))
  {
    hide Dispatch, NoneEligible, FirstEligible, HoldsTimer;
  }

  lemma RearmHandsOn(s: State, w: nat, t: nat)
    requires WorkerEnabled(s, w, Rearm(t)) && TimerOk(s, t)
    ensures HandsOn(s, OnWorker(w, Rearm(t)), DoRearm(s, w, t))
  {
    hide Dispatch, NoneEligible, FirstEligible, HoldsTimer, SleepsOn;
  }

  lemma DeliverHandsOn(s: State, w: nat, t: nat)
    requires WorkerEnabled(s, w, Deliver(t))
    ensures HandsOn(s, OnWorker(w, Deliver(t)), DoDeliver(s, t))
  {
    hide Dispatch, NoneEligible, FirstEligible, HoldsTimer;
  }

  lemma IdleHandsOn(s: State, w: nat, work: WorkerStep)
    requires Woven(s) && WorkerEnabled(s, w, work) && !work.Take? && !work.Return?
    ensures HandsOn(s, OnWorker(w, work), ApplyWorker(s, w, work))
  {
    hide Dispatch, NoneEligible, FirstEligible, HoldsTimer, DoTake, DoReturn, DoPop, DoRearm, DoDeliver, TimerOk;
    match work
    case Pop(t) => PopHandsOn(s, w, t);
    case Rearm(t) => RearmHandsOn(s, w, t);
    case Deliver(t) => DeliverHandsOn(s, w, t);
    case _ =>
  }

  lemma CodeHandsOn(s: State, f: nat, code: CodeStep)
    requires CodeEnabled(s, f, code)
    ensures HandsOn(s, InCode(f, code), ApplyCode(s, f, code))
  {
    CodeAlone(s, f, code);
    hide AddEvent, DeleteEvent, SettleEvent, SettleAllEvents;
    var s' := ApplyCode(s, f, code);
    assert forall c :: 0 <= c < |s.calls| ==> s'.calls[c].fiber == s.calls[c].fiber;
    assert forall t :: 0 <= t < |s'.timers| && s'.timers[t].callback.TimeoutOf? ==> TimerKept(s, s', t);
    hide ApplyCode;
  }

  lemma InOwnCall(s: State, f: nat)
    requires Woven(s) && InCall(s, f)
    ensures s.calls[s.fibers[f].local.call].fiber == f
  {
    assert FiberOk(s, f);
  }

  lemma InOwnCallback(s: State, f: nat)
    requires Woven(s) && InCallback(s, f)
    ensures s.timers[s.fibers[f].local.timer].place == Held(f)
  {
    assert FiberOk(s, f);
  }

  // A step inside a call or a callback.
  lemma IoHandsOn(s: State, f: nat, hook: HookStep)
    requires Woven(s) && HookEnabled(s, f, hook) && (hook.IoReturn? || hook.IoArm? || hook.IoRegister?)
    ensures HandsOn(s, InHook(f, hook), ApplyHook(s, f, hook))
  {
    hide Woven, AddEvent, DoIoCancel, DoIoJudge, DoCallbackWake, DoCallbackLock, DoCallbackSettle;
    IoStepAlone(s, f, hook);
    InOwnCall(s, f);
  }

  lemma CancelHandsOn(s: State, f: nat)
    requires HookEnabled(s, f, IoCancel)
    ensures HandsOn(s, InHook(f, IoCancel), ApplyHook(s, f, IoCancel))
  {
    hide Alive, DoIoArm, DoIoRegister, DoIoJudge, DoCallbackWake, DoCallbackLock, DoCallbackSettle;
    var s' := ApplyHook(s, f, IoCancel);
    var armed := s.fibers[f].local.armed;
    assert s'.timers == CancelTimer(s, armed).timers;
    assert forall g :: 0 <= g < |s.fibers| && g != f ==> s'.fibers[g] == s.fibers[g];
    assert forall c :: 0 <= c < |s.calls| ==> s'.calls[c].fiber == s.calls[c].fiber;
    hide DoIoCancel, EndCall, ApplyHook;
  }

  lemma JudgeHandsOn(s: State, f: nat)
    requires HookEnabled(s, f, IoJudge)
    ensures HandsOn(s, InHook(f, IoJudge), ApplyHook(s, f, IoJudge))
  {
    JudgeStepAlone(s, f);
    hide DoIoCancel;
  }

  lemma CallbackHandsOn(s: State, f: nat, hook: HookStep)
    requires Woven(s) && HookEnabled(s, f, hook)
    requires hook.CallbackWake? || hook.CallbackLock? || hook.CallbackSettle?
    ensures HandsOn(s, InHook(f, hook), ApplyHook(s, f, hook))
  {
    hide Woven, AddEvent, SettleEvent, Alive, DoIoArm, DoIoRegister, DoIoCancel, DoIoJudge;
    CallbackStepAlone(s, f, hook);
    InOwnCallback(s, f);
  }

  lemma OutsideHandsOn(s: State, outside: OutsideStep)
    requires OutsideEnabled(s, outside)
    ensures HandsOn(s, Outside(outside), ApplyOutside(s, outside))
  {
  }

  lemma StepHandsOn(s: State, step: Step)
    requires Woven(s) && Possible(s, step)
    ensures HandsOn(s, step, Apply(s, step))
  {
    hide HandsOn, Woven, WorkerEnabled, CodeEnabled, ApplyWorker, ApplyCode, ApplyHook;
    match step
    case OnWorker(w, work) =>
      if work.Take? || work.Return? {
        TurnHandsOn(s, w, work);
      } else {
        IdleHandsOn(s, w, work);
      }
    case InCode(f, code) => CodeHandsOn(s, f, code);
    case InHook(f, hook) =>
      if hook.IoReturn? || hook.IoArm? || hook.IoRegister? {
        IoHandsOn(s, f, hook);
      } else if hook.IoCancel? {
        CancelHandsOn(s, f);
      } else if hook.IoJudge? {
        JudgeHandsOn(s, f);
      } else {
        CallbackHandsOn(s, f, hook);
      }
    case Outside(outside) => OutsideHandsOn(s, outside);
  }

  // --- the set -----------------------------------------------------------------------------------------------

  predicate ArmedFor(s: State, t: nat, c: nat) {
    TimerFor(s, t, c) && s.timers[t].place.Armed?
  }

  // Every timeout timer in the set belongs to a call that is still to cancel it.
  ghost predicate Owned(s: State) {
    forall t: nat, c: nat :: ArmedFor(s, t, c) ==> OwnedBy(s, t, c)
  }

  lemma StepKeepsOwned(s: State, step: Step)
    requires Inv(s) && Owned(s) && Enabled(s, step)
    ensures Owned(Apply(s, step))
  {
    hide Woven, IoInv, CrewInv, Possible, Considerate, Apply, OwnedBy, Cancels;
    StepHandsOn(s, step);
    var s' := Apply(s, step);
    forall t: nat, c: nat | ArmedFor(s', t, c)
      ensures OwnedBy(s', t, c)
    {
      assert TimerFor(s', t, c);
      assert TimerFor(s, t, c) ==> ArmedFor(s, t, c);
    }
  }

  lemma {:induction false} RunKeepsOwned(s: State, steps: seq<Step>)
    requires Inv(s) && Owned(s) && Runs(s, steps)
    ensures Owned(After(s, steps))
    decreases |steps|
  {
    hide Inv, Owned, Possible, Considerate, Apply;
    if steps != [] {
      StepKeepsOwned(s, steps[0]);
      StepKeepsInv(s, steps[0]);
      RunKeepsOwned(Apply(s, steps[0]), steps[1..]);
    }
  }

  lemma OwnerStands(s: State, t: nat, c: nat)
    requires Woven(s) && Owned(s) && ArmedFor(s, t, c)
    ensures c < |s.calls| && s.calls[c].result.None?
  {
    assert OwnedBy(s, t, c);
    assert FiberOk(s, s.calls[c].fiber);
  }

  lemma ReachableOwned(pool: nat, useCaller: bool, steps: seq<Step>)
    requires Reaches(pool, useCaller, steps)
    ensures Owned(Reached(pool, useCaller, steps))
  {
    hide Inv, Possible, Considerate, Apply, OwnedBy;
    assert Runs(InitState(pool, useCaller), []);
    ReachableInv(pool, useCaller, []);
    RunKeepsOwned(InitState(pool, useCaller), steps);
  }

  // A returned call has no timer left in the set: each was cancelled by the call or had already been popped.
  lemma NoTimerOutlivesItsCall(pool: nat, useCaller: bool, steps: seq<Step>, t: nat, c: nat)
    requires Reaches(pool, useCaller, steps)
    ensures var s := Reached(pool, useCaller, steps);
            ArmedFor(s, t, c) ==> c < |s.calls| && s.calls[c].result.None?
  {
    hide Runs, After, Woven, IoInv, CrewInv, Owned;
    ReachableOwned(pool, useCaller, steps);
    ReachableInv(pool, useCaller, steps);
    var s := Reached(pool, useCaller, steps);
    if ArmedFor(s, t, c) {
      OwnerStands(s, t, c);
    }
  }

  // --- the end iterator --------------------------------------------------------------------------------------

  // The call cancels a timer that is no longer in the set: the source erases the end iterator.
  predicate ErasesEnd(s: State, step: Step, c: nat) {
    exists t :: 0 <= t < |s.timers| && !s.timers[t].place.Armed? && Cancels(s, step, t, c)
  }

  ghost predicate EverErasesEnd(s: State, steps: seq<Step>, c: nat)
    requires Runs(s, steps)
    decreases |steps|
  {
    steps != [] && (ErasesEnd(s, steps[0], c) || EverErasesEnd(Apply(s, steps[0]), steps[1..], c))
  }

  // Each timer the call ever had is the one it holds, or was cancelled while it was still in the set.
  ghost predicate Tidy(s: State, c: nat) {
    forall t: nat :: TimerFor(s, t, c) ==> s.timers[t].place.Cancelled? || OwnedBy(s, t, c)
  }

  lemma StepKeepsTidy(s: State, step: Step, c: nat)
    requires Inv(s) && Tidy(s, c) && Enabled(s, step) && !ErasesEnd(s, step, c)
    ensures Tidy(Apply(s, step), c)
  {
    hide Woven, IoInv, CrewInv, Possible, Considerate, Apply, OwnedBy, Cancels;
    StepHandsOn(s, step);
    var s' := Apply(s, step);
    forall t: nat | TimerFor(s', t, c)
      ensures s'.timers[t].place.Cancelled? || OwnedBy(s', t, c)
    {
      assert TimerFor(s, t, c) || OwnedBy(s', t, c);
    }
  }

  lemma {:induction false} RunKeepsTidy(s: State, steps: seq<Step>, c: nat)
    requires Inv(s) && Tidy(s, c) && Runs(s, steps) && !EverErasesEnd(s, steps, c)
    ensures Tidy(After(s, steps), c)
    decreases |steps|
  {
    hide Inv, Tidy, ErasesEnd, Possible, Considerate, Apply;
    if steps != [] {
      StepKeepsTidy(s, steps[0], c);
      StepKeepsInv(s, steps[0]);
      RunKeepsTidy(Apply(s, steps[0]), steps[1..], c);
    }
  }

  // A call that has returned holds no timer, and a flag is the mark of a timer that fired.
  lemma TidyNeverTimesOut(s: State, c: nat)
    requires Inv(s) && Tidy(s, c) && c < |s.calls| && s.calls[c].result.Some?
    ensures s.calls[c].flag.None?
  {
    hide IoInv, CrewInv, Waits, Sleeps, Carries;
    assert CallOk(s, c);
    if s.calls[c].flag.Some? {
      var t := s.calls[c].flag.value;
      assert TimerFor(s, t, c);
      assert OwnedBy(s, t, c);
      assert FiberOk(s, s.calls[c].fiber);
    }
  }

  // So every ETIMEDOUT the library returns has been through an erase of the end iterator.
  lemma TimedOutErasesEnd(pool: nat, useCaller: bool, steps: seq<Step>, c: nat)
    requires Reaches(pool, useCaller, steps) && c < |Reached(pool, useCaller, steps).calls|
    ensures Reached(pool, useCaller, steps).calls[c].result == Some(TimedOut) ==>
              EverErasesEnd(InitState(pool, useCaller), steps, c)
  {
    hide Woven, IoInv, CrewInv, EverErasesEnd, Runs, After;
    var s := InitState(pool, useCaller);
    var e := Reached(pool, useCaller, steps);
    ReachableInv(pool, useCaller, steps);
    if e.calls[c].result == Some(TimedOut) && !EverErasesEnd(s, steps, c) {
      InitInv(pool, useCaller);
      RunKeepsTidy(s, steps, c);
      TidyNeverTimesOut(e, c);
      TimedOutFlagged(e, c);
    }
  }

  lemma TimedOutFlagged(s: State, c: nat)
    requires Woven(s) && c < |s.calls| && s.calls[c].result == Some(TimedOut)
    ensures s.calls[c].flag.Some?
  {
    assert CallOk(s, c);
  }

  // And whichever call cancels the timer that set its flag does it.
  lemma FlaggedCancelErasesEnd(s: State, f: nat, c: nat, t: nat)
    requires Inv(s) && HookEnabled(s, f, IoCancel) && HoldsTimer(s.fibers[f].local, c, t)
    requires c < |s.calls| && s.calls[c].flag == Some(t)
    ensures ErasesEnd(s, InHook(f, IoCancel), c)
  {
    assert CallOk(s, c);
  }

  // --- the flag ----------------------------------------------------------------------------------------------

  predicate Flagged(s: State, c: nat) {
    c < |s.calls| && s.calls[c].flag.Some?
  }

  lemma FlagStays(s: State, step: Step, c: nat)
    requires Enabled(s, step) && Flagged(s, c)
    ensures Flagged(Apply(s, step), c)
  {
    hide ApplyWorker, ApplyCode, ApplyHook;
    match step
    case OnWorker(w, work) => WorkerKeepsCalls(s, w, work);
    case InCode(f, code) => CodeAlone(s, f, code);
    case InHook(f, hook) => HookAlone(s, f, hook);
    case Outside(outside) =>
  }

  // A call that reads its flag returns ETIMEDOUT exactly when it is set.
  lemma Verdict(s: State, f: nat, c: nat)
    requires HookEnabled(s, f, IoJudge) && s.fibers[f].local == IoChecked(c)
    ensures Flagged(s, c) ==> Apply(s, InHook(f, IoJudge)).calls[c].result == Some(TimedOut)
    ensures !Flagged(s, c) && s.calls[c].result.None? ==>
              Apply(s, InHook(f, IoJudge)).calls[c].result != Some(TimedOut)
  {
  }

  // Once a timeout callback has found its call standing, the call returns ETIMEDOUT the next time it reads its flag,
  // whatever happens before.
  lemma {:induction false} FlagDecides(s: State, steps: seq<Step>, f: nat, c: nat)
    requires Runs(s, steps) && Flagged(s, c)
    ensures Flagged(After(s, steps), c)
    ensures var e := After(s, steps);
            HookEnabled(e, f, IoJudge) && e.fibers[f].local == IoChecked(c) ==>
              Apply(e, InHook(f, IoJudge)).calls[c].result == Some(TimedOut)
    decreases |steps|
  {
    hide Apply, WorkerEnabled, CodeEnabled, OutsideEnabled;
    if steps != [] {
      FlagStays(s, steps[0], c);
      FlagDecides(Apply(s, steps[0]), steps[1..], f, c);
    } else if HookEnabled(s, f, IoJudge) && s.fibers[f].local == IoChecked(c) {
      Verdict(s, f, c);
    }
  }
}
