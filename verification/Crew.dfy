/**
 The workers of the runtime: what the active and idle counters count, which fiber each worker runs, and what is left
 once every idle fiber has terminated.
 */
module Crew {

  import opened TaskQueue
  import opened Fibers
  import opened EventTable
  import opened Runtime

  predicate InIdle(phase: Phase) {
    phase.CheckingTimers? || phase.CheckingPending? || phase.CheckingTasks? || phase.Polling?
  }

  // Between taking a task and counting itself out again.
  predicate AtWork(phase: Phase) {
    phase.Running? || phase.Discarding?
  }

  function RunningCount(workers: seq<Worker>): nat {
    if workers == [] then 0 else (if AtWork(workers[0].phase) then 1 else 0) + RunningCount(workers[1..])
  }

  // Workers inside their idle fiber.
  function IdleCount(workers: seq<Worker>): nat {
    if workers == [] then 0 else (if InIdle(workers[0].phase) then 1 else 0) + IdleCount(workers[1..])
  }

  lemma {:induction false} CountsUpdate(workers: seq<Worker>, w: nat, worker: Worker)
    requires w < |workers|
    ensures RunningCount(workers[w := worker]) ==
            RunningCount(workers) - (if AtWork(workers[w].phase) then 1 else 0)
            + (if AtWork(worker.phase) then 1 else 0)
    ensures IdleCount(workers[w := worker]) ==
            IdleCount(workers) - (if InIdle(workers[w].phase) then 1 else 0) + (if InIdle(worker.phase) then 1 else 0)
  {
    var updated := workers[w := worker];
    if w == 0 {
      assert updated[1..] == workers[1..];
    } else {
      assert updated[1..] == workers[1..][w - 1 := worker];
      CountsUpdate(workers[1..], w - 1, worker);
    }
  }

  lemma {:induction false} RunningPositive(workers: seq<Worker>, w: nat)
    requires w < |workers| && AtWork(workers[w].phase)
    ensures RunningCount(workers) > 0
  {
    if w > 0 {
      RunningPositive(workers[1..], w - 1);
    }
  }

  lemma {:induction false} NobodyBusy(workers: seq<Worker>)
    requires forall w :: 0 <= w < |workers| ==> !AtWork(workers[w].phase) && !InIdle(workers[w].phase)
    ensures RunningCount(workers) == 0 && IdleCount(workers) == 0
  {
    if workers != [] {
      NobodyBusy(workers[1..]);
    }
  }

  // A worker runs a fiber exactly when that fiber is in state EXECUTE under that worker.
  ghost predicate Paired(s: State) {
    && (forall w :: 0 <= w < |s.workers| && s.workers[w].phase.Running? ==>
                      && Executing(s, s.workers[w].phase.fiber)
                      && s.fibers[s.workers[w].phase.fiber].runner == w)
    && (forall f :: 0 <= f < |s.fibers| && s.fibers[f].state.Execute? ==>
                      InPhase(s, s.fibers[f].runner, Running(f)))
  }

  ghost predicate Accounted(s: State) {
    s.active == RunningCount(s.workers) && s.idle == IdleCount(s.workers)
  }

  // Only a polling worker holds callbacks it has popped and not yet scheduled; a terminated idle fiber stays so.
  ghost predicate Orderly(s: State) {
    && (forall w :: 0 <= w < |s.workers| && s.workers[w].idleDone ==>
                      s.workers[w].phase.Scanning? || AtWork(s.workers[w].phase) || s.workers[w].phase.Exited?)
    && (forall w :: 0 <= w < |s.workers| && s.workers[w].phase.Exited? ==> s.workers[w].idleDone)
    && (forall t :: 0 <= t < |s.timers| && Out(s.timers[t].place) ==>
                      InPhase(s, s.timers[t].place.worker, Polling))
  }

  ghost predicate AllDone(s: State) {
    s.workers != [] && forall w :: 0 <= w < |s.workers| ==> s.workers[w].idleDone
  }

  // Whoever is done now was done before, so the clean end was reached before as well.
  lemma StillDone(s: State, s': State)
    requires CleanlyDone(s) && |s'.workers| == |s.workers|
    requires forall w :: 0 <= w < |s.workers| ==> s'.workers[w].idleDone ==> s.workers[w].idleDone
    ensures AllDone(s') && !s.late ==> s.stopped && s.io.tasks == [] && s.active == 0
  {
    if AllDone(s') {
      forall w | 0 <= w < |s.workers|
        ensures s.workers[w].idleDone
      {
        assert s'.workers[w].idleDone;
      }
    }
  }

  // Once every idle fiber has terminated, and nothing came from outside after the stop, nothing is left to do.
  ghost predicate CleanlyDone(s: State) {
    AllDone(s) && !s.late ==> s.stopped && s.io.tasks == [] && s.active == 0
  }

  ghost predicate CrewInv(s: State) {
    Paired(s) && Accounted(s) && Orderly(s) && CleanlyDone(s)
  }

  lemma ExecutingMeansActive(s: State, f: nat)
    requires Paired(s) && Accounted(s) && Executing(s, f)
    ensures s.active > 0
  {
    RunningPositive(s.workers, s.fibers[f].runner);
  }

  // A step of a running fiber leaves the workers alone, and so every fiber's state word and runner.
  ghost predicate Quiet(s: State, s': State) {
    && s'.workers == s.workers && s'.active == s.active && s'.idle == s.idle && s'.late == s.late
    && |s.fibers| <= |s'.fibers|
    && (forall g :: 0 <= g < |s.fibers| ==>
                      s'.fibers[g].state == s.fibers[g].state && s'.fibers[g].runner == s.fibers[g].runner)
    && (forall g :: |s.fibers| <= g < |s'.fibers| ==> s'.fibers[g].state.Initialize?)
    && (forall t :: 0 <= t < |s'.timers| && Out(s'.timers[t].place) ==>
                      t < |s.timers| && s'.timers[t] == s.timers[t])
  }

  lemma QuietKeepsCrew(s: State, s': State, f: nat)
    requires CrewInv(s) && Executing(s, f) && Quiet(s, s')
    ensures CrewInv(s')
  {
    ExecutingMeansActive(s, f);
  }

  // Calls keep their descriptor and kind, and a flag that was set.
  ghost predicate CallsKept(s: State, s': State) {
    |s.calls| <= |s'.calls| &&
    forall c :: 0 <= c < |s.calls| ==>
                  && s'.calls[c].fd == s.calls[c].fd && s'.calls[c].kind == s.calls[c].kind
                  && (s.calls[c].flag.Some? ==> s'.calls[c].flag.Some?)
  }

  // A step of fiber `f` that moves no other fiber.
  ghost predicate Alone(s: State, s': State, f: nat) {
    Quiet(s, s') && CallsKept(s, s') && forall g :: 0 <= g < |s.fibers| && g != f ==> s'.fibers[g] == s.fibers[g]
  }

  lemma WorkerKeepsCalls(s: State, w: nat, work: WorkerStep)
    requires WorkerEnabled(s, w, work)
    ensures ApplyWorker(s, w, work).calls == s.calls
  {
    hide Dispatch, NoneEligible, Eligible;
  }

  lemma IoStepAlone(s: State, f: nat, step: HookStep)
    requires HookEnabled(s, f, step) && (step.IoReturn? || step.IoArm? || step.IoRegister?)
    ensures Alone(s, ApplyHook(s, f, step), f)
  {
    hide AddEvent, SettleEvent, Alive, DoIoCancel, DoIoJudge, DoCallbackWake, DoCallbackLock, DoCallbackSettle;
  }

  lemma CancelStepAlone(s: State, f: nat)
    requires HookEnabled(s, f, IoCancel)
    ensures Alone(s, ApplyHook(s, f, IoCancel), f)
  {
    hide Alive, AddEvent, DoIoArm, DoIoRegister, DoIoJudge, DoCallbackWake, DoCallbackLock, DoCallbackSettle;
    var s' := ApplyHook(s, f, IoCancel);
    assert s'.timers == CancelTimer(s, s.fibers[f].local.armed).timers;
    assert forall g :: 0 <= g < |s.fibers| && g != f ==> s'.fibers[g] == s.fibers[g];
  }

  lemma JudgeStepAlone(s: State, f: nat)
    requires HookEnabled(s, f, IoJudge)
    ensures Alone(s, ApplyHook(s, f, IoJudge), f)
  {
    hide Alive, DoIoArm, DoIoRegister, DoIoCancel, DoCallbackWake, DoCallbackLock, DoCallbackSettle;
  }

  lemma CallbackStepAlone(s: State, f: nat, step: HookStep)
    requires HookEnabled(s, f, step) && (step.CallbackWake? || step.CallbackLock? || step.CallbackSettle?)
    ensures Alone(s, ApplyHook(s, f, step), f)
  {
    hide AddEvent, SettleEvent, Alive, DoIoArm, DoIoRegister, DoIoCancel, DoIoJudge;
  }

  lemma HookAlone(s: State, f: nat, step: HookStep)
    requires HookEnabled(s, f, step)
    ensures Alone(s, ApplyHook(s, f, step), f)
  {
    hide ApplyHook, Alone;
    match step
    case IoReturn => IoStepAlone(s, f, step);
    case IoArm => IoStepAlone(s, f, step);
    case IoRegister(_) => IoStepAlone(s, f, step);
    case IoCancel => CancelStepAlone(s, f);
    case IoJudge => JudgeStepAlone(s, f);
    case _ => CallbackStepAlone(s, f, step);
  }

  // A step of ordinary code moves at most the fiber itself and the waiter of an event it deletes.
  ghost predicate AlmostAlone(s: State, s': State, f: nat) {
    && Quiet(s, s') && CallsKept(s, s')
    && forall g :: 0 <= g < |s.fibers| && g != f ==>
                     s'.fibers[g] == s.fibers[g] || (s.fibers[g].local.EventWait? && s'.fibers[g].local.Dropped?)
  }

  lemma UnwatchAlone(s: State, f: nat, step: CodeStep)
    requires CodeEnabled(s, f, step) && step.Unwatch?
    ensures AlmostAlone(s, ApplyCode(s, f, step), f)
  {
    hide DeleteEvent, DoWatch, DoIoBegin, DoSleepBegin;
  }

  lemma OtherCodeAlone(s: State, f: nat, step: CodeStep)
    requires CodeEnabled(s, f, step) && !step.Unwatch?
    ensures AlmostAlone(s, ApplyCode(s, f, step), f)
  {
    hide AddEvent, DoUnwatch, SettleEvent, SettleAllEvents;
  }

  lemma CodeAlone(s: State, f: nat, step: CodeStep)
    requires CodeEnabled(s, f, step)
    ensures AlmostAlone(s, ApplyCode(s, f, step), f)
  {
    hide CodeEnabled, ApplyCode, AlmostAlone;
    if step.Unwatch? {
      UnwatchAlone(s, f, step);
    } else {
      OtherCodeAlone(s, f, step);
    }
  }

  lemma CodeKeepsCrew(s: State, f: nat, step: CodeStep)
    requires CrewInv(s) && CodeEnabled(s, f, step)
    ensures CrewInv(ApplyCode(s, f, step))
  {
    CodeAlone(s, f, step);
    hide ApplyCode, CrewInv, Quiet;
    QuietKeepsCrew(s, ApplyCode(s, f, step), f);
  }

  lemma HookKeepsCrew(s: State, f: nat, step: HookStep)
    requires CrewInv(s) && HookEnabled(s, f, step)
    ensures CrewInv(ApplyHook(s, f, step))
  {
    HookAlone(s, f, step);
    hide ApplyHook, CrewInv, Quiet;
    QuietKeepsCrew(s, ApplyHook(s, f, step), f);
  }

  // An outside arrival adds a fiber or a timer and nothing else.
  lemma ArrivalKeepsCrew(s: State, s': State)
    requires CrewInv(s) && s'.workers == s.workers && s'.active == s.active && s'.idle == s.idle
    requires |s.fibers| <= |s'.fibers| && (forall g :: 0 <= g < |s.fibers| ==> s'.fibers[g] == s.fibers[g])
    requires forall g :: |s.fibers| <= g < |s'.fibers| ==> s'.fibers[g].state.Initialize?
    requires forall t :: 0 <= t < |s'.timers| && Out(s'.timers[t].place) ==>
                           t < |s.timers| && s'.timers[t] == s.timers[t]
    requires s'.stopped == s.stopped && s'.late == (s.late || s.stopped)
    ensures CrewInv(s')
  {
    StillDone(s, s');
  }

  // The caller's thread on its way through isCompleted, joining the workers or leaving for good.
  lemma CallerKeepsCrew(s: State, w: nat, worker: Worker)
    requires CrewInv(s) && w < |s.workers|
    requires InPhase(s, w, Fresh) || InPhase(s, w, CallerPending) || InPhase(s, w, CallerTasks)
    requires !AtWork(worker.phase) && !InIdle(worker.phase)
    requires if worker.idleDone then worker.phase.Exited? && s.stopped && s.io.tasks == [] && s.active == 0
             else !worker.phase.Exited?
    ensures CrewInv(s.(workers := s.workers[w := worker]))
  {
    CountsUpdate(s.workers, w, worker);
    if !worker.idleDone {
      StillDone(s, s.(workers := s.workers[w := worker]));
    }
  }

  lemma OutsideKeepsCrew(s: State, step: OutsideStep)
    requires CrewInv(s) && OutsideEnabled(s, step)
    ensures CrewInv(ApplyOutside(s, step))
  {
    hide CrewInv;
    match step
    case CallerReadsTimers(w) => CallerReadKeepsCrew(s, step, w);
    case CallerReadsPending(w) => CallerReadKeepsCrew(s, step, w);
    case CallerReadsTasks(w) => CallerReadKeepsCrew(s, step, w);
    case Stop => StopKeepsCrew(s);
    case _ => ArrivalKeepsCrew(s, ApplyOutside(s, step));
  }

  lemma CallerReadKeepsCrew(s: State, step: OutsideStep, w: nat)
    requires CrewInv(s) && OutsideEnabled(s, step)
    requires step == CallerReadsTimers(w) || step == CallerReadsPending(w) || step == CallerReadsTasks(w)
    ensures CrewInv(ApplyOutside(s, step))
  {
    var s' := ApplyOutside(s, step);
    assert !s.workers[w].idleDone;
    CallerKeepsCrew(s, w, s'.workers[w]);
    assert s' == s.(workers := s.workers[w := s'.workers[w]]);
  }

  lemma StopKeepsCrew(s: State)
    requires CrewInv(s)
    ensures CrewInv(s.(stopped := true))
  {
    StillDone(s, s.(stopped := true));
  }

  lemma PairUp(s: State, s': State, w: nat, f: nat)
    requires Paired(s) && w < |s.workers| && !s.workers[w].phase.Running? && f < |s.fibers| && !Executing(s, f)
    requires s'.workers == s.workers[w := s.workers[w].(phase := Running(f))]
    requires |s'.fibers| == |s.fibers| && s'.fibers[f].state.Execute? && s'.fibers[f].runner == w
    requires forall g :: 0 <= g < |s.fibers| && g != f ==> s'.fibers[g] == s.fibers[g]
    ensures Paired(s')
  {
    assert forall g :: 0 <= g < |s.fibers| && s.fibers[g].state.Execute? ==> InPhase(s, s.fibers[g].runner, Running(g));
  }

  lemma Unpair(s: State, s': State, w: nat, f: nat)
    requires Paired(s) && InPhase(s, w, Running(f)) && f < |s.fibers|
    requires s'.workers == s.workers[w := s.workers[w].(phase := Scanning)]
    requires |s'.fibers| == |s.fibers| && !s'.fibers[f].state.Execute?
    requires forall g :: 0 <= g < |s.fibers| && g != f ==> s'.fibers[g] == s.fibers[g]
    ensures Paired(s')
  {
    assert forall g :: 0 <= g < |s.fibers| && s.fibers[g].state.Execute? ==> InPhase(s, s.fibers[g].runner, Running(g));
  }

  lemma OrderKept(s: State, s': State, w: nat, phase: Phase)
    requires Orderly(s) && w < |s.workers| && s'.timers == s.timers
    requires s.workers[w].phase.Scanning? || AtWork(s.workers[w].phase)
    requires s'.workers == s.workers[w := s.workers[w].(phase := phase)] && (phase.Scanning? || AtWork(phase))
    ensures Orderly(s')
  {
    assert forall t :: 0 <= t < |s.timers| && Out(s.timers[t].place) ==>
                         InPhase(s, s.timers[t].place.worker, Polling);
  }

  lemma TakeKeepsCrew(s: State, w: nat, i: nat)
    requires CrewInv(s) && WorkerEnabled(s, w, Take(i))
    ensures CrewInv(DoTake(s, w, i))
  {
    hide Resumed, Paired, Orderly;
    var f := s.io.tasks[i].fiber;
    var s' := DoTake(s, w, i);
    var phase := s'.workers[w].phase;
    assert f !in Busy(s);
    CountsUpdate(s.workers, w, s.workers[w].(phase := phase));
    if phase.Running? {
      PairUp(s, s', w, f);
    } else {
      PairKept(s, s', w, phase);
    }
    OrderKept(s, s', w, phase);
    StillDone(s, s');
  }

  lemma PairKept(s: State, s': State, w: nat, phase: Phase)
    requires Paired(s) && w < |s.workers| && !s.workers[w].phase.Running? && !phase.Running?
    requires s'.workers == s.workers[w := s.workers[w].(phase := phase)] && s'.fibers == s.fibers
    ensures Paired(s')
  {
    assert forall g :: 0 <= g < |s.fibers| && s.fibers[g].state.Execute? ==> InPhase(s, s.fibers[g].runner, Running(g));
  }

  lemma DiscardKeepsCrew(s: State, w: nat)
    requires CrewInv(s) && WorkerEnabled(s, w, Discard)
    ensures CrewInv(ApplyWorker(s, w, Discard))
  {
    var s' := ApplyWorker(s, w, Discard);
    CountsUpdate(s.workers, w, s.workers[w].(phase := Scanning));
    RunningPositive(s.workers, w);
    PairKept(s, s', w, Scanning);
    OrderKept(s, s', w, Scanning);
    StillDone(s, s');
  }

  lemma ReturnKeepsCrew(s: State, w: nat, f: nat, ending: Ending)
    requires CrewInv(s) && WorkerEnabled(s, w, Return(f, ending))
    ensures CrewInv(DoReturn(s, w, f, ending))
  {
    hide MayEnd, Parked, Paired, Orderly;
    var s' := DoReturn(s, w, f, ending);
    CountsUpdate(s.workers, w, s.workers[w].(phase := Scanning));
    Unpair(s, s', w, f);
    OrderKept(s, s', w, Scanning);
    ExecutingMeansActive(s, f);
    StillDone(s, s');
  }

  // A worker moving through its idle fiber, or leaving for good.
  lemma MoveKeepsCrew(s: State, w: nat, worker: Worker, idle: int)
    requires CrewInv(s) && w < |s.workers| && !AtWork(s.workers[w].phase) && !AtWork(worker.phase)
    requires idle == s.idle - (if InIdle(s.workers[w].phase) then 1 else 0) + (if InIdle(worker.phase) then 1 else 0)
    requires worker.idleDone ==> worker.phase.Scanning? || worker.phase.Exited?
    requires worker.phase.Exited? ==> worker.idleDone
    requires s.workers[w].phase.Polling? ==>
               worker.phase.Polling? || forall t :: 0 <= t < |s.timers| ==> !OutWith(s.timers[t].place, w)
    requires worker.idleDone && !s.workers[w].idleDone ==> s.stopped && s.io.tasks == [] && s.active == 0
    ensures CrewInv(s.(workers := s.workers[w := worker], idle := idle))
  {
    CountsUpdate(s.workers, w, worker);
    var s' := s.(workers := s.workers[w := worker], idle := idle);
    if !worker.idleDone || s.workers[w].idleDone {
      StillDone(s, s');
    }
  }

  // A polling worker at work: its phase stays, and some idle fiber is not done.
  lemma PollKeepsCrew(s: State, s': State, w: nat)
    requires CrewInv(s) && InPhase(s, w, Polling)
    requires s'.workers == s.workers && s'.active == s.active && s'.idle == s.idle
    requires |s.fibers| <= |s'.fibers| && s'.fibers[..|s.fibers|] == s.fibers
    requires forall g :: |s.fibers| <= g < |s'.fibers| ==> s'.fibers[g].state.Initialize?
    requires forall t :: 0 <= t < |s'.timers| && Out(s'.timers[t].place) ==>
                           OutWith(s'.timers[t].place, w) || (t < |s.timers| && s'.timers[t] == s.timers[t])
    ensures CrewInv(s')
  {
    assert forall f :: 0 <= f < |s.fibers| ==> s'.fibers[..|s.fibers|][f] == s'.fibers[f];
    assert !s.workers[w].idleDone;
  }

  lemma IdleKeepsCrew(s: State, w: nat, step: WorkerStep)
    requires CrewInv(s) && WorkerEnabled(s, w, step)
    requires step.EnterIdle? || step.ReadTimers? || step.ReadPending? || step.LeaveIdle? || step.ExitWorker?
    ensures CrewInv(ApplyWorker(s, w, step))
  {
    var s' := ApplyWorker(s, w, step);
    MoveKeepsCrew(s, w, s'.workers[w], s'.idle);
    assert s' == s.(workers := s.workers[w := s'.workers[w]], idle := s'.idle);
  }

  lemma ReadTasksKeepsCrew(s: State, w: nat)
    requires CrewInv(s) && WorkerEnabled(s, w, ReadTasks)
    ensures CrewInv(ApplyWorker(s, w, ReadTasks))
  {
    if s.stopped && s.io.tasks == [] && s.active == 0 {
      MoveKeepsCrew(s, w, Worker(Scanning, true), s.idle - 1);
    } else {
      MoveKeepsCrew(s, w, s.workers[w].(phase := Polling), s.idle);
    }
  }

  lemma WorkerEndsIdle(s: State, v: nat, work: WorkerStep, w: nat)
    requires WorkerEnabled(s, v, work) && w < |s.workers| && !s.workers[w].idleDone
    ensures var s' := ApplyWorker(s, v, work);
            && |s'.workers| == |s.workers|
            && (s'.workers[w].idleDone <==>
                  v == w && work.ReadTasks? && s.stopped && s.io.tasks == [] && s.active == 0)
  {
    hide Dispatch, Eligible, NoneEligible;
  }

  // Whatever the step: a worker's idle fiber ends in the last read of isCompleted, with the scheduler stopped, no task
  // and nobody active, or is never started because the caller's thread finds that in its own last read.
  lemma IdleEndsIff(s: State, step: Step, w: nat)
    requires Possible(s, step) && w < |s.workers| && !s.workers[w].idleDone
    ensures var s' := Apply(s, step);
            && |s'.workers| == |s.workers|
            && (s'.workers[w].idleDone <==>
                  && (step == OnWorker(w, ReadTasks) || step == Outside(CallerReadsTasks(w)))
                  && s.stopped && s.io.tasks == [] && s.active == 0)
  {
    hide WorkerEnabled, CodeEnabled, HookEnabled, ApplyWorker, ApplyCode, ApplyHook;
    match step
    case OnWorker(v, work) => WorkerEndsIdle(s, v, work, w);
    case InCode(f, code) => CodeAlone(s, f, code);
    case InHook(f, hook) => HookAlone(s, f, hook);
    case Outside(outside) =>
  }

  lemma PollStepKeepsCrew(s: State, w: nat, step: WorkerStep)
    requires CrewInv(s) && WorkerEnabled(s, w, step)
    requires step.Pop? || step.Rearm? || step.Deliver? || step.Report?
    ensures CrewInv(ApplyWorker(s, w, step))
  {
    hide CrewInv, Dispatch, NoneEligible, FirstEligible, DoTake, DoReturn;
    PollKeepsCrew(s, ApplyWorker(s, w, step), w);
  }

  lemma WorkerKeepsCrew(s: State, w: nat, step: WorkerStep)
    requires CrewInv(s) && WorkerEnabled(s, w, step)
    ensures CrewInv(ApplyWorker(s, w, step))
  {
    hide CrewInv, WorkerEnabled, DoTake, DoReturn, DoPop, DoRearm, DoDeliver, Dispatch;
    match step
    case Take(i) => TakeKeepsCrew(s, w, i);
    case Discard => DiscardKeepsCrew(s, w);
    case Return(f, ending) => ReturnKeepsCrew(s, w, f, ending);
    case ReadTasks => ReadTasksKeepsCrew(s, w);
    case _ =>
      if step.Pop? || step.Rearm? || step.Deliver? || step.Report? {
        PollStepKeepsCrew(s, w, step);
      } else {
        IdleKeepsCrew(s, w, step);
      }
  }

  lemma InitCrew(pool: nat, useCaller: bool)
    ensures CrewInv(InitState(pool, useCaller))
  {
    NobodyBusy(InitState(pool, useCaller).workers);
  }
}
