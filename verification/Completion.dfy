/** What a worker that finds nothing to do goes through before its idle fiber ends, and what it may do when it scans. */
module Completion {

  import opened Base
  import opened TaskQueue
  import opened Fibers
  import opened EventTable
  import opened Runtime
  import opened Crew
  import opened Safety

  // --- the three reads of isCompleted ------------------------------------------------------------------------

  // The step is the worker's (or, before it has joined, the caller's) read number n.
  predicate IsRead(step: Step, w: nat, n: nat) {
    match n
    case 0 => step == OnWorker(w, ReadTimers) || step == Outside(CallerReadsTimers(w))
    case 1 => step == OnWorker(w, ReadPending) || step == Outside(CallerReadsPending(w))
    case 2 => step == OnWorker(w, ReadTasks) || step == Outside(CallerReadsTasks(w))
    case _ => false
  }

  // And what it reads there is as isCompleted wants it: no timer in the set; no event pending; stopped, no task queued
  // and nobody active.
  predicate SaysDone(s: State, step: Step, w: nat, n: nat) {
    && IsRead(step, w, n)
    && (n == 0 ==> forall t :: 0 <= t < |s.timers| ==> !s.timers[t].place.Armed?)
    && (n == 1 ==> s.io.pending == 0)
    && (n == 2 ==> s.stopped && s.io.tasks == [] && s.active == 0)
  }

  predicate OfWorker(step: Step, w: nat) {
    || (step.OnWorker? && step.worker == w)
    || IsRead(step, w, 0) || IsRead(step, w, 1) || IsRead(step, w, 2)
  }

  // Somewhere in the run the worker makes its reads n, n + 1, ... 2, each answered so, one after the other; from the
  // second on it does nothing else in between.
  ghost predicate InARow(s: State, steps: seq<Step>, w: nat, n: nat)
    requires FreeRuns(s, steps)
    decreases |steps|
  {
    n == 3 ||
    (steps != [] &&
     ((SaysDone(s, steps[0], w, n) && InARow(Apply(s, steps[0]), steps[1..], w, n + 1)) ||
      ((n == 0 || !OfWorker(steps[0], w)) && InARow(Apply(s, steps[0]), steps[1..], w, n))))
  }

  // How many of them it has behind it.
  function ReadsDone(phase: Phase): nat {
    match phase
    case CheckingPending => 1
    case CallerPending => 1
    case CheckingTasks => 2
    case CallerTasks => 2
    case _ => 0
  }

  // One more read is behind the worker only if it was answered so; the idle fiber ends only with the third.
  ghost predicate OneByOne(s: State, step: Step, s': State, w: nat)
    requires w < |s.workers| && w < |s'.workers|
  {
    var n, n' := ReadsDone(s.workers[w].phase), ReadsDone(s'.workers[w].phase);
    && (!OfWorker(step, w) ==> s'.workers[w] == s.workers[w])
    && (n' != 0 ==> n' == n || (n' == n + 1 && SaysDone(s, step, w, n)))
    && (n' == n != 0 ==> !OfWorker(step, w))
    && (s'.workers[w].idleDone && !s.workers[w].idleDone ==> n == 2 && SaysDone(s, step, w, 2))
  }

  lemma OthersStay(s: State, v: nat, work: WorkerStep)
    requires WorkerEnabled(s, v, work)
    ensures |ApplyWorker(s, v, work).workers| == |s.workers|
    ensures forall w :: 0 <= w < |s.workers| && w != v ==> ApplyWorker(s, v, work).workers[w] == s.workers[w]
  {
    hide Dispatch, Eligible, NoneEligible;
  }

  lemma OwnReads(s: State, w: nat, work: WorkerStep)
    requires WorkerEnabled(s, w, work)
    ensures |ApplyWorker(s, w, work).workers| == |s.workers|
    ensures OneByOne(s, OnWorker(w, work), ApplyWorker(s, w, work), w)
  {
    hide Dispatch, Eligible, NoneEligible;
  }

  lemma WorkerOneByOne(s: State, v: nat, work: WorkerStep, w: nat)
    requires WorkerEnabled(s, v, work) && w < |s.workers|
    ensures |ApplyWorker(s, v, work).workers| == |s.workers|
    ensures OneByOne(s, OnWorker(v, work), ApplyWorker(s, v, work), w)
  {
    hide WorkerEnabled, ApplyWorker, SaysDone;
    if v == w {
      OwnReads(s, w, work);
    } else {
      OthersStay(s, v, work);
    }
  }

  lemma OutsideOneByOne(s: State, outside: OutsideStep, w: nat)
    requires OutsideEnabled(s, outside) && w < |s.workers|
    ensures |ApplyOutside(s, outside).workers| == |s.workers|
    ensures OneByOne(s, Outside(outside), ApplyOutside(s, outside), w)
  {
  }

  lemma StepOneByOne(s: State, step: Step, w: nat)
    requires Possible(s, step) && w < |s.workers|
    ensures |Apply(s, step).workers| == |s.workers| && OneByOne(s, step, Apply(s, step), w)
  {
    hide WorkerEnabled, CodeEnabled, HookEnabled, OutsideEnabled, ApplyWorker, ApplyCode, ApplyHook, ApplyOutside;
    match step
    case OnWorker(v, work) => WorkerOneByOne(s, v, work, w);
    case InCode(f, code) => CodeAlone(s, f, code);
    case InHook(f, hook) => HookAlone(s, f, hook);
    case Outside(outside) => OutsideOneByOne(s, outside, w);
  }

  // An idle fiber that has ended in a run has seen all three in a row, those before the run included.
  lemma {:induction false} EndedAfterReads(s: State, steps: seq<Step>, w: nat)
    requires FreeRuns(s, steps) && w < |s.workers| && !s.workers[w].idleDone
    requires w < |FreeAfter(s, steps).workers| && FreeAfter(s, steps).workers[w].idleDone
    ensures InARow(s, steps, w, ReadsDone(s.workers[w].phase)) || InARow(s, steps, w, 0)
    decreases |steps|
  {
    hide Possible, Apply, SaysDone, OfWorker, ReadsDone;
    if steps != [] {
      var s1 := Apply(s, steps[0]);
      StepOneByOne(s, steps[0], w);
      if !s1.workers[w].idleDone {
        EndedAfterReads(s1, steps[1..], w);
      }
    }
  }

  // Over every run: when the idle fiber of a worker has ended (or the caller's thread has not started one), that worker
  // has read isCompleted through: at one moment no timer was in the set, at a later one no event was pending, and at a
  // still later one the scheduler was stopped, the queue empty and nobody active, with none of its other steps between.
  lemma IdleEndsAfterThreeReads(pool: nat, useCaller: bool, steps: seq<Step>, w: nat)
    requires ReachesFreely(pool, useCaller, steps) && w < |ReachedFreely(pool, useCaller, steps).workers|
    requires ReachedFreely(pool, useCaller, steps).workers[w].idleDone
    ensures InARow(InitState(pool, useCaller), steps, w, 0)
    ensures w < pool + if useCaller then 1 else 0
  {
    hide Possible, Apply, SaysDone, OfWorker;
    SameCrew(InitState(pool, useCaller), steps);
    EndedAfterReads(InitState(pool, useCaller), steps, w);
  }

  lemma {:induction false} SameCrew(s: State, steps: seq<Step>)
    requires FreeRuns(s, steps)
    ensures |FreeAfter(s, steps).workers| == |s.workers|
    decreases |steps|
  {
    hide Possible, Apply;
    if steps != [] {
      StepCrew(s, steps[0]);
      SameCrew(Apply(s, steps[0]), steps[1..]);
    }
  }

  lemma StepCrew(s: State, step: Step)
    requires Possible(s, step)
    ensures |Apply(s, step).workers| == |s.workers|
  {
    hide CodeEnabled, HookEnabled, ApplyWorker, ApplyCode, ApplyHook, NoneEligible, FirstEligible;
    match step
    case OnWorker(v, work) => WorkerOneByOne(s, v, work, v);
    case InCode(f, code) => CodeAlone(s, f, code);
    case InHook(f, hook) => HookAlone(s, f, hook);
    case Outside(outside) =>
  }

  // --- the stop flag -----------------------------------------------------------------------------------------

  lemma WorkerNeverStops(s: State, w: nat, work: WorkerStep)
    requires WorkerEnabled(s, w, work)
    ensures ApplyWorker(s, w, work).stopped == s.stopped
  {
    hide Dispatch, NoneEligible, Eligible;
  }

  lemma CodeNeverStops(s: State, f: nat, code: CodeStep)
    requires CodeEnabled(s, f, code)
    ensures ApplyCode(s, f, code).stopped == s.stopped
  {
    hide AddEvent, DeleteEvent, SettleEvent, SettleAllEvents;
  }

  lemma HookNeverStops(s: State, f: nat, hook: HookStep)
    requires HookEnabled(s, f, hook)
    ensures ApplyHook(s, f, hook).stopped == s.stopped
  {
    hide AddEvent, SettleEvent, Alive;
  }

  lemma StepStops(s: State, step: Step)
    requires Possible(s, step)
    ensures Apply(s, step).stopped <==> s.stopped || step == Outside(Stop)
  {
    hide WorkerEnabled, CodeEnabled, HookEnabled, ApplyWorker, ApplyCode, ApplyHook;
    match step
    case OnWorker(w, work) => WorkerNeverStops(s, w, work);
    case InCode(f, code) => CodeNeverStops(s, f, code);
    case InHook(f, hook) => HookNeverStops(s, f, hook);
    case Outside(outside) =>
  }

  // The scheduler is stopped exactly when somebody has stopped it.
  lemma {:induction false} StoppedIff(s: State, steps: seq<Step>)
    requires FreeRuns(s, steps)
    ensures FreeAfter(s, steps).stopped <==> s.stopped || Outside(Stop) in steps
    decreases |steps|
  {
    hide Possible, Apply;
    if steps != [] {
      StepStops(s, steps[0]);
      StoppedIff(Apply(s, steps[0]), steps[1..]);
      assert steps == [steps[0]] + steps[1..];
    }
  }

  // --- scanning ----------------------------------------------------------------------------------------------

  // This worker may take the task.
  predicate Takable(s: State, w: nat, i: nat) {
    && i < |s.io.tasks|
    && (s.io.tasks[i].pin == None || s.io.tasks[i].pin == Some(w))
    && !Executing(s, s.io.tasks[i].fiber)
  }

  // A scanning worker has exactly one way on: it takes the first task it may take; when there is none it enters its
  // idle fiber, or leaves for good if that has ended.
  lemma ScanningChoice(s: State, w: nat, work: WorkerStep)
    requires InPhase(s, w, Scanning)
    requires forall i :: 0 <= i < |s.io.tasks| ==> s.io.tasks[i].fiber < |s.fibers|
    ensures WorkerEnabled(s, w, work) <==>
            match work
            case Take(i) => Takable(s, w, i) && forall j: nat :: j < i ==> !Takable(s, w, j)
            case EnterIdle => (forall j: nat :: !Takable(s, w, j)) && !s.workers[w].idleDone
            case ExitWorker => (forall j: nat :: !Takable(s, w, j)) && s.workers[w].idleDone
            case _ => false
  {
    hide Dispatch;
    assert forall i :: 0 <= i < |s.io.tasks| ==> (Eligible(s.io.tasks[i], w, Busy(s)) <==> Takable(s, w, i));
  }

  // And what it does then: it counts itself in, and runs the fiber unless that is dead.
  lemma TakingIt(s: State, w: nat, i: nat)
    requires WorkerEnabled(s, w, Take(i))
    ensures var s', f := Apply(s, OnWorker(w, Take(i))), s.io.tasks[i].fiber;
            && s'.active == s.active + 1 && s'.io.tasks == s.io.tasks[..i] + s.io.tasks[i + 1..]
            && (if s.fibers[f].state == Terminal || s.fibers[f].state == Except
                then s'.fibers == s.fibers && InPhase(s', w, Discarding)
                else s'.fibers[f].state == Execute && s'.fibers[f].runner == w && InPhase(s', w, Running(f)))
            && forall g :: 0 <= g < |s.fibers| && g != f ==> s'.fibers[g] == s.fibers[g]
  {
    hide Dispatch, Eligible;
  }

  // Giving it back: the worker scans again, one fewer is active, and the fiber is left ready with one more entry, dead,
  // or on hold where it stands.
  lemma GivingItBack(s: State, w: nat, f: nat, ending: Ending)
    requires WorkerEnabled(s, w, Return(f, ending))
    ensures var s' := Apply(s, OnWorker(w, Return(f, ending)));
            && s'.active == s.active - 1 && InPhase(s', w, Scanning) && s'.workers[w].idleDone == s.workers[w].idleDone
            && s'.io.tasks == s.io.tasks + (if ending.YieldedReady? then [Task(f, None)] else [])
            && |s'.fibers| == |s.fibers|
            && forall g :: 0 <= g < |s.fibers| && g != f ==> s'.fibers[g] == s.fibers[g]
    ensures f < |s.fibers|
    ensures var was, left := s.fibers[f], Apply(s, OnWorker(w, Return(f, ending))).fibers[f];
            && (ending.YieldedReady? ==> left.state == Ready && left.local == was.local)
            && (ending.Finished? ==> left.state == Terminal && left.local.Over?)
            && (ending.Threw? ==> left.state == Except && left.local.Over?)
            && (ending.YieldedHold? || ending.SwappedOut? ==> left.state == Hold)
            && (was.local.IoRegistered? ==> left.local == IoParked(was.local.call, was.local.armed))
            && (was.local.SleepArmed? ==> left.local == SleepParked(was.local.timer))
            && (was.local.User? && (ending.YieldedHold? || ending.SwappedOut?) ==> left.local.SelfHeld?)
  {
    hide Dispatch, NoneEligible, FirstEligible;
  }

  // The way of a worker through its idle fiber, and the two counters on it.
  lemma Idling(s: State, w: nat, work: WorkerStep)
    requires WorkerEnabled(s, w, work) && !work.Take? && !work.Return?
    ensures var s' := Apply(s, OnWorker(w, work));
            && w < |s'.workers|
            && s'.active == s.active - (if work.Discard? then 1 else 0)
            && s'.idle == s.idle + (if work.EnterIdle? then 1
                                    else if s'.workers[w].phase.Scanning? && !work.Discard? then -1 else 0)
            && match work
               case Discard => s'.workers[w].phase.Scanning?
               case EnterIdle => s'.workers[w].phase.CheckingTimers?
               case ReadTimers =>
                 if exists t :: 0 <= t < |s.timers| && s.timers[t].place.Armed? then s'.workers[w].phase.Polling?
                 else s'.workers[w].phase.CheckingPending?
               case ReadPending =>
                 if s.io.pending != 0 then s'.workers[w].phase.Polling? else s'.workers[w].phase.CheckingTasks?
               case ReadTasks =>
                 if s.stopped && s.io.tasks == [] && s.active == 0
                 then s'.workers[w].phase.Scanning? && s'.workers[w].idleDone
                 else s'.workers[w].phase.Polling?
               case LeaveIdle => s'.workers[w].phase.Scanning?
               case ExitWorker => s'.workers[w].phase.Exited?
               case _ => s'.workers[w].phase.Polling?
  {
    hide Dispatch, NoneEligible, FirstEligible, DoTake, DoReturn;
  }
}
