/** The runtime with a worker's take and its swapIn apart. */
module Handover {

  // `Scheduler::run` lets go of the lock before it swaps the fiber in, and swapIn tests and sets the state word by
  // itself. What one step does in Runtime is done in two here, and every run of considerate code in two steps is proved
  // to be a run in one.

  import opened Base
  import opened TaskQueue
  import opened Fibers
  import opened EventTable
  import opened Runtime
  import opened Weave
  import opened Crew
  import opened Safety

  // `holding`: the workers that have taken a task and not yet reached swapIn.
  datatype Split = Split(state: State, holding: set<nat>)

  datatype SplitStep = Grab(worker: nat, index: nat) | SwapIn(worker: nat) | Plain(step: Step)

  predicate Holds(x: Split, w: nat, f: nat) {
    w in x.holding && InPhase(x.state, w, Running(f)) && f < |x.state.fibers|
  }

  // swapIn asserts that the fiber is not running already.
  ghost predicate SplitPossible(x: Split, step: SplitStep) {
    match step
    case Grab(w, i) => w !in x.holding && WorkerEnabled(x.state, w, Take(i))
    case SwapIn(w) => exists f: nat :: Holds(x, w, f) && !x.state.fibers[f].state.Execute?
    case Plain(plain) =>
      !IsTake(plain) && (plain.OnWorker? ==> plain.worker !in x.holding) && Possible(x.state, plain)
  }

  // As in Runtime, and a fiber that has been taken is not scheduled by hand either.
  predicate SplitConsiderate(x: Split, step: SplitStep) {
    step.Plain? && step.step.InCode? && step.step.code.Resubmit? ==>
      && Considerate(x.state, step.step)
      && forall w :: w in x.holding && x.state.fibers[step.step.code.other].local.SelfHeld? ==>
                       !Holds(x, w, step.step.code.other)
  }

  function DoGrab(s: State, w: nat, i: nat): State
    requires w < |s.workers| && i < |s.io.tasks|
  {
    SetPhase(s.(io := s.io.(tasks := Without(s.io.tasks, i)), active := s.active + 1), w, Running(s.io.tasks[i].fiber))
  }

  function DoSwapIn(s: State, w: nat, f: nat): State
    requires InPhase(s, w, Running(f)) && f < |s.fibers|
  {
    if Dead(s.fibers[f].state) then SetPhase(s, w, Discarding)
    else s.(fibers := s.fibers[f := Fiber(Execute, Resumed(s.fibers[f].local), w)])
  }

  ghost function SplitApply(x: Split, step: SplitStep): Split
    requires SplitPossible(x, step)
  {
    match step
    case Grab(w, i) => Split(DoGrab(x.state, w, i), x.holding + {w})
    case SwapIn(w) => Split(DoSwapIn(x.state, w, x.state.workers[w].phase.fiber), x.holding - {w})
    case Plain(plain) => x.(state := Apply(x.state, plain))
  }

  ghost predicate SplitRuns(x: Split, steps: seq<SplitStep>)
    decreases |steps|
  {
    steps == [] || (SplitPossible(x, steps[0]) && SplitRuns(SplitApply(x, steps[0]), steps[1..]))
  }

  ghost function SplitAfter(x: Split, steps: seq<SplitStep>): Split
    requires SplitRuns(x, steps)
    decreases |steps|
  {
    if steps == [] then x else SplitAfter(SplitApply(x, steps[0]), steps[1..])
  }

  ghost predicate AllConsiderate(x: Split, steps: seq<SplitStep>)
    requires SplitRuns(x, steps)
    decreases |steps|
  {
    steps == [] || (SplitConsiderate(x, steps[0]) && AllConsiderate(SplitApply(x, steps[0]), steps[1..]))
  }

  // --- one step of Runtime is two steps here -----------------------------------------------------------------

  function SplitOf(steps: seq<Step>): seq<SplitStep> {
    if steps == [] then []
    else (if IsTake(steps[0]) then [Grab(steps[0].worker, steps[0].work.index), SwapIn(steps[0].worker)]
          else [Plain(steps[0])]) + SplitOf(steps[1..])
  }

  lemma TakeIsGrabAndSwapIn(s: State, w: nat, i: nat)
    requires WorkerEnabled(s, w, Take(i))
    ensures var x := Split(DoGrab(s, w, i), {w});
            && SplitPossible(Split(s, {}), Grab(w, i)) && SplitApply(Split(s, {}), Grab(w, i)) == x
            && SplitPossible(x, SwapIn(w)) && SplitApply(x, SwapIn(w)) == Split(DoTake(s, w, i), {})
  {
    var f := s.io.tasks[i].fiber;
    var s1 := DoGrab(s, w, i);
    assert f !in Busy(s);
    assert {} + {w} == {w} && {w} - {w} == {};
    assert Holds(Split(s1, {w}), w, f);
    assert DoSwapIn(s1, w, f) == DoTake(s, w, i);
  }

  // Every run of Runtime, considerate or not, is a run here.
  lemma {:induction false} RunSplits(s: State, steps: seq<Step>)
    requires FreeRuns(s, steps)
    ensures SplitRuns(Split(s, {}), SplitOf(steps))
    ensures SplitAfter(Split(s, {}), SplitOf(steps)) == Split(FreeAfter(s, steps), {})
    decreases |steps|
  {
    hide Possible, Apply, WorkerEnabled, DoGrab, DoSwapIn, Holds;
    if steps != [] {
      var rest := SplitOf(steps[1..]);
      var x := Split(s, {});
      RunSplits(Apply(s, steps[0]), steps[1..]);
      if IsTake(steps[0]) {
        TakeApplied(s, steps[0]);
        var (w, i) := (steps[0].worker, steps[0].work.index);
        TakeIsGrabAndSwapIn(s, w, i);
        var x1 := SplitApply(x, Grab(w, i));
        assert SplitOf(steps)[0] == Grab(w, i) && SplitOf(steps)[1..] == [SwapIn(w)] + rest;
        assert ([SwapIn(w)] + rest)[1..] == rest;
        assert SplitRuns(x1, [SwapIn(w)] + rest);
      } else {
        assert SplitOf(steps)[0] == Plain(steps[0]) && SplitOf(steps)[1..] == rest;
      }
    }
  }

  lemma TakeApplied(s: State, step: Step)
    requires Possible(s, step) && IsTake(step)
    ensures WorkerEnabled(s, step.worker, Take(step.work.index))
    ensures Apply(s, step) == DoTake(s, step.worker, step.work.index)
  {
  }

  // --- and two steps here are one step of Runtime ------------------------------------------------------------

  // Where a fiber stands when it has just been swapped in.
  predicate Fetched(local: Local) {
    local.User? || local.IoWoken? || local.CallbackStart?
  }

  // Worker w has taken fiber f here and is running it in the merged state.
  predicate Fetching(s: State, m: State, w: nat, f: nat) {
    && f < |s.fibers| && f < |m.fibers|
    && !s.fibers[f].state.Execute? && !Dead(s.fibers[f].state)
    && m.fibers[f] == Fiber(Execute, Resumed(s.fibers[f].local), w) && Fetched(m.fibers[f].local)
  }

  predicate SameWorker(x: Split, m: State, w: nat)
    requires w < |x.state.workers| && w < |m.workers|
  {
    if w !in x.holding then m.workers[w] == x.state.workers[w]
    else
      && x.state.workers[w].phase.Running?
      && var f := x.state.workers[w].phase.fiber;
         && f < |x.state.fibers|
         && (if Dead(x.state.fibers[f].state) then m.workers[w] == x.state.workers[w].(phase := Discarding)
             else m.workers[w] == x.state.workers[w] && Fetching(x.state, m, w, f))
  }

  predicate SameFiber(x: Split, m: State, f: nat)
    requires f < |x.state.fibers| && f < |m.fibers|
  {
    || m.fibers[f] == x.state.fibers[f]
    || (Holds(x, m.fibers[f].runner, f) && Fetching(x.state, m, m.fibers[f].runner, f))
  }

  // The merged state has swapped in already what is held here; nothing else differs.
  ghost predicate Merges(x: Split, m: State) {
    && m.io == x.state.io && m.calls == x.state.calls && m.timers == x.state.timers
    && m.active == x.state.active && m.idle == x.state.idle && m.stopped == x.state.stopped && m.late == x.state.late
    && |m.workers| == |x.state.workers| && |m.fibers| == |x.state.fibers|
    && (forall w :: w in x.holding ==> w < |m.workers|)
    && (forall w :: 0 <= w < |m.workers| ==> SameWorker(x, m, w))
    && (forall f :: 0 <= f < |m.fibers| ==> SameFiber(x, m, f))
  }

  // --- taking

  lemma {:induction false} Counted(tasks: seq<Task>, i: nat)
    requires i < |tasks|
    ensures Count(tasks, tasks[i].fiber) > 0
  {
    if i > 0 {
      Counted(tasks[1..], i - 1);
    }
  }

  // No fiber held here has an entry left, so both scans see the same tasks.
  lemma SameScan(x: Split, m: State, i: nat)
    requires Inv(m) && Merges(x, m) && i < |m.io.tasks|
    ensures m.io.tasks[i].fiber < |m.fibers| && m.fibers[m.io.tasks[i].fiber] == x.state.fibers[m.io.tasks[i].fiber]
    ensures m.io.tasks[i].fiber in Busy(m) <==> m.io.tasks[i].fiber in Busy(x.state)
  {
    hide IoInv, CrewInv, SameWorker;
    var f := m.io.tasks[i].fiber;
    Counted(m.io.tasks, i);
    assert FiberOk(m, f);
    assert SameFiber(x, m, f);
  }

  // A queued fiber that is not running and not dead resumes in a place where it has no other entry.
  lemma QueuedIsFetched(m: State, f: nat)
    requires Woven(m) && f < |m.fibers| && Queued(m, f) > 0
    requires !m.fibers[f].state.Execute? && !Dead(m.fibers[f].state)
    ensures Fetched(Resumed(m.fibers[f].local))
  {
    assert FiberOk(m, f);
  }

  lemma GrabMerges(x: Split, m: State, w: nat, i: nat)
    requires Inv(m) && Merges(x, m) && SplitPossible(x, Grab(w, i))
    ensures WorkerEnabled(m, w, Take(i))
    ensures Merges(SplitApply(x, Grab(w, i)), DoTake(m, w, i))
  {
    hide IoInv, Woven, CrewInv, Fetched, Resumed;
    var f := m.io.tasks[i].fiber;
    assert SameWorker(x, m, w);
    forall j | 0 <= j < |m.io.tasks|
      ensures m.io.tasks[j].fiber in Busy(m) <==> m.io.tasks[j].fiber in Busy(x.state)
    {
      SameScan(x, m, j);
    }
    SameScan(x, m, i);
    Counted(m.io.tasks, i);
    assert f !in Busy(m);
    if !Dead(m.fibers[f].state) {
      QueuedIsFetched(m, f);
    }
    GrabKeepsMerge(x, m, w, i);
  }

  lemma GrabKeepsMerge(x: Split, m: State, w: nat, i: nat)
    requires Merges(x, m) && w < |m.workers| && w !in x.holding && i < |m.io.tasks|
    requires !m.workers[w].phase.Running?
    requires var f := m.io.tasks[i].fiber;
             && f < |m.fibers| && m.fibers[f] == x.state.fibers[f] && !m.fibers[f].state.Execute?
             && (!Dead(m.fibers[f].state) ==> Fetched(Resumed(m.fibers[f].local)))
    ensures Merges(Split(DoGrab(x.state, w, i), x.holding + {w}), DoTake(m, w, i))
  {
    hide Fetched, Resumed;
    var f := m.io.tasks[i].fiber;
    var x' := Split(DoGrab(x.state, w, i), x.holding + {w});
    var m' := DoTake(m, w, i);
    forall v | 0 <= v < |m'.workers|
      ensures SameWorker(x', m', v)
    {
      assert SameWorker(x, m, v);
    }
    forall g | 0 <= g < |m'.fibers|
      ensures SameFiber(x', m', g)
    {
      assert SameFiber(x, m, g);
    }
  }

  lemma SwapInMerges(x: Split, m: State, w: nat)
    requires Merges(x, m) && SplitPossible(x, SwapIn(w))
    ensures Merges(SplitApply(x, SwapIn(w)), m)
  {
    hide Fetched, Resumed;
    var x' := SplitApply(x, SwapIn(w));
    forall v | 0 <= v < |m.workers|
      ensures SameWorker(x', m, v)
    {
      assert SameWorker(x, m, v);
      assert SameWorker(x, m, w);
    }
    forall g | 0 <= g < |m.fibers|
      ensures SameFiber(x', m, g)
    {
      assert SameFiber(x, m, g);
      assert SameWorker(x, m, w);
    }
  }

  // No swapIn finds its fiber running.
  lemma HeldCanSwapIn(x: Split, m: State, w: nat)
    requires Merges(x, m) && w in x.holding
    ensures SplitPossible(x, SwapIn(w))
  {
    assert SameWorker(x, m, w);
    assert Holds(x, w, x.state.workers[w].phase.fiber);
  }

  // --- the other steps

  lemma RunningSame(x: Split, m: State, f: nat)
    requires Merges(x, m) && Executing(x.state, f)
    ensures Executing(m, f) && m.fibers[f] == x.state.fibers[f]
  {
    assert SameFiber(x, m, f);
  }

  // The fiber is the same in both and alive, and the step makes the same of it.
  predicate Moved(x: Split, m: State, s': State, m': State, g: nat)
    requires g < |x.state.fibers| && g < |m.fibers| && g < |s'.fibers| && g < |m'.fibers|
  {
    m.fibers[g] == x.state.fibers[g] && !Dead(m.fibers[g].state) && s'.fibers[g] == m'.fibers[g]
  }

  predicate Left(x: Split, m: State, s': State, m': State, g: nat)
    requires g < |x.state.fibers| && g < |m.fibers| && g < |s'.fibers| && g < |m'.fibers|
  {
    s'.fibers[g] == x.state.fibers[g] && m'.fibers[g] == m.fibers[g]
  }

  ghost predicate Abreast(x: Split, s': State, m': State) {
    && m'.io == s'.io && m'.calls == s'.calls && m'.timers == s'.timers
    && m'.active == s'.active && m'.idle == s'.idle && m'.stopped == s'.stopped && m'.late == s'.late
    && |x.state.fibers| <= |s'.fibers| == |m'.fibers|
    && (forall g :: |x.state.fibers| <= g < |s'.fibers| ==> m'.fibers[g] == s'.fibers[g])
  }

  // What a plain step may do: leave the holding workers alone, and move the same fibers in the same way.
  lemma PlainFrame(x: Split, m: State, s': State, m': State)
    requires Merges(x, m) && Abreast(x, s', m')
    requires |s'.workers| == |m'.workers| == |m.workers|
    requires forall w :: 0 <= w < |m.workers| ==>
                           if w in x.holding then s'.workers[w] == x.state.workers[w] && m'.workers[w] == m.workers[w]
                           else m'.workers[w] == s'.workers[w]
    requires forall g :: 0 <= g < |m.fibers| ==> Moved(x, m, s', m', g) || Left(x, m, s', m', g)
    ensures Merges(x.(state := s'), m')
  {
    hide Fetched, Resumed;
    var x' := x.(state := s');
    forall w | 0 <= w < |m'.workers|
      ensures SameWorker(x', m', w)
    {
      assert SameWorker(x, m, w);
      if w in x.holding {
        var f := x.state.workers[w].phase.fiber;
        assert Moved(x, m, s', m', f) || Left(x, m, s', m', f);
      }
    }
    forall g | 0 <= g < |m'.fibers|
      ensures SameFiber(x', m', g)
    {
      if g < |m.fibers| {
        assert SameFiber(x, m, g);
        assert Moved(x, m, s', m', g) || Left(x, m, s', m', g);
      }
    }
  }

  // A step of a running fiber leaves the workers alone, and the other fibers where they are.
  lemma QuietFrame(x: Split, m: State, s': State, m': State, f: nat)
    requires Merges(x, m) && Abreast(x, s', m') && Executing(x.state, f)
    requires Quiet(x.state, s') && Quiet(m, m') && s'.fibers[f] == m'.fibers[f]
    requires forall g :: 0 <= g < |m.fibers| && g != f ==> Moved(x, m, s', m', g) || Left(x, m, s', m', g)
    ensures Merges(x.(state := s'), m')
  {
    hide Fetching;
    RunningSame(x, m, f);
    forall w | 0 <= w < |m.workers|
      ensures w !in x.holding ==> m'.workers[w] == s'.workers[w]
    {
      assert SameWorker(x, m, w);
    }
    PlainFrame(x, m, s', m');
  }

  lemma AliveSame(x: Split, m: State, c: nat)
    requires Merges(x, m) && c < |m.calls|
    ensures Alive(x.state, c) <==> Alive(m, c)
  {
    forall t | 0 <= t < |m.timers|
      ensures LockedOn(x.state, t, c) <==> LockedOn(m, t, c)
    {
      var place := m.timers[t].place;
      if place.Held? && place.fiber < |m.fibers| {
        assert SameFiber(x, m, place.fiber);
      }
    }
  }

  // What a step of a running fiber depends on.
  ghost predicate Agree(s: State, m: State, f: nat) {
    && Executing(m, f) && |m.fibers| == |s.fibers| && m.fibers[f] == s.fibers[f]
    && m.io == s.io && m.calls == s.calls && m.timers == s.timers
    && m.active == s.active && m.idle == s.idle && m.stopped == s.stopped && m.late == s.late
  }

  // Ordinary code other than deleting an event looks at no other fiber.
  lemma CodeMerges(x: Split, m: State, f: nat, code: CodeStep)
    requires Merges(x, m) && CodeEnabled(x.state, f, code) && !code.Unwatch?
    ensures CodeEnabled(m, f, code)
    ensures Merges(x.(state := ApplyCode(x.state, f, code)), ApplyCode(m, f, code))
  {
    RunningSame(x, m, f);
    CodeSame(x.state, m, f, code);
    CodeAlone(x.state, f, code);
    CodeAlone(m, f, code);
    CodeMovesOne(x.state, f, code);
    CodeMovesOne(m, f, code);
    hide CodeEnabled, ApplyCode, SameWorker, SameFiber;
    QuietFrame(x, m, ApplyCode(x.state, f, code), ApplyCode(m, f, code), f);
  }

  lemma CodeMovesOne(s: State, f: nat, code: CodeStep)
    requires CodeEnabled(s, f, code) && !code.Unwatch?
    ensures var s' := ApplyCode(s, f, code); |s.fibers| <= |s'.fibers|
    ensures var s' := ApplyCode(s, f, code); forall g :: 0 <= g < |s.fibers| && g != f ==> s'.fibers[g] == s.fibers[g]
  {
    hide AddEvent, SettleEvent, SettleAllEvents, DoUnwatch;
  }

  lemma CodeSame(s: State, m: State, f: nat, code: CodeStep)
    requires CodeEnabled(s, f, code) && !code.Unwatch? && Agree(s, m, f)
    ensures CodeEnabled(m, f, code)
    ensures Abreast(Split(s, {}), ApplyCode(s, f, code), ApplyCode(m, f, code))
    ensures ApplyCode(m, f, code).fibers[f] == ApplyCode(s, f, code).fibers[f]
  {
    hide AddEvent, SettleEvent, SettleAllEvents, DoUnwatch;
  }

  lemma IoSame(s: State, m: State, f: nat, hook: HookStep)
    requires HookEnabled(s, f, hook) && Agree(s, m, f)
    requires hook.IoReturn? || hook.IoArm? || hook.IoRegister?
    ensures HookEnabled(m, f, hook)
    ensures Abreast(Split(s, {}), ApplyHook(s, f, hook), ApplyHook(m, f, hook))
    ensures ApplyHook(m, f, hook).fibers[f] == ApplyHook(s, f, hook).fibers[f]
  {
    hide AddEvent, SettleEvent, Alive, DoIoCancel, DoIoJudge, DoCallbackWake, DoCallbackLock, DoCallbackSettle;
  }

  lemma CancelSame(s: State, m: State, f: nat)
    requires HookEnabled(s, f, IoCancel) && Agree(s, m, f)
    ensures HookEnabled(m, f, IoCancel)
    ensures Abreast(Split(s, {}), ApplyHook(s, f, IoCancel), ApplyHook(m, f, IoCancel))
    ensures ApplyHook(m, f, IoCancel).fibers[f] == ApplyHook(s, f, IoCancel).fibers[f]
  {
    hide AddEvent, SettleEvent, Alive, DoIoArm, DoIoRegister, DoIoJudge, DoCallbackWake, DoCallbackLock;
    hide DoCallbackSettle, CancelTimer;
    CancelTimerSame(s, m, f, s.fibers[f].local.armed);
  }

  lemma CancelTimerSame(s: State, m: State, f: nat, timer: Option<nat>)
    requires Agree(s, m, f)
    ensures Agree(CancelTimer(s, timer), CancelTimer(m, timer), f)
    ensures CancelTimer(s, timer).fibers == s.fibers && CancelTimer(m, timer).fibers == m.fibers
    ensures CancelTimer(s, timer).calls == s.calls
  {
  }

  lemma JudgeSame(s: State, m: State, f: nat)
    requires HookEnabled(s, f, IoJudge) && Agree(s, m, f)
    ensures HookEnabled(m, f, IoJudge)
    ensures Abreast(Split(s, {}), ApplyHook(s, f, IoJudge), ApplyHook(m, f, IoJudge))
    ensures ApplyHook(m, f, IoJudge).fibers[f] == ApplyHook(s, f, IoJudge).fibers[f]
  {
    hide AddEvent, SettleEvent, Alive, DoIoArm, DoIoRegister, DoIoCancel, DoCallbackWake, DoCallbackLock;
    hide DoCallbackSettle;
  }

  lemma CallbackSame(s: State, m: State, f: nat, hook: HookStep)
    requires HookEnabled(s, f, hook) && Agree(s, m, f)
    requires hook.CallbackWake? || hook.CallbackLock? || hook.CallbackSettle?
    requires forall c: nat :: c < |m.calls| ==> (Alive(s, c) <==> Alive(m, c))
    ensures HookEnabled(m, f, hook)
    ensures Abreast(Split(s, {}), ApplyHook(s, f, hook), ApplyHook(m, f, hook))
    ensures ApplyHook(m, f, hook).fibers[f] == ApplyHook(s, f, hook).fibers[f]
  {
    hide AddEvent, SettleEvent, Alive, DoIoArm, DoIoRegister, DoIoCancel, DoIoJudge;
  }

  lemma HookMerges(x: Split, m: State, f: nat, hook: HookStep)
    requires Merges(x, m) && HookEnabled(x.state, f, hook)
    ensures HookEnabled(m, f, hook)
    ensures Merges(x.(state := ApplyHook(x.state, f, hook)), ApplyHook(m, f, hook))
  {
    hide ApplyHook, SameWorker, SameFiber, Alive, InCall, InCallback;
    RunningSame(x, m, f);
    forall c: nat | c < |m.calls|
      ensures Alive(x.state, c) <==> Alive(m, c)
    {
      AliveSame(x, m, c);
    }
    if hook.CallbackWake? || hook.CallbackLock? || hook.CallbackSettle? {
      CallbackSame(x.state, m, f, hook);
    } else if hook.IoCancel? {
      CancelSame(x.state, m, f);
    } else if hook.IoJudge? {
      JudgeSame(x.state, m, f);
    } else {
      IoSame(x.state, m, f, hook);
    }
    HookAlone(x.state, f, hook);
    HookAlone(m, f, hook);
    QuietFrame(x, m, ApplyHook(x.state, f, hook), ApplyHook(m, f, hook), f);
  }

  // The waiter of a registered event waits, so it is not one that is held here.
  lemma UnwatchMerges(x: Split, m: State, f: nat, code: CodeStep)
    requires Inv(m) && Merges(x, m) && CodeEnabled(x.state, f, code) && code.Unwatch?
    ensures CodeEnabled(m, f, code)
    ensures Merges(x.(state := ApplyCode(x.state, f, code)), ApplyCode(m, f, code))
  {
    hide IoInv, CrewInv, SameWorker, DeleteEvent, Waits, Sleeps, Carries;
    RunningSame(x, m, f);
    if DeleteEvent(m.io, code.fd, code.kind, code.willing).Done? {
      DeletedHasWaiter(m, code.fd, code.kind, code.willing);
      var g := m.io.table[code.fd].Waiter(code.kind).value;
      assert SameFiber(x, m, g);
      assert FiberOk(m, g);
    }
    UnwatchFrame(x, m, f, code);
  }

  lemma DeletedHasWaiter(m: State, fd: nat, kind: Kind, willing: bool)
    requires Woven(m) && DeleteEvent(m.io, fd, kind, willing).Done?
    ensures fd < |m.io.table| && m.io.table[fd].Waiter(kind).Some?
    ensures var g := m.io.table[fd].Waiter(kind).value; g < |m.fibers| && WaitsFor(m, g, fd, kind)
  {
    assert SlotOk(m, fd, kind);
  }

  predicate SameWaiter(s: State, m: State, code: CodeStep)
    requires code.Unwatch?
  {
    DeleteEvent(m.io, code.fd, code.kind, code.willing).Done? ==>
      && code.fd < |m.io.table| && m.io.table[code.fd].Waiter(code.kind).Some?
      && var g := m.io.table[code.fd].Waiter(code.kind).value;
         g < |m.fibers| == |s.fibers| && m.fibers[g] == s.fibers[g] && !Dead(m.fibers[g].state)
  }

  lemma ForgetSame(s: State, m: State, f: nat, waiter: Option<nat>)
    requires Agree(s, m, f)
    requires waiter.Some? ==> waiter.value < |m.fibers| && m.fibers[waiter.value] == s.fibers[waiter.value]
    ensures var s', m' := Forget(s, waiter), Forget(m, waiter);
            && Agree(s', m', f) && |s'.fibers| == |s.fibers|
            && (waiter.Some? ==> m'.fibers[waiter.value] == s'.fibers[waiter.value])
            && forall g :: 0 <= g < |s.fibers| && waiter != Some(g) ==>
                             s'.fibers[g] == s.fibers[g] && m'.fibers[g] == m.fibers[g]
  {
  }

  lemma UnwatchSame(x: Split, m: State, f: nat, code: CodeStep)
    requires Agree(x.state, m, f) && !Dead(m.fibers[f].state) && code.Unwatch? && SameWaiter(x.state, m, code)
    requires CodeEnabled(x.state, f, code)
    ensures CodeEnabled(m, f, code)
    ensures var s', m' := ApplyCode(x.state, f, code), ApplyCode(m, f, code);
            && Abreast(x, s', m') && s'.fibers[f] == m'.fibers[f] && |s'.fibers| == |x.state.fibers|
            && forall g :: 0 <= g < |m.fibers| && g != f ==> Moved(x, m, s', m', g) || Left(x, m, s', m', g)
  {
    hide Forget, DeleteEvent, AddEvent, SettleEvent, SettleAllEvents, DoWatch, DoIoBegin, DoSleepBegin;
    if DeleteEvent(m.io, code.fd, code.kind, code.willing).Done? {
      ForgetSame(x.state, m, f, m.io.table[code.fd].Waiter(code.kind));
    }
  }

  lemma UnwatchFrame(x: Split, m: State, f: nat, code: CodeStep)
    requires Merges(x, m) && CodeEnabled(x.state, f, code) && code.Unwatch? && SameWaiter(x.state, m, code)
    ensures CodeEnabled(m, f, code)
    ensures Merges(x.(state := ApplyCode(x.state, f, code)), ApplyCode(m, f, code))
  {
    hide ApplyCode, SameWaiter, SameWorker, SameFiber, Moved, Left;
    RunningSame(x, m, f);
    UnwatchSame(x, m, f, code);
    CodeAlone(x.state, f, code);
    CodeAlone(m, f, code);
    QuietFrame(x, m, ApplyCode(x.state, f, code), ApplyCode(m, f, code), f);
  }

  lemma ReturnMerges(x: Split, m: State, w: nat, f: nat, ending: Ending)
    requires Merges(x, m) && WorkerEnabled(x.state, w, Return(f, ending)) && w !in x.holding
    ensures WorkerEnabled(m, w, Return(f, ending))
    ensures Merges(x.(state := DoReturn(x.state, w, f, ending)), DoReturn(m, w, f, ending))
  {
    hide MayEnd, Parked, Fetched, Resumed;
    RunningSame(x, m, f);
    assert SameWorker(x, m, w);
    var s' := DoReturn(x.state, w, f, ending);
    var m' := DoReturn(m, w, f, ending);
    PlainFrame(x, m, s', m') by {
      forall v | 0 <= v < |m.workers|
        ensures v !in x.holding ==> m'.workers[v] == s'.workers[v]
      {
        assert SameWorker(x, m, v);
      }
      forall g | 0 <= g < |m.fibers|
        ensures Moved(x, m, s', m', g) || Left(x, m, s', m', g)
      {
        assert g != f ==> Left(x, m, s', m', g);
      }
    }
  }

  // One worker goes on, and no fiber that was there is touched.
  lemma WorkerFrame(x: Split, m: State, s': State, m': State, w: nat)
    requires Merges(x, m) && Abreast(x, s', m') && w < |m.workers| && w !in x.holding
    requires |s'.workers| == |m.workers| && s'.workers == x.state.workers[w := s'.workers[w]]
    requires m'.workers == m.workers[w := s'.workers[w]]
    requires s'.fibers[..|m.fibers|] == x.state.fibers && m'.fibers[..|m.fibers|] == m.fibers
    ensures Merges(x.(state := s'), m')
  {
    hide SameFiber, Fetching;
    forall v | 0 <= v < |m.workers|
      ensures if v in x.holding then s'.workers[v] == x.state.workers[v] && m'.workers[v] == m.workers[v]
              else m'.workers[v] == s'.workers[v]
    {
      assert SameWorker(x, m, v);
    }
    forall g | 0 <= g < |m.fibers|
      ensures Left(x, m, s', m', g)
    {
      assert s'.fibers[..|m.fibers|][g] == s'.fibers[g] && m'.fibers[..|m.fibers|][g] == m'.fibers[g];
    }
    PlainFrame(x, m, s', m');
  }

  lemma NoneEligibleSame(x: Split, m: State, w: nat)
    requires Inv(m) && Merges(x, m) && NoneEligible(x.state.io.tasks, w, Busy(x.state))
    ensures NoneEligible(m.io.tasks, w, Busy(m))
  {
    hide Inv, SameWorker, SameFiber, Busy;
    forall j | 0 <= j < |m.io.tasks|
      ensures !Eligible(m.io.tasks[j], w, Busy(m))
    {
      SameScan(x, m, j);
      assert !Eligible(x.state.io.tasks[j], w, Busy(x.state));
    }
  }

  lemma IdleSame(x: Split, m: State, w: nat, work: WorkerStep)
    requires Merges(x, m) && WorkerEnabled(x.state, w, work) && m.workers[w] == x.state.workers[w]
    requires !work.Take? && !work.Return? && !work.Pop? && !work.Rearm? && !work.Deliver?
    requires work.EnterIdle? || work.ExitWorker? ==> NoneEligible(m.io.tasks, w, Busy(m))
    ensures WorkerEnabled(m, w, work)
    ensures var s' := ApplyWorker(x.state, w, work);
            var m' := ApplyWorker(m, w, work);
            && Abreast(x, s', m') && |s'.workers| == |m.workers| && s'.workers == x.state.workers[w := s'.workers[w]]
            && m'.workers == m.workers[w := s'.workers[w]] && s'.fibers == x.state.fibers && m'.fibers == m.fibers
  {
    hide NoneEligible, Dispatch, SameWorker, SameFiber, DoTake, DoReturn, DoPop, DoRearm, DoDeliver;
  }

  // A polling worker's timer goes on in the same way, and a new fiber may stand behind the others.
  ghost predicate Continued(x: Split, m: State, s': State, m': State) {
    && Abreast(x, s', m') && s'.workers == x.state.workers && m'.workers == m.workers
    && s'.fibers[..|x.state.fibers|] == x.state.fibers
    && |m.fibers| <= |m'.fibers| && m'.fibers[..|m.fibers|] == m.fibers
  }

  lemma PopSame(x: Split, m: State, w: nat, t: nat)
    requires Merges(x, m) && t < |m.timers|
    ensures Continued(x, m, DoPop(x.state, w, t), DoPop(m, w, t))
    ensures Continued(x, m, DoRearm(x.state, w, t), DoRearm(m, w, t))
  {
    hide SameWorker, SameFiber;
  }

  lemma DeliverSame(x: Split, m: State, t: nat)
    requires Merges(x, m) && t < |m.timers|
    ensures Continued(x, m, DoDeliver(x.state, t), DoDeliver(m, t))
  {
    hide SameWorker, SameFiber;
  }

  lemma TimerSame(x: Split, m: State, w: nat, work: WorkerStep)
    requires Merges(x, m) && WorkerEnabled(x.state, w, work) && m.workers[w] == x.state.workers[w]
    requires work.Pop? || work.Rearm? || work.Deliver?
    ensures WorkerEnabled(m, w, work)
    ensures Continued(x, m, ApplyWorker(x.state, w, work), ApplyWorker(m, w, work))
  {
    hide NoneEligible, FirstEligible, Dispatch, SameWorker, SameFiber, DoTake, DoReturn, DoPop, DoRearm, DoDeliver;
    hide Continued;
    if work.Deliver? {
      DeliverSame(x, m, work.timer);
    } else {
      PopSame(x, m, w, work.timer);
    }
  }

  lemma IdleMerges(x: Split, m: State, w: nat, work: WorkerStep)
    requires Inv(m) && Merges(x, m) && WorkerEnabled(x.state, w, work) && w !in x.holding
    requires !work.Take? && !work.Return?
    ensures WorkerEnabled(m, w, work)
    ensures Merges(x.(state := ApplyWorker(x.state, w, work)), ApplyWorker(m, w, work))
  {
    hide Inv, ApplyWorker, SameFiber, Fetching, NoneEligible, FirstEligible, Dispatch;
    assert SameWorker(x, m, w);
    if work.Pop? || work.Rearm? || work.Deliver? {
      TimerSame(x, m, w, work);
    } else {
      if work.EnterIdle? || work.ExitWorker? {
        NoneEligibleSame(x, m, w);
      }
      IdleSame(x, m, w, work);
    }
    WorkerFrame(x, m, ApplyWorker(x.state, w, work), ApplyWorker(m, w, work), w);
  }

  // The caller's thread has not begun to take tasks.
  lemma CallerMerges(x: Split, m: State, outside: OutsideStep, w: nat)
    requires Merges(x, m) && OutsideEnabled(x.state, outside)
    requires outside == CallerReadsTimers(w) || outside == CallerReadsPending(w) || outside == CallerReadsTasks(w)
    ensures OutsideEnabled(m, outside)
    ensures Merges(x.(state := ApplyOutside(x.state, outside)), ApplyOutside(m, outside))
  {
    hide SameFiber, Fetching;
    assert SameWorker(x, m, w);
    WorkerFrame(x, m, ApplyOutside(x.state, outside), ApplyOutside(m, outside), w);
  }

  lemma OutsideMerges(x: Split, m: State, outside: OutsideStep)
    requires Merges(x, m) && OutsideEnabled(x.state, outside)
    ensures OutsideEnabled(m, outside)
    ensures Merges(x.(state := ApplyOutside(x.state, outside)), ApplyOutside(m, outside))
  {
    hide SameFiber, Fetching;
    match outside
    case CallerReadsTimers(w) => CallerMerges(x, m, outside, w);
    case CallerReadsPending(w) => CallerMerges(x, m, outside, w);
    case CallerReadsTasks(w) => CallerMerges(x, m, outside, w);
    case _ =>
      var s' := ApplyOutside(x.state, outside);
      var m' := ApplyOutside(m, outside);
      forall v | 0 <= v < |m.workers|
        ensures v !in x.holding ==> m'.workers[v] == s'.workers[v]
      {
        assert SameWorker(x, m, v);
      }
      PlainFrame(x, m, s', m');
  }

  lemma PlainMerges(x: Split, m: State, plain: Step)
    requires Inv(m) && Merges(x, m) && SplitPossible(x, Plain(plain))
    ensures Possible(m, plain) && Merges(SplitApply(x, Plain(plain)), Apply(m, plain))
  {
    hide Inv, Merges, WorkerEnabled, CodeEnabled, HookEnabled, OutsideEnabled;
    hide ApplyWorker, ApplyCode, ApplyHook, ApplyOutside;
    match plain
    case OnWorker(w, work) =>
      if work.Return? {
        ReturnMerges(x, m, w, work.fiber, work.ending);
        ReturnApplied(x.state, w, work.fiber, work.ending);
        ReturnApplied(m, w, work.fiber, work.ending);
      } else {
        IdleMerges(x, m, w, work);
      }
    case InCode(f, code) =>
      if code.Unwatch? {
        UnwatchMerges(x, m, f, code);
      } else {
        CodeMerges(x, m, f, code);
      }
    case InHook(f, hook) => HookMerges(x, m, f, hook);
    case Outside(outside) => OutsideMerges(x, m, outside);
  }

  lemma ReturnApplied(s: State, w: nat, f: nat, ending: Ending)
    requires WorkerEnabled(s, w, Return(f, ending))
    ensures ApplyWorker(s, w, Return(f, ending)) == DoReturn(s, w, f, ending)
  {
  }

  // A fiber that may be scheduled by hand here may be so in the merged state.
  lemma ConsiderateSame(x: Split, m: State, plain: Step)
    requires Merges(x, m) && SplitPossible(x, Plain(plain)) && SplitConsiderate(x, Plain(plain))
    ensures Considerate(m, plain)
  {
    if plain.InCode? && plain.code.Resubmit? {
      assert SameFiber(x, m, plain.code.other);
    }
  }

  // --- every considerate run -----------------------------------------------------------------------------------

  function Joined(steps: seq<SplitStep>): seq<Step> {
    if steps == [] then []
    else
      (match steps[0]
       case Grab(w, i) => [OnWorker(w, Take(i))]
       case SwapIn(_) => []
       case Plain(plain) => [plain]) + Joined(steps[1..])
  }

  // One step here is one considerate step in the merged state, or none.
  lemma StepMerges(x: Split, m: State, step: SplitStep)
    requires Inv(m) && Merges(x, m) && SplitPossible(x, step) && SplitConsiderate(x, step)
    ensures step.SwapIn? ==> Merges(SplitApply(x, step), m)
    ensures !step.SwapIn? ==>
              var joined := if step.Grab? then OnWorker(step.worker, Take(step.index)) else step.step;
              Enabled(m, joined) && Merges(SplitApply(x, step), Apply(m, joined))
  {
    hide Inv, Merges, SplitConsiderate;
    match step
    case Grab(w, i) =>
      GrabMerges(x, m, w, i);
      TakeApplied(m, OnWorker(w, Take(i)));
    case SwapIn(w) => SwapInMerges(x, m, w);
    case Plain(plain) =>
      PlainMerges(x, m, plain);
      ConsiderateSame(x, m, plain);
  }

  lemma {:induction false} RunMerges(x: Split, m: State, steps: seq<SplitStep>)
    requires Inv(m) && Merges(x, m) && SplitRuns(x, steps) && AllConsiderate(x, steps)
    ensures Runs(m, Joined(steps)) && Merges(SplitAfter(x, steps), After(m, Joined(steps)))
    decreases |steps|
  {
    hide Inv, Merges, SplitPossible, SplitConsiderate, SplitApply, Possible, Considerate, Apply;
    if steps != [] {
      StepMerges(x, m, steps[0]);
      if steps[0].SwapIn? {
        RunMerges(SplitApply(x, steps[0]), m, steps[1..]);
        assert Joined(steps) == Joined(steps[1..]);
      } else {
        var joined := if steps[0].Grab? then OnWorker(steps[0].worker, Take(steps[0].index)) else steps[0].step;
        StepKeepsInv(m, joined);
        RunMerges(SplitApply(x, steps[0]), Apply(m, joined), steps[1..]);
        assert Joined(steps)[0] == joined && Joined(steps)[1..] == Joined(steps[1..]);
      }
    }
  }

  ghost predicate ReachesSplit(pool: nat, useCaller: bool, steps: seq<SplitStep>) {
    SplitRuns(Split(InitState(pool, useCaller), {}), steps)
  }

  ghost function ReachedSplit(pool: nat, useCaller: bool, steps: seq<SplitStep>): Split
    requires ReachesSplit(pool, useCaller, steps)
  {
    SplitAfter(Split(InitState(pool, useCaller), {}), steps)
  }

  lemma NothingHeld(s: State)
    ensures Merges(Split(s, {}), s)
  {
  }

  // Take and swapIn apart, every run of considerate code is a run of Runtime, whose states differ only in having
  // swapped in already what is held.
  lemma HandoverMerges(pool: nat, useCaller: bool, steps: seq<SplitStep>)
    requires ReachesSplit(pool, useCaller, steps)
    requires AllConsiderate(Split(InitState(pool, useCaller), {}), steps)
    ensures Reaches(pool, useCaller, Joined(steps))
    ensures Merges(ReachedSplit(pool, useCaller, steps), Reached(pool, useCaller, Joined(steps)))
  {
    hide Inv, Merges, SplitRuns, SplitAfter, AllConsiderate, Runs, After;
    InitInv(pool, useCaller);
    NothingHeld(InitState(pool, useCaller));
    RunMerges(Split(InitState(pool, useCaller), {}), InitState(pool, useCaller), steps);
  }

  // Either worker has taken the living fiber and not given it back.
  predicate BothHave(s: State, v: nat, w: nat, f: nat) {
    f < |s.fibers| && !Dead(s.fibers[f].state) && InPhase(s, v, Running(f)) && InPhase(s, w, Running(f))
  }

  lemma SoleRunner(x: Split, m: State, v: nat, w: nat, f: nat)
    requires Merges(x, m) && Paired(m) && BothHave(x.state, v, w, f)
    ensures v == w
  {
    assert SameWorker(x, m, v);
    assert SameWorker(x, m, w);
    assert m.fibers[f].runner == v;
  }

  // So no swapIn of considerate code asserts, and from the take on a living fiber belongs to one worker.
  lemma OneWorkerPerFiber(pool: nat, useCaller: bool, steps: seq<SplitStep>)
    requires ReachesSplit(pool, useCaller, steps)
    requires AllConsiderate(Split(InitState(pool, useCaller), {}), steps)
    ensures var x := ReachedSplit(pool, useCaller, steps);
            && (forall w :: w in x.holding ==> SplitPossible(x, SwapIn(w)))
            && (forall v, w, f :: BothHave(x.state, v, w, f) ==> v == w)
  {
    hide Merges, SplitPossible, SplitRuns, SplitAfter, AllConsiderate, Runs, After, IoInv, Woven;
    HandoverMerges(pool, useCaller, steps);
    ReachableInv(pool, useCaller, Joined(steps));
    var x := ReachedSplit(pool, useCaller, steps);
    var m := Reached(pool, useCaller, Joined(steps));
    forall w | w in x.holding
      ensures SplitPossible(x, SwapIn(w))
    {
      HeldCanSwapIn(x, m, w);
    }
    forall v, w, f | BothHave(x.state, v, w, f)
      ensures v == w
    {
      SoleRunner(x, m, v, w, f);
    }
  }

  // --- a run of inconsiderate code -----------------------------------------------------------------------------

  // Two workers and one fiber.
  function Pair(tasks: seq<Task>, fiber: Fiber, w0: Phase, w1: Phase, active: int, holding: set<nat>): Split {
    Split(State(InitIo().(tasks := tasks), [fiber], [], [], [Worker(w0, false), Worker(w1, false)],
                active, 0, false, false), holding)
  }

  // A fiber schedules itself and yields READY; both of its entries are taken before either worker swaps it in.
  function TwiceStates(): seq<Split> {
    var entry := Task(0, None);
    [Pair([entry], Fiber(Initialize, Start, 0), Scanning, Scanning, 0, {}),
     Pair([], Fiber(Initialize, Start, 0), Running(0), Scanning, 1, {0}),
     Pair([], Fiber(Execute, User, 0), Running(0), Scanning, 1, {}),
     Pair([entry], Fiber(Execute, User, 0), Running(0), Scanning, 1, {}),
     Pair([entry, entry], Fiber(Ready, User, 0), Scanning, Scanning, 0, {}),
     Pair([entry], Fiber(Ready, User, 0), Running(0), Scanning, 1, {0}),
     Pair([], Fiber(Ready, User, 0), Running(0), Running(0), 2, {0, 1})]
  }

  function TwiceSteps(): seq<SplitStep> {
    [Grab(0, 0), SwapIn(0), Plain(InCode(0, Resubmit(0))), Plain(OnWorker(0, Return(0, YieldedReady))),
     Grab(0, 0), Grab(1, 0)]
  }

  ghost predicate SplitLeads(x: Split, step: SplitStep, x': Split) {
    SplitPossible(x, step) && SplitApply(x, step) == x'
  }

  lemma {:induction false} SplitChain(steps: seq<SplitStep>, t: seq<Split>)
    requires |t| == |steps| + 1 && forall i :: 0 <= i < |steps| ==> SplitLeads(t[i], steps[i], t[i + 1])
    ensures SplitRuns(t[0], steps) && SplitAfter(t[0], steps) == t[|steps|]
    decreases |steps|
  {
    hide SplitPossible, SplitApply;
    if steps != [] {
      assert SplitLeads(t[0], steps[0], t[1]);
      forall i | 0 <= i < |steps| - 1
        ensures SplitLeads(t[1..][i], steps[1..][i], t[1..][i + 1])
      {
        assert SplitLeads(t[i + 1], steps[i + 1], t[i + 2]);
      }
      SplitChain(steps[1..], t[1..]);
    }
  }

  lemma TwiceBegins()
    ensures SplitLeads(TwiceStates()[0], Grab(0, 0), TwiceStates()[1])
    ensures SplitLeads(TwiceStates()[1], SwapIn(0), TwiceStates()[2])
  {
    var t := TwiceStates();
    assert Without(t[0].state.io.tasks, 0) == [];
    assert SplitPossible(t[0], Grab(0, 0));
    assert Holds(t[1], 0, 0);
  }

  lemma TwiceQueued()
    ensures SplitLeads(TwiceStates()[2], Plain(InCode(0, Resubmit(0))), TwiceStates()[3])
    ensures SplitLeads(TwiceStates()[3], Plain(OnWorker(0, Return(0, YieldedReady))), TwiceStates()[4])
  {
    assert |InitIo().table| == INITIAL_SLOTS;
  }

  lemma TwiceTaken()
    ensures SplitLeads(TwiceStates()[4], Grab(0, 0), TwiceStates()[5])
    ensures SplitLeads(TwiceStates()[5], Grab(1, 0), TwiceStates()[6])
  {
    var t := TwiceStates();
    assert Without(t[4].state.io.tasks, 0) == [Task(0, None)];
    assert Without(t[5].state.io.tasks, 0) == [];
    assert SplitPossible(t[4], Grab(0, 0));
    assert SplitPossible(t[5], Grab(1, 0));
  }

  lemma TwiceSubmitted()
    ensures SplitLeads(Split(InitState(2, false), {}), Plain(Outside(OutsideSubmit(None))), TwiceStates()[0])
  {
    assert InitState(2, false).workers == [Worker(Scanning, false), Worker(Scanning, false)];
    assert Apply(InitState(2, false), Outside(OutsideSubmit(None))) == TwiceStates()[0].state;
  }

  lemma TwiceLeads()
    ensures forall i :: 0 <= i < |TwiceSteps()| ==> SplitLeads(TwiceStates()[i], TwiceSteps()[i], TwiceStates()[i + 1])
  {
    TwiceBegins();
    TwiceQueued();
    TwiceTaken();
    hide SplitLeads;
  }

  // The fiber is queued twice and two workers have taken it; once the first has swapped it in, the second's swapIn
  // asserts, and between them nothing keeps both from getting past the assert.
  lemma TwoWorkersOneFiber() returns (steps: seq<SplitStep>)
    ensures ReachesSplit(2, false, steps)
    ensures var x := ReachedSplit(2, false, steps);
            && Holds(x, 0, 0) && Holds(x, 1, 0) && SplitPossible(x, SwapIn(0)) && SplitPossible(x, SwapIn(1))
            && !SplitPossible(SplitApply(x, SwapIn(0)), SwapIn(1))
  {
    hide SplitLeads, SplitPossible, SplitApply, SplitRuns, SplitAfter;
    var start := Split(InitState(2, false), {});
    var submit := Plain(Outside(OutsideSubmit(None)));
    steps := [submit] + TwiceSteps();
    TwiceSubmitted();
    TwiceLeads();
    TwiceChain(start, submit, steps);
    SecondAsserts(TwiceStates()[6]);
  }

  lemma SecondAsserts(x: Split)
    requires x == TwiceStates()[6]
    ensures Holds(x, 0, 0) && Holds(x, 1, 0) && SplitPossible(x, SwapIn(0)) && SplitPossible(x, SwapIn(1))
    ensures !SplitPossible(SplitApply(x, SwapIn(0)), SwapIn(1))
  {
    assert Holds(x, 0, 0) && Holds(x, 1, 0);
  }

  lemma TwiceChain(start: Split, submit: SplitStep, steps: seq<SplitStep>)
    requires SplitLeads(start, submit, TwiceStates()[0]) && steps == [submit] + TwiceSteps()
    requires forall i :: 0 <= i < |TwiceSteps()| ==> SplitLeads(TwiceStates()[i], TwiceSteps()[i], TwiceStates()[i + 1])
    ensures SplitRuns(start, steps) && SplitAfter(start, steps) == TwiceStates()[6]
  {
    hide SplitLeads;
    var t := [start] + TwiceStates();
    forall i | 0 <= i < |steps|
      ensures SplitLeads(t[i], steps[i], t[i + 1])
    {
      assert i > 0 ==> SplitLeads(TwiceStates()[i - 1], TwiceSteps()[i - 1], TwiceStates()[i]);
    }
    SplitChain(steps, t);
  }
}
