/** What holds in every state the runtime can reach. */
module Safety {

  import opened Base
  import opened TaskQueue
  import opened Fibers
  import opened EventTable
  import opened Runtime
  import opened Weave
  import opened Crew

  ghost predicate Inv(s: State) {
    IoInv(s.io) && Woven(s) && CrewInv(s)
  }

  ghost predicate Reaches(pool: nat, useCaller: bool, steps: seq<Step>) {
    Runs(InitState(pool, useCaller), steps)
  }

  ghost function Reached(pool: nat, useCaller: bool, steps: seq<Step>): State
    requires Reaches(pool, useCaller, steps)
  {
    After(InitState(pool, useCaller), steps)
  }

  // --- the invariant over every run --------------------------------------------------------------------------

  lemma CodeKeepsIo(s: State, f: nat, step: CodeStep)
    requires IoInv(s.io) && CodeEnabled(s, f, step)
    ensures IoInv(ApplyCode(s, f, step).io)
  {
    match step
    case Watch(fd, kind, willing) => AddKeepsInv(s.io, fd, kind, |s.fibers|, willing);
    case Unwatch(fd, kind, willing) => DeleteKeepsInv(s.io, fd, kind, willing);
    case Settle(fd, kind, willing) => SettleKeepsInv(s.io, fd, kind, willing);
    case SettleAll(fd, willing) => SettleAllKeepsInv(s.io, fd, willing);
    case _ =>
  }

  lemma HookKeepsIo(s: State, f: nat, step: HookStep)
    requires IoInv(s.io) && HookEnabled(s, f, step)
    ensures IoInv(ApplyHook(s, f, step).io)
  {
    match step
    case IoRegister(willing) =>
      var call := s.calls[s.fibers[f].local.call];
      AddKeepsInv(s.io, call.fd, call.kind, f, willing);
    case CallbackSettle(willing) =>
      var call := s.calls[s.timers[s.fibers[f].local.timer].callback.call];
      SettleKeepsInv(s.io, call.fd, call.kind, willing);
    case _ =>
  }

  // The table invariant does not look at the queue.
  lemma TasksAside(io: Io, tasks: seq<Task>)
    requires IoInv(io)
    ensures IoInv(io.(tasks := tasks))
  {
  }

  lemma WorkerKeepsIo(s: State, w: nat, step: WorkerStep)
    requires IoInv(s.io) && WorkerEnabled(s, w, step)
    ensures IoInv(ApplyWorker(s, w, step).io)
  {
    hide IoInv, Dispatch, NoneEligible, Eligible;
    if step.Take? {
      TasksAside(s.io, Without(s.io.tasks, step.index));
    } else if step.Deliver? || step.Return? {
      TasksAside(s.io, ApplyWorker(s, w, step).io.tasks);
    } else if step.Report? {
      DispatchKeepsInv(s.io, step.fd, step.reported, step.failed, step.willing);
    }
  }

  lemma StepKeepsIo(s: State, step: Step)
    requires IoInv(s.io) && Possible(s, step)
    ensures IoInv(Apply(s, step).io)
  {
    hide ApplyWorker, ApplyCode, ApplyHook;
    match step
    case OnWorker(w, work) => WorkerKeepsIo(s, w, work);
    case InCode(f, code) => CodeKeepsIo(s, f, code);
    case InHook(f, hook) => HookKeepsIo(s, f, hook);
    case Outside(outside) =>
  }

  lemma WorkerKeepsWeave(s: State, w: nat, step: WorkerStep)
    requires Inv(s) && WorkerEnabled(s, w, step)
    ensures Woven(ApplyWorker(s, w, step))
  {
    match step
    case Take(i) => TakeWeave(s, w, i);
    case Return(f, ending) => ReturnWeave(s, w, f, ending);
    case Pop(t) => PopWeave(s, w, t);
    case Rearm(t) => RearmWeave(s, w, t);
    case Deliver(t) => DeliverWeave(s, w, t);
    case Report(fd, reported, failed, willing) => DispatchWeave(s, fd, reported, failed, willing);
    case _ => SameWeave(s, ApplyWorker(s, w, step));
  }

  lemma CodeKeepsWeave(s: State, f: nat, step: CodeStep)
    requires Inv(s) && CodeEnabled(s, f, step) && Considerate(s, InCode(f, step))
    ensures Woven(ApplyCode(s, f, step))
  {
    match step
    case Submit(pin) => SpawnWeave(s, pin);
    case Resubmit(g) => ResubmitWeave(s, g);
    case StartTimer(recurring) => StartTimerWeave(s, recurring);
    case StopTimer(t) => StopTimerWeave(s, t);
    case Watch(fd, kind, willing) => WatchWeave(s, f, fd, kind, willing);
    case Unwatch(fd, kind, willing) => UnwatchWeave(s, f, fd, kind, willing);
    case Settle(fd, kind, willing) => SettleWeave(s, fd, kind, willing);
    case SettleAll(fd, willing) => SettleAllWeave(s, fd, willing);
    case CloseFd(fd) => SameWeave(s, ApplyCode(s, f, step));
    case IoBegin(fd, kind, timed, retry) => IoBeginWeave(s, f, fd, kind, timed, retry);
    case SleepBegin => SleepBeginWeave(s, f);
  }

  lemma HookKeepsWeave(s: State, f: nat, step: HookStep)
    requires Inv(s) && HookEnabled(s, f, step)
    ensures Woven(ApplyHook(s, f, step))
  {
    match step
    case IoReturn =>
      assert FiberOk(s, f);
      EndCallWeave(s, f, s.fibers[f].local.call, Result.Finished);
    case IoArm => IoArmWeave(s, f);
    case IoRegister(willing) => IoRegisterWeave(s, f, willing);
    case IoCancel => IoCancelWeave(s, f);
    case IoJudge => IoJudgeWeave(s, f);
    case CallbackWake => WakeWeave(s, f);
    case CallbackLock => LockWeave(s, f);
    case CallbackSettle(willing) => CallbackSettleWeave(s, f, willing);
  }

  lemma OutsideKeepsWeave(s: State, step: OutsideStep)
    requires Inv(s) && OutsideEnabled(s, step)
    ensures Woven(ApplyOutside(s, step))
  {
    match step
    case OutsideSubmit(pin) =>
      SpawnWeave(s, pin);
      SameWeave(Spawn(s, Start, pin), ApplyOutside(s, step));
    case OutsideTimer(recurring) =>
      StartTimerWeave(s, recurring);
      SameWeave(AddTimer(s, UserCallback, recurring), ApplyOutside(s, step));
    case _ => SameWeave(s, ApplyOutside(s, step));
  }

  lemma StepKeepsCrew(s: State, step: Step)
    requires CrewInv(s) && Possible(s, step)
    ensures CrewInv(Apply(s, step))
  {
    hide CrewInv, ApplyWorker, ApplyCode, ApplyHook, ApplyOutside;
    match step
    case OnWorker(w, work) => WorkerKeepsCrew(s, w, work);
    case InCode(f, code) => CodeKeepsCrew(s, f, code);
    case InHook(f, hook) => HookKeepsCrew(s, f, hook);
    case Outside(outside) => OutsideKeepsCrew(s, outside);
  }

  lemma StepKeepsInv(s: State, step: Step)
    requires Inv(s) && Enabled(s, step)
    ensures Inv(Apply(s, step))
  {
    hide IoInv, Woven, CrewInv, ApplyWorker, ApplyCode, ApplyHook, ApplyOutside;
    StepKeepsIo(s, step);
    StepKeepsCrew(s, step);
    match step
    case OnWorker(w, work) => WorkerKeepsWeave(s, w, work);
    case InCode(f, code) => CodeKeepsWeave(s, f, code);
    case InHook(f, hook) => HookKeepsWeave(s, f, hook);
    case Outside(outside) => OutsideKeepsWeave(s, outside);
  }

  lemma {:induction false} RunKeepsInv(s: State, steps: seq<Step>)
    requires Inv(s) && Runs(s, steps)
    ensures Inv(After(s, steps))
    decreases |steps|
  {
    hide Inv, Possible, Considerate, Apply;
    if steps != [] {
      StepKeepsInv(s, steps[0]);
      RunKeepsInv(Apply(s, steps[0]), steps[1..]);
    }
  }

  lemma InitInv(pool: nat, useCaller: bool)
    ensures Inv(InitState(pool, useCaller))
  {
    InitIoInv();
    InitCrew(pool, useCaller);
  }

  // The whole invariant, in every state any run reaches from any start.
  lemma ReachableInv(pool: nat, useCaller: bool, steps: seq<Step>)
    requires Reaches(pool, useCaller, steps)
    ensures Inv(Reached(pool, useCaller, steps))
  {
    InitInv(pool, useCaller);
    RunKeepsInv(InitState(pool, useCaller), steps);
  }

  // --- runs in which ordinary code schedules whatever fiber it likes -----------------------------------------

  ghost predicate ReachesFreely(pool: nat, useCaller: bool, steps: seq<Step>) {
    FreeRuns(InitState(pool, useCaller), steps)
  }

  ghost function ReachedFreely(pool: nat, useCaller: bool, steps: seq<Step>): State
    requires ReachesFreely(pool, useCaller, steps)
  {
    FreeAfter(InitState(pool, useCaller), steps)
  }

  lemma {:induction false} FreeRunKeepsIo(s: State, steps: seq<Step>)
    requires IoInv(s.io) && FreeRuns(s, steps)
    ensures IoInv(FreeAfter(s, steps).io)
    decreases |steps|
  {
    hide IoInv, Possible, Apply;
    if steps != [] {
      StepKeepsIo(s, steps[0]);
      FreeRunKeepsIo(Apply(s, steps[0]), steps[1..]);
    }
  }

  lemma {:induction false} FreeRunKeepsCrew(s: State, steps: seq<Step>)
    requires CrewInv(s) && FreeRuns(s, steps)
    ensures CrewInv(FreeAfter(s, steps))
    decreases |steps|
  {
    hide CrewInv, Possible, Apply;
    if steps != [] {
      StepKeepsCrew(s, steps[0]);
      FreeRunKeepsCrew(Apply(s, steps[0]), steps[1..]);
    }
  }

  // --- events ------------------------------------------------------------------------------------------------

  // Event conservation and the epoll mirror, on every run.
  lemma EventsConserved(pool: nat, useCaller: bool, steps: seq<Step>)
    requires ReachesFreely(pool, useCaller, steps)
    ensures var io := ReachedFreely(pool, useCaller, steps).io;
            && io.adds == io.deletes + io.triggers + Bits(io.table)
            && io.pending == Bits(io.table)
            && (forall fd: nat :: fd < |io.table| ==> Interest(io.epoll, fd) == io.table[fd].registered)
            && (forall fd: nat :: fd in io.epoll ==> fd < |io.table|)
            && (forall fd: nat :: fd < |io.table| ==> io.table[fd].fd == fd)
  {
    InitIoInv();
    FreeRunKeepsIo(InitState(pool, useCaller), steps);
  }

  // A registered event always names a fiber that is waiting for just that event, so no two events name the same
  // fiber and every trigger schedules one.
  lemma EveryEventHasItsWaiter(pool: nat, useCaller: bool, steps: seq<Step>, fd: nat, kind: Kind, fd': nat, kind': Kind)
    requires Reaches(pool, useCaller, steps)
    ensures var s := Reached(pool, useCaller, steps);
            Registered(s.io, fd, kind) ==>
              var waiter := s.io.table[fd].Waiter(kind);
              && waiter.Some? && waiter.value < |s.fibers| && WaitsFor(s, waiter.value, fd, kind)
              && (Registered(s.io, fd', kind') && s.io.table[fd'].Waiter(kind') == waiter ==>
                    fd == fd' && kind == kind')
              && Trigger(s.io, fd, kind).tasks == s.io.tasks + [Task(waiter.value, None)]
  {
    ReachableInv(pool, useCaller, steps);
    var s := Reached(pool, useCaller, steps);
    if Registered(s.io, fd, kind) {
      assert SlotOk(s, fd, kind);
      if Registered(s.io, fd', kind') {
        assert SlotOk(s, fd', kind');
      }
    }
  }

  // --- descriptors that cannot be used again ---------------------------------------------------------------

  // Epoll still holds the descriptor, with no interest.
  predicate Stale(s: State, fd: nat) {
    fd in s.io.epoll && fd < |s.io.table| && s.io.table[fd].registered == {}
  }

  predicate Closes(step: Step, fd: nat) {
    step.InCode? && step.code == CloseFd(fd)
  }

  lemma AddKeepsStale(io: Io, other: nat, kind: Kind, fiber: nat, willing: bool, fd: nat)
    requires IoInv(io) && fd in io.epoll && fd < |io.table| && io.table[fd].registered == {}
    ensures var r := AddEvent(io, other, kind, fiber, willing);
            !r.Aborted? ==> fd in r.io.epoll && fd < |r.io.table| && r.io.table[fd].registered == {}
    ensures AddEvent(io, fd, kind, fiber, willing).Refused?
  {
    hide Grown, Bits;
    GrowingKeepsInv(io, other);
    GrowingKeepsInv(io, fd);
  }

  lemma WorkerKeepsStale(s: State, w: nat, work: WorkerStep, fd: nat)
    requires IoInv(s.io) && WorkerEnabled(s, w, work) && Stale(s, fd)
    ensures Stale(ApplyWorker(s, w, work), fd)
  {
    hide NoneEligible, Eligible, TriggerAll, IoInv;
    if work.Report? {
      var registered := s.io.table[work.fd].registered;
      var actual := RealEvents(registered, work.reported, work.failed);
      var left := registered - actual;
      var op := if left != {} then CtlMod else CtlDel;
      NarrowedElsewhere(s.io, work.fd, actual, op, left, fd);
    }
  }

  lemma NarrowedElsewhere(io: Io, other: nat, kinds: set<Kind>, op: CtlOp, left: set<Kind>, fd: nat)
    requires IoInv(io) && other < |io.table| && fd < |io.table| && io.table[fd].registered == {}
    ensures var io' := TriggerAll(io.(epoll := Ctl(io.epoll, op, other, left)), other, kinds);
            && |io'.table| == |io.table| && io'.table[fd].registered == {}
            && io'.epoll == Ctl(io.epoll, op, other, left)
  {
    TriggerAllKeepsInv(io.(epoll := Ctl(io.epoll, op, other, left)), other, kinds);
  }

  lemma CodeKeepsStale(s: State, f: nat, code: CodeStep, fd: nat)
    requires IoInv(s.io) && CodeEnabled(s, f, code) && Stale(s, fd) && code != CloseFd(fd)
    ensures Stale(ApplyCode(s, f, code), fd)
  {
    hide TriggerAll, AddEvent, IoInv;
    match code
    case Watch(other, kind, willing) => AddKeepsStale(s.io, other, kind, |s.fibers|, willing, fd);
    case SettleAll(other, willing) =>
      if SettleAllEvents(s.io, other, willing).Done? {
        NarrowedElsewhere(s.io, other, s.io.table[other].registered, CtlDel, {}, fd);
      }
    case _ =>
  }

  lemma HookKeepsStale(s: State, f: nat, hook: HookStep, fd: nat)
    requires IoInv(s.io) && HookEnabled(s, f, hook) && Stale(s, fd)
    ensures Stale(ApplyHook(s, f, hook), fd)
  {
    hide AddEvent, IoInv, Alive;
    if hook.IoRegister? {
      var call := s.calls[s.fibers[f].local.call];
      AddKeepsStale(s.io, call.fd, call.kind, f, hook.willing, fd);
    }
  }

  lemma StepKeepsStale(s: State, step: Step, fd: nat)
    requires IoInv(s.io) && Possible(s, step) && Stale(s, fd) && !Closes(step, fd)
    ensures Stale(Apply(s, step), fd)
  {
    hide IoInv, ApplyWorker, ApplyCode, ApplyHook;
    match step
    case OnWorker(w, work) => WorkerKeepsStale(s, w, work, fd);
    case InCode(f, code) => CodeKeepsStale(s, f, code, fd);
    case InHook(f, hook) => HookKeepsStale(s, f, hook, fd);
    case Outside(outside) =>
  }

  ghost predicate RefusesAdds(io: Io, fd: nat) {
    && |io.table| >= INITIAL_SLOTS
    && forall kind, fiber: nat, willing :: AddEvent(io, fd, kind, fiber, willing).Refused?
  }

  // Until it is closed, every later addEvent on such a descriptor is refused.
  lemma {:induction false} StaleUntilClosed(s: State, steps: seq<Step>, fd: nat)
    requires IoInv(s.io) && FreeRuns(s, steps) && Stale(s, fd)
    requires forall i :: 0 <= i < |steps| ==> !Closes(steps[i], fd)
    ensures Stale(FreeAfter(s, steps), fd) && RefusesAdds(FreeAfter(s, steps).io, fd)
    decreases |steps|
  {
    hide Possible, Apply, AddEvent, RefusesAdds;
    if steps != [] {
      StepKeepsIo(s, steps[0]);
      StepKeepsStale(s, steps[0], fd);
      StaleUntilClosed(Apply(s, steps[0]), steps[1..], fd);
    } else {
      StaleRefuses(s, fd);
    }
  }

  lemma StaleRefuses(s: State, fd: nat)
    requires IoInv(s.io) && Stale(s, fd)
    ensures RefusesAdds(s.io, fd)
  {
    hide AddEvent;
    forall kind, fiber: nat, willing
      ensures AddEvent(s.io, fd, kind, fiber, willing).Refused?
    {
      AddKeepsStale(s.io, fd, kind, fiber, willing, fd);
    }
  }

  lemma SettledIsStale(s: State, f: nat, fd: nat)
    requires IoInv(s.io) && HookEnabled(s, f, CallbackSettle(true))
    requires var call := s.calls[s.timers[s.fibers[f].local.timer].callback.call];
             call.fd == fd && Registered(s.io, fd, call.kind) && s.io.table[fd].registered == {call.kind}
    ensures Stale(Apply(s, InHook(f, CallbackSettle(true))), fd)
  {
  }

  lemma WaitsRefused(e: State, fd: nat, g: nat, kind: Kind, willing: bool)
    requires RefusesAdds(e.io, fd)
    ensures HookEnabled(e, g, IoRegister(willing)) && e.calls[e.fibers[g].local.call].fd == fd ==>
              Apply(e, InHook(g, IoRegister(willing))).fibers[g].local.IoRefused?
    ensures CodeEnabled(e, g, Watch(fd, kind, willing)) ==>
              Apply(e, InCode(g, Watch(fd, kind, willing))).fibers == e.fibers
  {
    hide AddEvent;
  }

  // One timeout that settles the last event of a descriptor makes every later wait on it fail until it is closed: in
  // do_io and connect, and in ordinary code.
  lemma UnusableAfterTimeout(s: State, f: nat, steps: seq<Step>, fd: nat, g: nat, kind: Kind, willing: bool)
    requires IoInv(s.io) && HookEnabled(s, f, CallbackSettle(true))
    requires var call := s.calls[s.timers[s.fibers[f].local.timer].callback.call];
             call.fd == fd && Registered(s.io, fd, call.kind) && s.io.table[fd].registered == {call.kind}
    requires FreeRuns(Apply(s, InHook(f, CallbackSettle(true))), steps)
    requires forall i :: 0 <= i < |steps| ==> !Closes(steps[i], fd)
    ensures var e := FreeAfter(Apply(s, InHook(f, CallbackSettle(true))), steps);
            && RefusesAdds(e.io, fd)
            && (HookEnabled(e, g, IoRegister(willing)) && e.calls[e.fibers[g].local.call].fd == fd ==>
                  Apply(e, InHook(g, IoRegister(willing))).fibers[g].local.IoRefused?)
            && (CodeEnabled(e, g, Watch(fd, kind, willing)) ==>
                  Apply(e, InCode(g, Watch(fd, kind, willing))).fibers == e.fibers)
  {
    hide IoInv, FreeRuns, FreeAfter, AddEvent, SettleEvent, ApplyHook, ApplyCode, Stale, RefusesAdds;
    var s1 := Apply(s, InHook(f, CallbackSettle(true)));
    SettledIsStale(s, f, fd);
    StepKeepsIo(s, InHook(f, CallbackSettle(true)));
    StaleUntilClosed(s1, steps, fd);
    WaitsRefused(FreeAfter(s1, steps), fd, g, kind, willing);
  }

  // --- nobody is stranded ------------------------------------------------------------------------------------

  // Parked by do_io or connect with its event not deleted under it, or by sleep.
  predicate ParkedByHook(s: State, f: nat) {
    && f < |s.fibers|
    && match s.fibers[f].local
       case IoParked(c, _) => c < |s.calls| && !s.calls[c].abandoned
       case SleepParked(_) => true
       case _ => false
  }

  predicate UnderWay(s: State, t: nat)
    requires t < |s.timers|
  {
    match s.timers[t].place
    case Armed => true
    case Lifted(w) => InPhase(s, w, Polling)
    case InFlight(w) => InPhase(s, w, Polling)
    case Held(k) => Executing(s, k) || Queued(s, k) > 0
    case _ => false
  }

  // A registered event, an entry of its own, or a wake-up timer that is armed, popped, queued or running.
  ghost predicate HasWaker(s: State, f: nat) {
    || (exists fd, kind :: Bit(s, f, fd, kind))
    || Queued(s, f) > 0
    || (exists t: nat :: t < |s.timers| && s.timers[t].callback == WakeFiber(f) && UnderWay(s, t))
  }

  // The fiber that carries a fired callback is queued or running.
  lemma HeldIsBusy(s: State, t: nat)
    requires Inv(s) && t < |s.timers|
    ensures s.timers[t].place.Held? ==>
              Executing(s, s.timers[t].place.fiber) || Queued(s, s.timers[t].place.fiber) > 0
  {
    assert TimerOk(s, t);
    if s.timers[t].place.Held? {
      assert FiberOk(s, s.timers[t].place.fiber);
    }
  }

  lemma ParkedHasWaker(s: State, f: nat)
    requires Inv(s) && ParkedByHook(s, f)
    ensures HasWaker(s, f)
  {
    assert FiberOk(s, f);
    match s.fibers[f].local
    case IoParked(c, _) =>
      if Queued(s, f) == 0 {
        assert Bit(s, f, s.calls[c].fd, s.calls[c].kind);
      }
    case SleepParked(t) =>
      HeldIsBusy(s, t);
      assert s.timers[t].callback == WakeFiber(f);
      if !s.timers[t].place.Spent? {
        assert UnderWay(s, t);
      }
  }

  lemma NobodyStranded(pool: nat, useCaller: bool, steps: seq<Step>)
    requires Reaches(pool, useCaller, steps)
    ensures var s := Reached(pool, useCaller, steps); forall f :: ParkedByHook(s, f) ==> HasWaker(s, f)
  {
    ReachableInv(pool, useCaller, steps);
    var s := Reached(pool, useCaller, steps);
    forall f | ParkedByHook(s, f)
      ensures HasWaker(s, f)
    {
      ParkedHasWaker(s, f);
    }
  }

  // --- completion --------------------------------------------------------------------------------------------

  // Some idle worker has popped a timer whose callback it has not scheduled yet.
  predicate CallbackInFlight(s: State) {
    exists t :: 0 <= t < |s.timers| && Out(s.timers[t].place)
  }

  lemma {:induction false} NoBits(table: seq<Slot>, fd: nat)
    requires Bits(table) == 0 && fd < |table|
    ensures table[fd].registered == {}
  {
    if table[fd].registered != {} {
      BitPositive(table, fd);
    }
  }

  // When isCompleted would hold, a fiber is still parked exactly when the callback that is to wake one has been
  // popped by an idle worker and not scheduled yet.
  lemma CompletedAndParked(s: State)
    requires Inv(s) && Completed(s)
    ensures (exists f :: ParkedByHook(s, f)) <==>
            (exists t :: 0 <= t < |s.timers| && s.timers[t].place.InFlight? && s.timers[t].callback.WakeFiber?)
  {
    forall f: nat
      ensures !Executing(s, f)
    {
      if Executing(s, f) {
        ExecutingMeansActive(s, f);
      }
    }
    forall f | ParkedByHook(s, f)
      ensures exists t :: 0 <= t < |s.timers| && s.timers[t].place.InFlight? && s.timers[t].callback.WakeFiber?
    {
      ParkedInFlight(s, f);
    }
    forall t | 0 <= t < |s.timers| && s.timers[t].place.InFlight? && s.timers[t].callback.WakeFiber?
      ensures exists f :: ParkedByHook(s, f)
    {
      assert TimerOk(s, t);
      var f := s.timers[t].callback.fiber;
      assert FiberOk(s, f);
      assert ParkedByHook(s, f);
    }
  }

  lemma ParkedInFlight(s: State, f: nat)
    requires Inv(s) && Completed(s) && ParkedByHook(s, f)
    requires forall g: nat :: !Executing(s, g)
    ensures exists t :: 0 <= t < |s.timers| && s.timers[t].place.InFlight? && s.timers[t].callback.WakeFiber?
  {
    assert FiberOk(s, f);
    match s.fibers[f].local
    case IoParked(c, _) =>
      var fd := s.calls[c].fd;
      if fd < |s.io.table| {
        NoBits(s.io.table, fd);
      }
      assert false;
    case SleepParked(t) =>
      HeldIsBusy(s, t);
      assert TimerOk(s, t);
      assert s.timers[t].place.InFlight?;
  }

  predicate FromOutside(step: Step) {
    step.Outside? && (step.outside.OutsideSubmit? || step.outside.OutsideTimer?)
  }

  // Completed with nothing in flight: no step of the runtime itself can create work again.
  lemma CompletedStays(s: State, step: Step)
    requires IoInv(s.io) && CrewInv(s) && Completed(s) && !CallbackInFlight(s)
    requires Possible(s, step) && !FromOutside(step)
    ensures Completed(Apply(s, step)) && !CallbackInFlight(Apply(s, step))
  {
    forall f: nat
      ensures !Executing(s, f)
    {
      if Executing(s, f) {
        ExecutingMeansActive(s, f);
      }
    }
    match step
    case OnWorker(w, Report(fd, reported, failed, willing)) => NoBits(s.io.table, fd);
    case OnWorker(w, Discard) => RunningPositive(s.workers, w);
    case _ =>
  }

  lemma {:induction false} CompletionPermanent(s: State, steps: seq<Step>)
    requires IoInv(s.io) && CrewInv(s) && Completed(s) && !CallbackInFlight(s) && FreeRuns(s, steps)
    requires forall i :: 0 <= i < |steps| ==> !FromOutside(steps[i])
    ensures Completed(FreeAfter(s, steps))
    decreases |steps|
  {
    hide IoInv, CrewInv, Possible, Apply;
    if steps != [] {
      CompletedStays(s, steps[0]);
      StepKeepsIo(s, steps[0]);
      StepKeepsCrew(s, steps[0]);
      CompletionPermanent(Apply(s, steps[0]), steps[1..]);
    }
  }

  // With a callback in flight the polling worker's next step arms a timer or puts a task into the queue.
  lemma InFlightUndoesCompletion(s: State, t: nat)
    requires CrewInv(s) && t < |s.timers| && Out(s.timers[t].place)
    ensures var work := if s.timers[t].place.Lifted? then Rearm(t) else Deliver(t);
            var step := OnWorker(s.timers[t].place.worker, work);
            Possible(s, step) && !FromOutside(step) && !Completed(Apply(s, step))
  {
    if s.timers[t].place.Lifted? {
      assert DoRearm(s, s.timers[t].place.worker, t).timers[t].place.Armed?;
    }
  }

  // So isCompleted is permanent exactly when no popped callback is waiting to be scheduled.
  lemma CompletionPermanentIff(s: State)
    requires IoInv(s.io) && CrewInv(s) && Completed(s)
    ensures !CallbackInFlight(s) <==>
            forall step :: Possible(s, step) && !FromOutside(step) ==> Completed(Apply(s, step))
  {
    if CallbackInFlight(s) {
      var t :| 0 <= t < |s.timers| && Out(s.timers[t].place);
      InFlightUndoesCompletion(s, t);
    } else {
      forall step | Possible(s, step) && !FromOutside(step)
        ensures Completed(Apply(s, step))
      {
        CompletedStays(s, step);
      }
    }
  }

  // --- shutdown ----------------------------------------------------------------------------------------------

  // Nothing comes from outside once the scheduler is stopped.
  ghost predicate Punctual(s: State, steps: seq<Step>)
    requires FreeRuns(s, steps)
    decreases |steps|
  {
    steps == [] || (!(FromOutside(steps[0]) && s.stopped) && Punctual(Apply(s, steps[0]), steps[1..]))
  }

  lemma LateOnlyFromOutside(s: State, step: Step)
    requires Possible(s, step) && !s.late && !(FromOutside(step) && s.stopped)
    ensures !Apply(s, step).late
  {
  }

  lemma {:induction false} PunctualNotLate(s: State, steps: seq<Step>)
    requires FreeRuns(s, steps) && Punctual(s, steps) && !s.late
    ensures !FreeAfter(s, steps).late
    decreases |steps|
  {
    hide Possible, Apply;
    if steps != [] {
      LateOnlyFromOutside(s, steps[0]);
      PunctualNotLate(Apply(s, steps[0]), steps[1..]);
    }
  }

  predicate AllExited(s: State) {
    s.workers != [] && forall w :: 0 <= w < |s.workers| ==> s.workers[w].phase.Exited?
  }

  // When every worker has exited, the queue is empty, no fiber is running and no callback is in flight.
  lemma ShutdownLeavesNoTask(pool: nat, useCaller: bool, steps: seq<Step>)
    requires ReachesFreely(pool, useCaller, steps) && Punctual(InitState(pool, useCaller), steps)
    requires AllExited(ReachedFreely(pool, useCaller, steps))
    ensures var s := ReachedFreely(pool, useCaller, steps);
            && s.stopped && s.io.tasks == [] && s.active == 0 && s.idle == 0
            && !CallbackInFlight(s) && forall f: nat :: !Executing(s, f)
  {
    InitCrew(pool, useCaller);
    FreeRunKeepsCrew(InitState(pool, useCaller), steps);
    PunctualNotLate(InitState(pool, useCaller), steps);
    var s := ReachedFreely(pool, useCaller, steps);
    assert AllDone(s);
    NobodyBusy(s.workers);
    forall f: nat
      ensures !Executing(s, f)
    {
      if Executing(s, f) {
        ExecutingMeansActive(s, f);
      }
    }
  }

  // What such a shutdown can still leave behind: a fiber stays parked exactly when the timer that is to wake it is
  // armed or the event it waits for is registered, now that nobody is left to poll for either.
  lemma ShutdownStrandsIff(pool: nat, useCaller: bool, steps: seq<Step>, f: nat)
    requires Reaches(pool, useCaller, steps) && ReachesFreely(pool, useCaller, steps)
    requires Punctual(InitState(pool, useCaller), steps) && AllExited(Reached(pool, useCaller, steps))
    ensures var s := Reached(pool, useCaller, steps);
            ParkedByHook(s, f) <==>
            || (exists t :: 0 <= t < |s.timers| && s.timers[t].callback == WakeFiber(f) && s.timers[t].place.Armed?)
            || (f < |s.fibers| && !s.fibers[f].local.EventWait? && exists fd, kind :: Bit(s, f, fd, kind))
  {
    RunsAreFree(InitState(pool, useCaller), steps);
    ShutdownLeavesNoTask(pool, useCaller, steps);
    ReachableInv(pool, useCaller, steps);
    var s := Reached(pool, useCaller, steps);
    if ParkedByHook(s, f) {
      LeftParked(s, f);
    }
    forall t | 0 <= t < |s.timers| && s.timers[t].callback == WakeFiber(f) && s.timers[t].place.Armed?
      ensures ParkedByHook(s, f)
    {
      assert TimerOk(s, t);
      assert FiberOk(s, f);
    }
    forall fd, kind | f < |s.fibers| && !s.fibers[f].local.EventWait? && Bit(s, f, fd, kind)
      ensures ParkedByHook(s, f)
    {
      assert SlotOk(s, fd, kind);
      assert FiberOk(s, f);
    }
  }

  lemma LeftParked(s: State, f: nat)
    requires Inv(s) && ParkedByHook(s, f)
    requires s.io.tasks == [] && !CallbackInFlight(s) && forall g: nat :: !Executing(s, g)
    ensures || (exists t :: 0 <= t < |s.timers| && s.timers[t].callback == WakeFiber(f) && s.timers[t].place.Armed?)
            || (f < |s.fibers| && !s.fibers[f].local.EventWait? && exists fd, kind :: Bit(s, f, fd, kind))
  {
    assert FiberOk(s, f);
    match s.fibers[f].local
    case IoParked(c, _) => assert Bit(s, f, s.calls[c].fd, s.calls[c].kind);
    case SleepParked(t) =>
      HeldIsBusy(s, t);
      assert s.timers[t].callback == WakeFiber(f) && s.timers[t].place.Armed?;
  }

  // --- workers -----------------------------------------------------------------------------------------------

  // A living fiber of considerate code has at most one entry in the queue.
  lemma OneEntryEach(pool: nat, useCaller: bool, steps: seq<Step>, f: nat)
    requires Reaches(pool, useCaller, steps)
    ensures var s := Reached(pool, useCaller, steps);
            f < |s.fibers| && !Dead(s.fibers[f].state) ==> Queued(s, f) <= 1
  {
    ReachableInv(pool, useCaller, steps);
    var s := Reached(pool, useCaller, steps);
    if f < |s.fibers| {
      assert FiberOk(s, f);
    }
  }

  // The two counters, one worker to a running fiber, and one running fiber to a worker.
  lemma WorkersAccounted(pool: nat, useCaller: bool, steps: seq<Step>)
    requires ReachesFreely(pool, useCaller, steps)
    ensures var s := ReachedFreely(pool, useCaller, steps);
            && s.active == RunningCount(s.workers) && s.idle == IdleCount(s.workers)
            && (forall f :: 0 <= f < |s.fibers| ==>
                  (s.fibers[f].state.Execute? <==> exists w :: InPhase(s, w, Running(f))))
            && (forall v, w, f :: InPhase(s, v, Running(f)) && InPhase(s, w, Running(f)) ==> v == w)
  {
    InitCrew(pool, useCaller);
    FreeRunKeepsCrew(InitState(pool, useCaller), steps);
    var s := ReachedFreely(pool, useCaller, steps);
    forall f | 0 <= f < |s.fibers|
      ensures s.fibers[f].state.Execute? <==> exists w :: InPhase(s, w, Running(f))
    {
      if s.fibers[f].state.Execute? {
        assert InPhase(s, s.fibers[f].runner, Running(f));
      }
    }
  }

  // A dead fiber's code is over.
  ghost predicate Buried(s: State) {
    forall f :: 0 <= f < |s.fibers| && Dead(s.fibers[f].state) ==> s.fibers[f].local.Over?
  }

  // No dead fiber is touched, and none is made whose code is not over.
  ghost predicate DeadLeft(s: State, s': State) {
    && |s.fibers| <= |s'.fibers| && Buried(s')
    && forall f :: 0 <= f < |s.fibers| && Dead(s.fibers[f].state) ==> s'.fibers[f] == s.fibers[f]
  }

  lemma TakeLeavesDead(s: State, w: nat, i: nat)
    requires Buried(s) && WorkerEnabled(s, w, Take(i))
    ensures DeadLeft(s, DoTake(s, w, i))
  {
    hide Eligible;
  }

  lemma ReturnLeavesDead(s: State, w: nat, f: nat, ending: Ending)
    requires Buried(s) && WorkerEnabled(s, w, Return(f, ending))
    ensures DeadLeft(s, DoReturn(s, w, f, ending))
  {
  }

  lemma IdleLeavesDead(s: State, w: nat, work: WorkerStep)
    requires Buried(s) && WorkerEnabled(s, w, work) && !work.Take? && !work.Return?
    ensures DeadLeft(s, ApplyWorker(s, w, work))
  {
    hide Dispatch, NoneEligible, FirstEligible, DoTake, DoReturn;
  }

  lemma DeadUntouched(s: State, step: Step)
    requires Buried(s) && Possible(s, step)
    ensures DeadLeft(s, Apply(s, step))
  {
    hide ApplyCode, ApplyHook, DoTake, DoReturn, Dispatch;
    match step
    case OnWorker(w, work) =>
      if work.Take? {
        TakeLeavesDead(s, w, work.index);
      } else if work.Return? {
        ReturnLeavesDead(s, w, work.fiber, work.ending);
      } else {
        IdleLeavesDead(s, w, work);
      }
    case InCode(g, code) => CodeAlone(s, g, code);
    case InHook(g, hook) => HookAlone(s, g, hook);
    case Outside(outside) =>
  }

  // A terminated fiber is never swapped in again, whatever entries of it are still queued.
  lemma {:induction false} DeadStaysDead(s: State, steps: seq<Step>, f: nat)
    requires Buried(s) && FreeRuns(s, steps) && f < |s.fibers| && Dead(s.fibers[f].state)
    ensures f < |FreeAfter(s, steps).fibers| && FreeAfter(s, steps).fibers[f] == s.fibers[f]
    decreases |steps|
  {
    hide Buried, Possible, Apply;
    if steps != [] {
      DeadUntouched(s, steps[0]);
      DeadStaysDead(Apply(s, steps[0]), steps[1..], f);
    }
  }

  lemma {:induction false} FreeRunKeepsBuried(s: State, steps: seq<Step>)
    requires Buried(s) && FreeRuns(s, steps)
    ensures Buried(FreeAfter(s, steps))
    decreases |steps|
  {
    hide Buried, Possible, Apply;
    if steps != [] {
      DeadUntouched(s, steps[0]);
      FreeRunKeepsBuried(Apply(s, steps[0]), steps[1..]);
    }
  }

  // So in every run: whatever happens after a fiber has ended, it stays as it ended.
  lemma DeadForGood(pool: nat, useCaller: bool, before: seq<Step>, after: seq<Step>, f: nat)
    requires ReachesFreely(pool, useCaller, before)
    requires var s := ReachedFreely(pool, useCaller, before);
             FreeRuns(s, after) && f < |s.fibers| && Dead(s.fibers[f].state)
    ensures var s := ReachedFreely(pool, useCaller, before);
            f < |FreeAfter(s, after).fibers| && FreeAfter(s, after).fibers[f] == s.fibers[f]
  {
    FreeRunKeepsBuried(InitState(pool, useCaller), before);
    DeadStaysDead(ReachedFreely(pool, useCaller, before), after, f);
  }
}
