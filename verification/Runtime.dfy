/** The coroutine runtime as a transition system. */
module Runtime {

  // `Scheduler::run` on every worker, `IOManager::idle`, the hooked calls do_io, connect_with_timeout and sleep, timer
  // callbacks, ordinary fiber code, and threads outside the pool.
  //
  // One step is one lock-protected region of the source, with these exceptions: taking a task is one step with swapIn
  // (Handover takes the two apart), and swapIn returning is one step with the re-enqueue. The three reads inside
  // IOManager::isCompleted are three steps, for a worker and for the caller's thread, and so are popping an expired
  // timer, putting a recurring one back, scheduling its callback, and handling one epoll report.

  import opened Base
  import opened TaskQueue
  import opened Fibers
  import opened EventTable

  // Where a fiber stands in its code.
  datatype Local =
    | Start                                          // created from a callback, not yet begun
    | User                                           // ordinary code
    | IoTop(call: nat)                               // do_io: about to try the original function
    | IoArmed(call: nat, armed: Option<nat>)         // EAGAIN seen, timer (if any) added
    | IoRefused(call: nat, armed: Option<nat>)       // addEvent returned false
    | IoRegistered(call: nat, armed: Option<nat>)    // addEvent succeeded, YieldToHold is next
    | IoParked(call: nat, armed: Option<nat>)
    | IoWoken(call: nat, armed: Option<nat>)         // swapped in again, cancelTimer is next
    | IoChecked(call: nat)                           // timer cancelled, the flag is read next
    | SleepArmed(timer: nat)                         // timer added, YieldToHold is next
    | SleepParked(timer: nat)
    | EventWait(fd: nat, kind: Kind)                 // built by addEvent from a callback, waiting for its event
    | CallbackStart(timer: nat)                      // runs the callback of a fired timer
    | CallbackLocked(timer: nat)                     // timeout callback past its weak_ptr lock
    | CallbackDone
    | SelfHeld                                       // called YieldToHold by itself
    | Dropped                                        // its event was deleted, nothing refers to it
    | Over

  // `runner` is the worker that runs the fiber; it means something in state Execute only.
  datatype Fiber = Fiber(state: FiberState, local: Local, runner: nat)

  // `Fresh`, `CallerPending`, `CallerTasks`: the caller's thread before the three reads of isCompleted in `stop`.
  // `Discarding`: the worker has taken an entry of a dead fiber and not yet counted itself out again.
  datatype Phase = Fresh | CallerPending | CallerTasks
                 | Scanning | Running(fiber: nat) | Discarding
                 | CheckingTimers | CheckingPending | CheckingTasks | Polling | Exited

  // `idleDone`: the worker's idle fiber has terminated (or, for the caller's thread, was never needed).
  datatype Worker = Worker(phase: Phase, idleDone: bool)

  datatype Callback = WakeFiber(fiber: nat) | TimeoutOf(call: nat) | UserCallback

  // `Lifted`: a recurring timer taken out of the set and not put back yet.
  datatype Place = Armed | Lifted(worker: nat) | InFlight(worker: nat) | Held(fiber: nat) | Spent | Cancelled

  datatype Timer = Timer(callback: Callback, recurring: bool, place: Place)

  datatype Result = TimedOut | Failed | Finished

  // One call of do_io (`retry`) or connect_with_timeout (not `retry`). `flag` is *timer_cancelled, remembering which
  // timer's callback set it; `result` is None while the call's frame, and with it the shared_ptr, is alive.
  datatype Call = Call(fiber: nat, fd: nat, kind: Kind, timed: bool, retry: bool,
                       flag: Option<nat>, result: Option<Result>, abandoned: bool)

  datatype State = State(io: Io, fibers: seq<Fiber>, calls: seq<Call>, timers: seq<Timer>, workers: seq<Worker>,
                         active: int, idle: int, stopped: bool, late: bool)

  // A worker's loop in `run` and `idle`, and a fiber giving its worker back.
  datatype WorkerStep =
    | Take(index: nat)
    | Discard
    | EnterIdle
    | ReadTimers
    | ReadPending
    | ReadTasks
    | Pop(timer: nat)
    | Rearm(timer: nat)
    | Deliver(timer: nat)
    | Report(fd: nat, reported: set<Kind>, failed: bool, willing: bool)
    | LeaveIdle
    | ExitWorker
    | Return(fiber: nat, ending: Ending)

  // Ordinary code of a running fiber.
  datatype CodeStep =
    | Submit(pin: Option<nat>)
    | Resubmit(other: nat)
    | StartTimer(recurring: bool)
    | StopTimer(timer: nat)
    | Watch(fd: nat, kind: Kind, willing: bool)
    | Unwatch(fd: nat, kind: Kind, willing: bool)
    | Settle(fd: nat, kind: Kind, willing: bool)
    | SettleAll(fd: nat, willing: bool)
    | CloseFd(fd: nat)
    | IoBegin(fd: nat, kind: Kind, timed: bool, retry: bool)
    | SleepBegin

  // A running fiber inside do_io or connect_with_timeout, or running a fired timer's callback.
  datatype HookStep =
    | IoReturn
    | IoArm
    | IoRegister(willing: bool)
    | IoCancel
    | IoJudge
    | CallbackWake
    | CallbackLock
    | CallbackSettle(willing: bool)

  // Threads outside the pool.
  datatype OutsideStep =
    | OutsideSubmit(pin: Option<nat>)
    | OutsideTimer(recurring: bool)
    | Stop
    | CallerReadsTimers(worker: nat)
    | CallerReadsPending(worker: nat)
    | CallerReadsTasks(worker: nat)

  datatype Step =
    | OnWorker(worker: nat, work: WorkerStep)
    | InCode(fiber: nat, code: CodeStep)
    | InHook(fiber: nat, hook: HookStep)
    | Outside(outside: OutsideStep)

  predicate IsTake(step: Step) {
    step.OnWorker? && step.work.Take?
  }

  // `pool` threads run at once; with `useCaller` one more joins when the scheduler is stopped.
  function InitState(pool: nat, useCaller: bool): State {
    State(InitIo(), [], [], [],
          seq(pool, _ => Worker(Scanning, false)) + if useCaller then [Worker(Fresh, false)] else [],
          0, 0, false, false)
  }

  // --- reading the state -------------------------------------------------------------------------------------

  predicate Executing(s: State, f: nat) {
    f < |s.fibers| && s.fibers[f].state.Execute?
  }

  function Busy(s: State): set<nat> {
    set f: nat | f < |s.fibers| && s.fibers[f].state.Execute?
  }

  predicate HasTimer(s: State) {
    exists t :: 0 <= t < |s.timers| && s.timers[t].place.Armed?
  }

  // IOManager::isCompleted, read at one instant.
  predicate Completed(s: State) {
    !HasTimer(s) && s.io.pending == 0 && s.stopped && s.io.tasks == [] && s.active == 0
  }

  predicate InPhase(s: State, w: nat, phase: Phase) {
    w < |s.workers| && s.workers[w].phase == phase
  }

  // Popped by a worker and not handed on yet.
  predicate Out(place: Place) {
    place.Lifted? || place.InFlight?
  }

  predicate OutWith(place: Place, w: nat) {
    Out(place) && place.worker == w
  }

  // The condition of a call's weak_ptr: its frame still stands, or some timeout callback holds a lock on it.
  ghost predicate Alive(s: State, c: nat)
    requires c < |s.calls|
  {
    || s.calls[c].result.None?
    || exists t :: 0 <= t < |s.timers| && LockedOn(s, t, c)
  }

  ghost predicate LockedOn(s: State, t: nat, c: nat)
    requires t < |s.timers|
  {
    && s.timers[t].callback == TimeoutOf(c)
    && s.timers[t].place.Held?
    && s.timers[t].place.fiber < |s.fibers|
    && s.fibers[s.timers[t].place.fiber].local == CallbackLocked(t)
  }

  // --- changing the state ------------------------------------------------------------------------------------

  function Enqueue(s: State, task: Task): State {
    s.(io := s.io.(tasks := s.io.tasks + [task]))
  }

  function NewFiber(s: State, local: Local): State {
    s.(fibers := s.fibers + [Fiber(Initialize, local, 0)])
  }

  // schedule(callback): a new fiber at the end of the queue.
  function Spawn(s: State, local: Local, pin: Option<nat>): State {
    Enqueue(NewFiber(s, local), Task(|s.fibers|, pin))
  }

  function MoveTo(s: State, f: nat, local: Local): State
    requires f < |s.fibers|
  {
    s.(fibers := s.fibers[f := s.fibers[f].(local := local)])
  }

  function SetPhase(s: State, w: nat, phase: Phase): State
    requires w < |s.workers|
  {
    s.(workers := s.workers[w := s.workers[w].(phase := phase)])
  }

  function AddTimer(s: State, callback: Callback, recurring: bool): State {
    s.(timers := s.timers + [Timer(callback, recurring, Armed)])
  }

  function PutTimer(s: State, t: nat, place: Place): State
    requires t < |s.timers|
  {
    s.(timers := s.timers[t := s.timers[t].(place := place)])
  }

  // cancelTimer; on a timer no longer in the set the source erases an end iterator, taken here to do nothing.
  function CancelTimer(s: State, timer: Option<nat>): State {
    if timer.Some? && timer.value < |s.timers| && s.timers[timer.value].place.Armed?
    then PutTimer(s, timer.value, Cancelled)
    else s
  }

  function EndCall(s: State, f: nat, c: nat, result: Result): State
    requires f < |s.fibers| && c < |s.calls|
  {
    MoveTo(s.(calls := s.calls[c := s.calls[c].(result := Some(result))]), f, User)
  }

  // The local state a fiber resumes in when a worker swaps it in.
  function Resumed(local: Local): Local {
    match local
    case Start => User
    case EventWait(_, _) => User
    case SelfHeld => User
    case SleepParked(_) => User
    case IoParked(c, t) => IoWoken(c, t)
    case _ => local
  }

  // The local state a fiber is left in when it gives its worker back.
  function Parked(local: Local, ending: Ending): Local {
    if ending.Finished? || ending.Threw? then Over
    else match local
         case IoRegistered(c, t) => IoParked(c, t)
         case SleepArmed(t) => SleepParked(t)
         case User => if ending.YieldedReady? then User else SelfHeld
         case _ => local
  }

  // Which endings the code at a point allows: the hooked calls only hold, a finished callback only ends.
  predicate MayEnd(local: Local, ending: Ending) {
    match local
    case User => true
    case IoRegistered(_, _) => ending.YieldedHold?
    case SleepArmed(_) => ending.YieldedHold?
    case CallbackDone => ending.Finished?
    case _ => false
  }

  function Abandon(s: State, c: nat): State {
    if c < |s.calls| then s.(calls := s.calls[c := s.calls[c].(abandoned := true)]) else s
  }

  // deleteEvent forgets the waiter of the event.
  function Forget(s: State, waiter: Option<nat>): State {
    if waiter.None? || waiter.value >= |s.fibers| then s
    else match s.fibers[waiter.value].local
         case EventWait(_, _) => MoveTo(s, waiter.value, Dropped)
         case IoRegistered(c, _) => Abandon(s, c)
         case IoParked(c, _) => Abandon(s, c)
         case _ => s
  }

  // --- the steps ---------------------------------------------------------------------------------------------

  ghost predicate WorkerEnabled(s: State, w: nat, step: WorkerStep) {
    w < |s.workers| &&
    match step
    case Take(i) =>
      && s.workers[w].phase.Scanning?
      && FirstEligible(s.io.tasks, w, Busy(s), i) && s.io.tasks[i].fiber < |s.fibers|
    case Discard => s.workers[w].phase.Discarding?
    case EnterIdle =>
      s.workers[w].phase.Scanning? && NoneEligible(s.io.tasks, w, Busy(s)) && !s.workers[w].idleDone
    case ReadTimers => s.workers[w].phase.CheckingTimers?
    case ReadPending => s.workers[w].phase.CheckingPending?
    case ReadTasks => s.workers[w].phase.CheckingTasks?
    case Pop(t) => s.workers[w].phase.Polling? && t < |s.timers| && s.timers[t].place.Armed?
    case Rearm(t) => s.workers[w].phase.Polling? && t < |s.timers| && s.timers[t].place == Lifted(w)
    case Deliver(t) => s.workers[w].phase.Polling? && t < |s.timers| && s.timers[t].place == InFlight(w)
    case Report(fd, reported, failed, willing) =>
      s.workers[w].phase.Polling? && fd < |s.io.table| && !Dispatch(s.io, fd, reported, failed, willing).Aborted?
    case LeaveIdle =>
      s.workers[w].phase.Polling? && forall t :: 0 <= t < |s.timers| ==> !OutWith(s.timers[t].place, w)
    case ExitWorker =>
      s.workers[w].phase.Scanning? && NoneEligible(s.io.tasks, w, Busy(s)) && s.workers[w].idleDone
    case Return(f, ending) =>
      s.workers[w].phase == Running(f) && Executing(s, f) && MayEnd(s.fibers[f].local, ending)
  }

  ghost predicate CodeEnabled(s: State, f: nat, step: CodeStep) {
    Executing(s, f) && s.fibers[f].local.User? && |s.io.table| >= INITIAL_SLOTS &&
    match step
    case Resubmit(g) => g < |s.fibers|
    case StopTimer(t) => t < |s.timers| && s.timers[t].callback.UserCallback? && s.timers[t].place.Armed?
    case Watch(fd, kind, willing) => !AddEvent(s.io, fd, kind, |s.fibers|, willing).Aborted?
    case CloseFd(fd) => fd < |s.io.table| ==> s.io.table[fd].registered == {}
    case _ => true
  }

  // The call a fiber is in, and the timer whose callback it runs.
  predicate InCall(s: State, f: nat) {
    f < |s.fibers| &&
    match s.fibers[f].local
    case IoTop(c) => c < |s.calls|
    case IoArmed(c, _) => c < |s.calls|
    case IoRefused(c, _) => c < |s.calls|
    case IoRegistered(c, _) => c < |s.calls|
    case IoParked(c, _) => c < |s.calls|
    case IoWoken(c, _) => c < |s.calls|
    case IoChecked(c) => c < |s.calls|
    case _ => false
  }

  predicate InCallback(s: State, f: nat) {
    && f < |s.fibers|
    && (s.fibers[f].local.CallbackStart? || s.fibers[f].local.CallbackLocked?)
    && s.fibers[f].local.timer < |s.timers|
    && (s.timers[s.fibers[f].local.timer].callback.TimeoutOf? ==>
          s.timers[s.fibers[f].local.timer].callback.call < |s.calls|)
  }

  ghost predicate HookEnabled(s: State, f: nat, step: HookStep) {
    Executing(s, f) && |s.io.table| >= INITIAL_SLOTS &&
    match step
    case IoReturn => InCall(s, f) && s.fibers[f].local.IoTop?
    case IoArm => InCall(s, f) && s.fibers[f].local.IoTop?
    case IoRegister(willing) =>
      && InCall(s, f) && s.fibers[f].local.IoArmed?
      && var call := s.calls[s.fibers[f].local.call]; !AddEvent(s.io, call.fd, call.kind, f, willing).Aborted?
    case IoCancel => InCall(s, f) && (s.fibers[f].local.IoWoken? || s.fibers[f].local.IoRefused?)
    case IoJudge => InCall(s, f) && s.fibers[f].local.IoChecked?
    case CallbackWake =>
      && InCallback(s, f) && s.fibers[f].local.CallbackStart?
      && s.timers[s.fibers[f].local.timer].callback.WakeFiber?
    case CallbackLock =>
      && InCallback(s, f) && s.fibers[f].local.CallbackStart?
      && s.timers[s.fibers[f].local.timer].callback.TimeoutOf?
    case CallbackSettle(_) =>
      && InCallback(s, f) && s.fibers[f].local.CallbackLocked?
      && s.timers[s.fibers[f].local.timer].callback.TimeoutOf?
  }

  ghost predicate OutsideEnabled(s: State, step: OutsideStep) {
    match step
    case CallerReadsTimers(w) => InPhase(s, w, Fresh) && s.stopped
    case CallerReadsPending(w) => InPhase(s, w, CallerPending)
    case CallerReadsTasks(w) => InPhase(s, w, CallerTasks)
    case _ => true
  }

  // What the runtime allows.
  ghost predicate Possible(s: State, step: Step) {
    match step
    case OnWorker(w, work) => WorkerEnabled(s, w, work)
    case InCode(f, code) => CodeEnabled(s, f, code)
    case InHook(f, hook) => HookEnabled(s, f, hook)
    case Outside(outside) => OutsideEnabled(s, outside)
  }

  // What ordinary code owes it: a fiber is scheduled by hand only when it is over, or holds itself and has no entry.
  predicate Considerate(s: State, step: Step) {
    step.InCode? && step.code.Resubmit? ==>
      var g := step.code.other;
      && g < |s.fibers|
      && (s.fibers[g].local.Over? || (s.fibers[g].local.SelfHeld? && Count(s.io.tasks, g) == 0))
  }

  ghost predicate Enabled(s: State, step: Step) {
    Possible(s, step) && Considerate(s, step)
  }

  // The worker counts itself active; a dead fiber's entry is then dropped, any other fiber is swapped in.
  function DoTake(s: State, w: nat, i: nat): State
    requires w < |s.workers| && i < |s.io.tasks| && s.io.tasks[i].fiber < |s.fibers|
  {
    var f := s.io.tasks[i].fiber;
    var s1 := s.(io := s.io.(tasks := Without(s.io.tasks, i)), active := s.active + 1);
    if Dead(s.fibers[f].state) then SetPhase(s1, w, Discarding)
    else SetPhase(s1.(fibers := s.fibers[f := Fiber(Execute, Resumed(s.fibers[f].local), w)]), w, Running(f))
  }

  function DoReturn(s: State, w: nat, f: nat, ending: Ending): State
    requires f < |s.fibers| && w < |s.workers|
  {
    var state := StateAfterReturn(StateAtSwapOut(ending));
    var r := s.fibers[f].(state := state, local := Parked(s.fibers[f].local, ending));
    var s1 := SetPhase(s.(fibers := s.fibers[f := r], active := s.active - 1), w, Scanning);
    if state.Ready? then Enqueue(s1, Task(f, None)) else s1
  }

  function DoPop(s: State, w: nat, t: nat): State
    requires t < |s.timers|
  {
    PutTimer(s, t, if s.timers[t].recurring then Lifted(w) else InFlight(w))
  }

  // A recurring timer goes back into the set, and the copy of its callback goes out.
  function DoRearm(s: State, w: nat, t: nat): State
    requires t < |s.timers|
  {
    s.(timers := s.timers[t := s.timers[t].(place := Armed)] +
                 [s.timers[t].(recurring := false, place := InFlight(w))])
  }

  function DoDeliver(s: State, t: nat): State
    requires t < |s.timers|
  {
    if s.timers[t].callback.UserCallback? then PutTimer(Spawn(s, Start, None), t, Spent)
    else PutTimer(Spawn(s, CallbackStart(t), None), t, Held(|s.fibers|))
  }

  function DoIoArm(s: State, f: nat): State
    requires f < |s.fibers| && s.fibers[f].local.IoTop? && s.fibers[f].local.call < |s.calls|
  {
    var c := s.fibers[f].local.call;
    if s.calls[c].timed then MoveTo(AddTimer(s, TimeoutOf(c), false), f, IoArmed(c, Some(|s.timers|)))
    else MoveTo(s, f, IoArmed(c, None))
  }

  function DoIoRegister(s: State, f: nat, willing: bool): State
    requires InCall(s, f) && s.fibers[f].local.IoArmed? && |s.io.table| >= INITIAL_SLOTS
    requires var call := s.calls[s.fibers[f].local.call]; !AddEvent(s.io, call.fd, call.kind, f, willing).Aborted?
  {
    var local := s.fibers[f].local;
    var call := s.calls[local.call];
    var r := AddEvent(s.io, call.fd, call.kind, f, willing);
    MoveTo(s.(io := r.io), f,
           if r.Done? then IoRegistered(local.call, local.armed) else IoRefused(local.call, local.armed))
  }

  // After a refused registration do_io fails, and connect goes on to ask the socket how it went.
  function DoIoCancel(s: State, f: nat): State
    requires InCall(s, f) && (s.fibers[f].local.IoWoken? || s.fibers[f].local.IoRefused?)
  {
    var local := s.fibers[f].local;
    var s1 := CancelTimer(s, local.armed);
    if local.IoWoken? then MoveTo(s1, f, IoChecked(local.call))
    else EndCall(s1, f, local.call, if s.calls[local.call].retry then Failed else Result.Finished)
  }

  function DoIoJudge(s: State, f: nat): State
    requires InCall(s, f)
  {
    var c := s.fibers[f].local.call;
    if s.calls[c].flag.Some? then EndCall(s, f, c, TimedOut)
    else if s.calls[c].retry then MoveTo(s, f, IoTop(c))
    else EndCall(s, f, c, Result.Finished)
  }

  function DoCallbackWake(s: State, f: nat): State
    requires InCallback(s, f) && s.timers[s.fibers[f].local.timer].callback.WakeFiber?
  {
    var t := s.fibers[f].local.timer;
    MoveTo(PutTimer(Enqueue(s, Task(s.timers[t].callback.fiber, None)), t, Spent), f, CallbackDone)
  }

  ghost function DoCallbackLock(s: State, f: nat): State
    requires InCallback(s, f) && s.timers[s.fibers[f].local.timer].callback.TimeoutOf?
  {
    var t := s.fibers[f].local.timer;
    var c := s.timers[t].callback.call;
    if Alive(s, c)
    then MoveTo(s.(calls := s.calls[c := s.calls[c].(flag := Some(t))]), f, CallbackLocked(t))
    else MoveTo(PutTimer(s, t, Spent), f, CallbackDone)
  }

  function DoCallbackSettle(s: State, f: nat, willing: bool): State
    requires InCallback(s, f) && s.timers[s.fibers[f].local.timer].callback.TimeoutOf?
  {
    var t := s.fibers[f].local.timer;
    var call := s.calls[s.timers[t].callback.call];
    MoveTo(PutTimer(s.(io := SettleEvent(s.io, call.fd, call.kind, willing).io), t, Spent), f, CallbackDone)
  }

  function DoWatch(s: State, fd: nat, kind: Kind, willing: bool): State
    requires |s.io.table| >= INITIAL_SLOTS && !AddEvent(s.io, fd, kind, |s.fibers|, willing).Aborted?
  {
    var r := AddEvent(s.io, fd, kind, |s.fibers|, willing);
    if r.Done? then NewFiber(s.(io := r.io), EventWait(fd, kind)) else s.(io := r.io)
  }

  function DoUnwatch(s: State, fd: nat, kind: Kind, willing: bool): State {
    var r := DeleteEvent(s.io, fd, kind, willing);
    if r.Done? then Forget(s, s.io.table[fd].Waiter(kind)).(io := r.io) else s
  }

  function DoIoBegin(s: State, f: nat, fd: nat, kind: Kind, timed: bool, retry: bool): State
    requires f < |s.fibers|
  {
    MoveTo(s.(calls := s.calls + [Call(f, fd, kind, timed, retry, None, None, false)]), f, IoTop(|s.calls|))
  }

  function DoSleepBegin(s: State, f: nat): State
    requires f < |s.fibers|
  {
    MoveTo(AddTimer(s, WakeFiber(f), false), f, SleepArmed(|s.timers|))
  }

  ghost function ApplyWorker(s: State, w: nat, step: WorkerStep): State
    requires WorkerEnabled(s, w, step)
  {
    match step
    case Take(i) => DoTake(s, w, i)
    case Discard => SetPhase(s.(active := s.active - 1), w, Scanning)
    case EnterIdle => SetPhase(s.(idle := s.idle + 1), w, CheckingTimers)
    case ReadTimers => SetPhase(s, w, if HasTimer(s) then Polling else CheckingPending)
    case ReadPending => SetPhase(s, w, if s.io.pending == 0 then CheckingTasks else Polling)
    case ReadTasks =>
      if s.stopped && s.io.tasks == [] && s.active == 0
      then s.(workers := s.workers[w := Worker(Scanning, true)], idle := s.idle - 1)
      else SetPhase(s, w, Polling)
    case Pop(t) => DoPop(s, w, t)
    case Rearm(t) => DoRearm(s, w, t)
    case Deliver(t) => DoDeliver(s, t)
    case Report(fd, reported, failed, willing) => s.(io := Dispatch(s.io, fd, reported, failed, willing).io)
    case LeaveIdle => SetPhase(s.(idle := s.idle - 1), w, Scanning)
    case ExitWorker => SetPhase(s, w, Exited)
    case Return(f, ending) => DoReturn(s, w, f, ending)
  }

  ghost function ApplyCode(s: State, f: nat, step: CodeStep): State
    requires CodeEnabled(s, f, step)
  {
    match step
    case Submit(pin) => Spawn(s, Start, pin)
    case Resubmit(g) => Enqueue(s, Task(g, None))
    case StartTimer(recurring) => AddTimer(s, UserCallback, recurring)
    case StopTimer(t) => PutTimer(s, t, Cancelled)
    case Watch(fd, kind, willing) => DoWatch(s, fd, kind, willing)
    case Unwatch(fd, kind, willing) => DoUnwatch(s, fd, kind, willing)
    case Settle(fd, kind, willing) => s.(io := SettleEvent(s.io, fd, kind, willing).io)
    case SettleAll(fd, willing) => s.(io := SettleAllEvents(s.io, fd, willing).io)
    case CloseFd(fd) => s.(io := s.io.(epoll := s.io.epoll - {fd}))
    case IoBegin(fd, kind, timed, retry) => DoIoBegin(s, f, fd, kind, timed, retry)
    case SleepBegin => DoSleepBegin(s, f)
  }

  ghost function ApplyHook(s: State, f: nat, step: HookStep): State
    requires HookEnabled(s, f, step)
  {
    match step
    case IoReturn => EndCall(s, f, s.fibers[f].local.call, Result.Finished)
    case IoArm => DoIoArm(s, f)
    case IoRegister(willing) => DoIoRegister(s, f, willing)
    case IoCancel => DoIoCancel(s, f)
    case IoJudge => DoIoJudge(s, f)
    case CallbackWake => DoCallbackWake(s, f)
    case CallbackLock => DoCallbackLock(s, f)
    case CallbackSettle(willing) => DoCallbackSettle(s, f, willing)
  }

  ghost function ApplyOutside(s: State, step: OutsideStep): State
    requires OutsideEnabled(s, step)
  {
    match step
    case OutsideSubmit(pin) => Spawn(s, Start, pin).(late := s.late || s.stopped)
    case OutsideTimer(recurring) => AddTimer(s, UserCallback, recurring).(late := s.late || s.stopped)
    case Stop => s.(stopped := true)
    case CallerReadsTimers(w) => SetPhase(s, w, if HasTimer(s) then Scanning else CallerPending)
    case CallerReadsPending(w) => SetPhase(s, w, if s.io.pending == 0 then CallerTasks else Scanning)
    case CallerReadsTasks(w) =>
      if s.stopped && s.io.tasks == [] && s.active == 0 then s.(workers := s.workers[w := Worker(Exited, true)])
      else SetPhase(s, w, Scanning)
  }

  ghost function Apply(s: State, step: Step): State
    requires Possible(s, step)
  {
    match step
    case OnWorker(w, work) => ApplyWorker(s, w, work)
    case InCode(f, code) => ApplyCode(s, f, code)
    case InHook(f, hook) => ApplyHook(s, f, hook)
    case Outside(outside) => ApplyOutside(s, outside)
  }

  // A run: every step is enabled in the state the previous ones lead to.
  ghost predicate Runs(s: State, steps: seq<Step>)
    decreases |steps|
  {
    steps == [] || (Enabled(s, steps[0]) && Runs(Apply(s, steps[0]), steps[1..]))
  }

  ghost function After(s: State, steps: seq<Step>): State
    requires Runs(s, steps)
    decreases |steps|
  {
    if steps == [] then s else After(Apply(s, steps[0]), steps[1..])
  }

  // A run in which ordinary code may schedule any fiber, queued, running or parked.
  ghost predicate FreeRuns(s: State, steps: seq<Step>)
    decreases |steps|
  {
    steps == [] || (Possible(s, steps[0]) && FreeRuns(Apply(s, steps[0]), steps[1..]))
  }

  ghost function FreeAfter(s: State, steps: seq<Step>): State
    requires FreeRuns(s, steps)
    decreases |steps|
  {
    if steps == [] then s else FreeAfter(Apply(s, steps[0]), steps[1..])
  }

  lemma {:induction false} RunsAreFree(s: State, steps: seq<Step>)
    requires Runs(s, steps)
    ensures FreeRuns(s, steps) && FreeAfter(s, steps) == After(s, steps)
    decreases |steps|
  {
    hide Possible, Considerate, Apply;
    if steps != [] {
      RunsAreFree(Apply(s, steps[0]), steps[1..]);
    }
  }
}
