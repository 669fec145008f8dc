/** Four runs that show where the runtime's promises end. */
module Races {

  // Each is a run of the transition system from its initial state, so each is an interleaving the source allows.
  // LateSettleWakesLaterCall assumes one thing more: its first call returns ETIMEDOUT, so on its way it cancels a timer
  // that has left the set (Leftovers.TimedOutErasesEnd), and the erase of the end iterator by which the source answers
  // that is taken to do nothing.

  import opened Base
  import opened TaskQueue
  import opened Fibers
  import opened EventTable
  import opened Runtime
  import opened Weave
  import opened Safety
  import opened Wakeups

  ghost predicate Leads(s: State, step: Step, s': State) {
    Enabled(s, step) && Apply(s, step) == s'
  }

  lemma {:induction false} RunsConcat(s: State, a: seq<Step>, b: seq<Step>)
    requires Runs(s, a) && Runs(After(s, a), b)
    ensures Runs(s, a + b) && After(s, a + b) == After(After(s, a), b)
    decreases |a|
  {
    hide Possible, Considerate, Apply;
    if a == [] {
      assert a + b == b;
    } else {
      assert (a + b)[0] == a[0] && (a + b)[1..] == a[1..] + b;
      RunsConcat(Apply(s, a[0]), a[1..], b);
    }
  }

  // One more step at the end of a run.
  lemma Extend(s: State, steps: seq<Step>, step: Step, s': State)
    requires Runs(s, steps) && Leads(After(s, steps), step, s')
    ensures Runs(s, steps + [step]) && After(s, steps + [step]) == s'
  {
    hide Possible, Considerate, Apply;
    var e := After(s, steps);
    assert [step][1..] == [];
    assert Runs(Apply(e, step), [step][1..]);
    assert Runs(e, [step]);
    RunsConcat(s, steps, [step]);
    assert After(e, [step]) == After(Apply(e, step), [step][1..]);
  }

  // Several more, each given with the state it leads to.
  lemma {:induction false} Chain(s: State, steps: seq<Step>, e: seq<Step>, t: seq<State>)
    requires Runs(s, steps) && |t| == |e| + 1 && After(s, steps) == t[0]
    requires forall i :: 0 <= i < |e| ==> Leads(t[i], e[i], t[i + 1])
    ensures Runs(s, steps + e) && After(s, steps + e) == t[|e|]
    decreases |e|
  {
    hide Possible, Considerate, Apply, Leads;
    if e == [] {
      assert steps + e == steps;
    } else {
      var n := |e| - 1;
      assert steps + e == (steps + e[..n]) + [e[n]];
      Chain(s, steps, e[..n], t[..n + 1]);
      Extend(s, steps + e[..n], e[n], t[n + 1]);
    }
  }

  // --- isCompleted is true while a sleeping fiber's callback is between the timer set and the queue ------------

  function Sleeper(): Fiber {
    Fiber(Hold, SleepParked(0), 0)
  }

  function SleepTimer(place: Place): Timer {
    Timer(WakeFiber(0), false, place)
  }

  function Idler(phase: Phase): Worker {
    Worker(phase, false)
  }

  function Submitted(): State {
    State(InitIo().(tasks := [Task(0, None)]), [Fiber(Initialize, Start, 0)], [], [], [Idler(Scanning)],
          0, 0, false, false)
  }

  function Started(): State {
    State(InitIo(), [Fiber(Execute, User, 0)], [], [], [Idler(Running(0))], 1, 0, false, false)
  }

  function Asleep(): State {
    State(InitIo(), [Sleeper()], [], [SleepTimer(Armed)], [Idler(Scanning)], 0, 0, false, false)
  }

  lemma FirstTask()
    ensures Leads(InitState(1, false), Outside(OutsideSubmit(None)), Submitted())
    ensures Leads(Submitted(), OnWorker(0, Take(0)), Started())
  {
    assert Apply(InitState(1, false), Outside(OutsideSubmit(None))) == Submitted();
    var s := Submitted();
    assert s.io.tasks[..0] == [];
    assert Enabled(s, OnWorker(0, Take(0)));
    assert Without(s.io.tasks, 0) == [];
    assert Apply(s, OnWorker(0, Take(0))) == Started();
  }

  function Arming(): State {
    State(InitIo(), [Fiber(Execute, SleepArmed(0), 0)], [], [SleepTimer(Armed)], [Idler(Running(0))],
          1, 0, false, false)
  }

  lemma FirstSleep()
    ensures Leads(Started(), InCode(0, SleepBegin), Arming())
  {
    assert Apply(Started(), InCode(0, SleepBegin)).fibers == Arming().fibers;
  }

  lemma FirstPark()
    ensures Leads(Arming(), OnWorker(0, Return(0, YieldedHold)), Asleep())
    ensures Leads(Asleep(), Outside(Stop), Asleep().(stopped := true))
  {
    assert Apply(Arming(), OnWorker(0, Return(0, YieldedHold))).fibers == Asleep().fibers;
  }

  lemma SleeperGoesToSleep() returns (steps: seq<Step>)
    ensures Reaches(1, false, steps)
    ensures Reached(1, false, steps) == Asleep().(stopped := true)
  {
    FirstTask();
    FirstSleep();
    FirstPark();
    hide Leads, Possible, Considerate, Apply;
    steps := [Outside(OutsideSubmit(None)), OnWorker(0, Take(0)), InCode(0, SleepBegin),
              OnWorker(0, Return(0, YieldedHold)), Outside(Stop)];
    assert [] + steps == steps;
    Chain(InitState(1, false), [], steps,
          [InitState(1, false), Submitted(), Started(), Arming(), Asleep(), Asleep().(stopped := true)]);
  }

  lemma CompletedTooSoon() returns (steps: seq<Step>)
    ensures Reaches(1, false, steps)
    ensures var s := Reached(1, false, steps); Completed(s) && ParkedByHook(s, 0)
  {
    var before := SleeperGoesToSleep();
    var s0 := Reached(1, false, before);
    var s1 := s0.(workers := [Idler(CheckingTimers)], idle := 1);
    var s2 := s0.(workers := [Idler(Polling)], idle := 1);
    var s3 := s2.(timers := [SleepTimer(InFlight(0))]);
    assert s0.timers[0].place.Armed?;
    assert Leads(s0, OnWorker(0, EnterIdle), s1);
    assert Leads(s1, OnWorker(0, ReadTimers), s2);
    assert Leads(s2, OnWorker(0, Pop(0)), s3);
    var e := [OnWorker(0, EnterIdle), OnWorker(0, ReadTimers), OnWorker(0, Pop(0))];
    Chain(InitState(1, false), before, e, [s0, s1, s2, s3]);
    steps := before + e;
  }

  // --- every worker exits and a fiber sleeps on, because isCompleted reads its three conditions one by one --------

  function At(tasks: seq<Task>, fibers: seq<Fiber>, timers: seq<Timer>, w0: Worker, w1: Worker,
              active: int, idle: int, stopped: bool): State
  {
    State(InitIo().(tasks := tasks), fibers, [], timers, [w0, w1], active, idle, stopped, false)
  }

  function UserTimer(place: Place): Timer {
    Timer(UserCallback, false, place)
  }

  function DoneIn(phase: Phase): Worker {
    Worker(phase, true)
  }

  function Quiet2(timers: seq<Timer>, w0: Worker, w1: Worker, idle: int, stopped: bool): State {
    At([], [], timers, w0, w1, 0, idle, stopped)
  }

  // Worker 0 pops a callback.
  function PopStates(): seq<State> {
    [Quiet2([], Idler(Scanning), Idler(Scanning), 0, false),
     Quiet2([UserTimer(Armed)], Idler(Scanning), Idler(Scanning), 0, false),
     Quiet2([UserTimer(Armed)], Idler(Scanning), Idler(Scanning), 0, true),
     Quiet2([UserTimer(Armed)], Idler(CheckingTimers), Idler(Scanning), 1, true),
     Quiet2([UserTimer(Armed)], Idler(Polling), Idler(Scanning), 1, true),
     Quiet2([UserTimer(InFlight(0))], Idler(Polling), Idler(Scanning), 1, true)]
  }

  function PopSteps(): seq<Step> {
    [Outside(OutsideTimer(false)), Outside(Stop), OnWorker(0, EnterIdle), OnWorker(0, ReadTimers), OnWorker(0, Pop(0))]
  }

  lemma PopStart()
    ensures Leads(PopStates()[0], Outside(OutsideTimer(false)), PopStates()[1])
    ensures Leads(PopStates()[1], Outside(Stop), PopStates()[2])
  {
  }

  lemma PopIdle()
    ensures Leads(PopStates()[2], OnWorker(0, EnterIdle), PopStates()[3])
    ensures Leads(PopStates()[3], OnWorker(0, ReadTimers), PopStates()[4])
    ensures Leads(PopStates()[4], OnWorker(0, Pop(0)), PopStates()[5])
  {
    var t := PopStates();
    assert Leads(t[2], OnWorker(0, EnterIdle), t[3]);
    assert t[3].timers[0].place.Armed?;
    assert Leads(t[3], OnWorker(0, ReadTimers), t[4]);
    assert Leads(t[4], OnWorker(0, Pop(0)), t[5]);
  }

  lemma PopLeads()
    ensures forall i :: 0 <= i < |PopSteps()| ==> Leads(PopStates()[i], PopSteps()[i], PopStates()[i + 1])
  {
    hide Leads;
    PopStart();
    PopIdle();
  }

  // Worker 1 meanwhile sees everything complete and its idle fiber terminates.
  function DoneStates(): seq<State> {
    var popped := [UserTimer(InFlight(0))];
    [Quiet2(popped, Idler(Polling), Idler(Scanning), 1, true),
     Quiet2(popped, Idler(Polling), Idler(CheckingTimers), 2, true),
     Quiet2(popped, Idler(Polling), Idler(CheckingPending), 2, true),
     Quiet2(popped, Idler(Polling), Idler(CheckingTasks), 2, true),
     Quiet2(popped, Idler(Polling), DoneIn(Scanning), 1, true)]
  }

  function DoneSteps(): seq<Step> {
    [OnWorker(1, EnterIdle), OnWorker(1, ReadTimers), OnWorker(1, ReadPending), OnWorker(1, ReadTasks)]
  }

  lemma DoneEnter()
    ensures Leads(DoneStates()[0], OnWorker(1, EnterIdle), DoneStates()[1])
    ensures Leads(DoneStates()[1], OnWorker(1, ReadTimers), DoneStates()[2])
  {
  }

  lemma DoneReads()
    ensures Leads(DoneStates()[2], OnWorker(1, ReadPending), DoneStates()[3])
    ensures Leads(DoneStates()[3], OnWorker(1, ReadTasks), DoneStates()[4])
  {
  }

  lemma DoneLeads()
    ensures forall i :: 0 <= i < |DoneSteps()| ==> Leads(DoneStates()[i], DoneSteps()[i], DoneStates()[i + 1])
  {
    hide Leads;
    DoneEnter();
    DoneReads();
  }

  // Worker 0 schedules the callback, worker 1 takes it, and worker 0 starts reading: no timer.
  function HandOverStates(): seq<State> {
    var spent := [UserTimer(Spent)];
    var running := [Fiber(Execute, User, 1)];
    [Quiet2([UserTimer(InFlight(0))], Idler(Polling), DoneIn(Scanning), 1, true),
     At([Task(0, None)], [Fiber(Initialize, Start, 0)], spent, Idler(Polling), DoneIn(Scanning), 0, 1, true),
     At([], running, spent, Idler(Polling), DoneIn(Running(0)), 1, 1, true),
     At([], running, spent, Idler(Scanning), DoneIn(Running(0)), 1, 0, true),
     At([], running, spent, Idler(CheckingTimers), DoneIn(Running(0)), 1, 1, true),
     At([], running, spent, Idler(CheckingPending), DoneIn(Running(0)), 1, 1, true)]
  }

  function HandOverSteps(): seq<Step> {
    [OnWorker(0, Deliver(0)), OnWorker(1, Take(0)), OnWorker(0, LeaveIdle), OnWorker(0, EnterIdle),
     OnWorker(0, ReadTimers)]
  }

  lemma HandOverTake()
    ensures Leads(HandOverStates()[1], OnWorker(1, Take(0)), HandOverStates()[2])
  {
    var s := HandOverStates()[1];
    assert s.io.tasks[..0] == [];
    assert Enabled(s, OnWorker(1, Take(0)));
    assert Without(s.io.tasks, 0) == [];
    assert Apply(s, OnWorker(1, Take(0))) == HandOverStates()[2];
  }

  lemma HandOverDeliver()
    ensures Leads(HandOverStates()[0], OnWorker(0, Deliver(0)), HandOverStates()[1])
  {
    var s := HandOverStates()[0];
    assert Apply(s, OnWorker(0, Deliver(0))) == HandOverStates()[1];
  }

  lemma HandOverIdle()
    ensures Leads(HandOverStates()[2], OnWorker(0, LeaveIdle), HandOverStates()[3])
    ensures Leads(HandOverStates()[3], OnWorker(0, EnterIdle), HandOverStates()[4])
  {
  }

  lemma HandOverRead()
    ensures Leads(HandOverStates()[4], OnWorker(0, ReadTimers), HandOverStates()[5])
  {
  }

  lemma HandOverLeads()
    ensures forall i :: 0 <= i < |HandOverSteps()| ==>
                          Leads(HandOverStates()[i], HandOverSteps()[i], HandOverStates()[i + 1])
  {
    hide Leads;
    HandOverDeliver();
    HandOverTake();
    HandOverIdle();
    HandOverRead();
  }

  // The callback puts its fiber to sleep, and both workers leave.
  function LeaveStates(): seq<State> {
    var spent := [UserTimer(Spent)];
    var armed := [UserTimer(Spent), SleepTimer(Armed)];
    var parked := [Fiber(Hold, SleepParked(1), 1)];
    [At([], [Fiber(Execute, User, 1)], spent, Idler(CheckingPending), DoneIn(Running(0)), 1, 1, true),
     At([], [Fiber(Execute, SleepArmed(1), 1)], armed, Idler(CheckingPending), DoneIn(Running(0)), 1, 1, true),
     At([], parked, armed, Idler(CheckingPending), DoneIn(Scanning), 0, 1, true),
     At([], parked, armed, Idler(CheckingTasks), DoneIn(Scanning), 0, 1, true),
     At([], parked, armed, DoneIn(Scanning), DoneIn(Scanning), 0, 0, true),
     At([], parked, armed, DoneIn(Scanning), DoneIn(Exited), 0, 0, true),
     At([], parked, armed, DoneIn(Exited), DoneIn(Exited), 0, 0, true)]
  }

  function LeaveSteps(): seq<Step> {
    [InCode(0, SleepBegin), OnWorker(1, Return(0, YieldedHold)), OnWorker(0, ReadPending), OnWorker(0, ReadTasks),
     OnWorker(1, ExitWorker), OnWorker(0, ExitWorker)]
  }

  lemma LeaveSleep()
    ensures Leads(LeaveStates()[0], InCode(0, SleepBegin), LeaveStates()[1])
  {
    assert Apply(LeaveStates()[0], InCode(0, SleepBegin)) == LeaveStates()[1];
  }

  lemma LeavePark()
    ensures Leads(LeaveStates()[1], OnWorker(1, Return(0, YieldedHold)), LeaveStates()[2])
  {
    assert Apply(LeaveStates()[1], OnWorker(1, Return(0, YieldedHold))) == LeaveStates()[2];
  }

  lemma LeaveReads()
    ensures Leads(LeaveStates()[2], OnWorker(0, ReadPending), LeaveStates()[3])
    ensures Leads(LeaveStates()[3], OnWorker(0, ReadTasks), LeaveStates()[4])
  {
  }

  lemma LeaveLeads()
    ensures forall i :: 0 <= i < |LeaveSteps()| ==> Leads(LeaveStates()[i], LeaveSteps()[i], LeaveStates()[i + 1])
  {
    var t := LeaveStates();
    LeaveSleep();
    LeavePark();
    LeaveReads();
    assert Leads(t[4], OnWorker(1, ExitWorker), t[5]);
    assert Leads(t[5], OnWorker(0, ExitWorker), t[6]);
  }

  lemma InitOfTwo()
    ensures InitState(2, false) == PopStates()[0]
  {
    assert InitState(2, false).workers == [Idler(Scanning), Idler(Scanning)];
  }

  // A scheduler shut down in time, every worker gone, a fiber asleep and its timer armed for nobody.
  lemma ShutdownStrandsSleeper() returns (steps: seq<Step>)
    ensures Reaches(2, false, steps)
    ensures var s := Reached(2, false, steps);
            && (forall w :: 0 <= w < |s.workers| ==> s.workers[w].phase.Exited?)
            && !s.late && HasTimer(s) && ParkedByHook(s, 0)
  {
    InitOfTwo();
    var s := InitState(2, false);
    PopLeads();
    DoneLeads();
    HandOverLeads();
    LeaveLeads();
    assert LeaveStates()[6].timers[1].place.Armed?;
    hide Leads, Possible, Considerate, Apply;
    Chain(s, [], PopSteps(), PopStates());
    Chain(s, [] + PopSteps(), DoneSteps(), DoneStates());
    Chain(s, [] + PopSteps() + DoneSteps(), HandOverSteps(), HandOverStates());
    Chain(s, [] + PopSteps() + DoneSteps() + HandOverSteps(), LeaveSteps(), LeaveStates());
    steps := [] + PopSteps() + DoneSteps() + HandOverSteps() + LeaveSteps();
  }

  // --- a timeout callback that outlives its call wakes a later call on the same descriptor ----------------------

  function SlotFive(registered: set<Kind>): Slot {
    Slot(5, registered, Some(0), None)
  }

  // The table with event (5, READ) registered for fiber 0, and after it was triggered.
  function Listening(adds: nat, triggers: nat): Io {
    var io := InitIo();
    io.(table := io.table[5 := SlotFive({Read})], epoll := map[5 := {Read}], pending := 1,
    adds := adds, triggers := triggers)
  }

  function Dispatched(tasks: seq<Task>): Io {
    var io := InitIo();
    io.(table := io.table[5 := SlotFive({})], epoll := map[], pending := 0, adds := 1, triggers := 1, tasks := tasks)
  }

  function In(io: Io, fibers: seq<Fiber>, calls: seq<Call>, timers: seq<Timer>, w0: Phase, w1: Phase,
              active: int, idle: int): State
  {
    State(io, fibers, calls, timers, [Idler(w0), Idler(w1)], active, idle, false, false)
  }

  function Reader(local: Local): Fiber {
    Fiber(Execute, local, 0)
  }

  function FirstCall(flag: Option<nat>, result: Option<Result>): Call {
    Call(0, 5, Read, true, true, flag, result, false)
  }

  function SecondCall(): Call {
    Call(0, 5, Read, false, true, None, None, false)
  }

  function Timeout(place: Place): Timer {
    Timer(TimeoutOf(0), false, place)
  }

  // Fiber 0 enters do_io with a timeout and registers.
  function EnterStates(): seq<State> {
    var io := InitIo();
    var call := [FirstCall(None, None)];
    var armed := [Timeout(Armed)];
    [In(io, [], [], [], Scanning, Scanning, 0, 0),
     In(io.(tasks := [Task(0, None)]), [Fiber(Initialize, Start, 0)], [], [], Scanning, Scanning, 0, 0),
     In(io, [Reader(User)], [], [], Running(0), Scanning, 1, 0),
     In(io, [Reader(IoTop(0))], call, [], Running(0), Scanning, 1, 0),
     In(io, [Reader(IoArmed(0, Some(0)))], call, armed, Running(0), Scanning, 1, 0),
     In(Listening(1, 0), [Reader(IoRegistered(0, Some(0)))], call, armed, Running(0), Scanning, 1, 0),
     In(Listening(1, 0), [Fiber(Hold, IoParked(0, Some(0)), 0)], call, armed, Scanning, Scanning, 0, 0)]
  }

  function EnterSteps(): seq<Step> {
    [Outside(OutsideSubmit(None)), OnWorker(0, Take(0)), InCode(0, IoBegin(5, Read, true, true)), InHook(0, IoArm),
     InHook(0, IoRegister(true)), OnWorker(0, Return(0, YieldedHold))]
  }

  lemma TableSlots()
    ensures |InitIo().table| == 32 && forall i :: 0 <= i < 32 ==> InitIo().table[i] == FreshSlot(i)
  {
  }

  lemma EnterTake()
    ensures Leads(EnterStates()[0], Outside(OutsideSubmit(None)), EnterStates()[1])
    ensures Leads(EnterStates()[1], OnWorker(0, Take(0)), EnterStates()[2])
  {
    var t := EnterStates();
    assert Apply(t[0], Outside(OutsideSubmit(None))) == t[1];
    assert t[1].io.tasks[..0] == [];
    assert Enabled(t[1], OnWorker(0, Take(0)));
    assert Without(t[1].io.tasks, 0) == [];
    assert Apply(t[1], OnWorker(0, Take(0))) == t[2];
  }

  lemma EnterCall()
    ensures Leads(EnterStates()[2], InCode(0, IoBegin(5, Read, true, true)), EnterStates()[3])
    ensures Leads(EnterStates()[3], InHook(0, IoArm), EnterStates()[4])
  {
    var t := EnterStates();
    assert Apply(t[2], InCode(0, IoBegin(5, Read, true, true))) == t[3];
    assert Apply(t[3], InHook(0, IoArm)) == t[4];
  }

  // addEvent on descriptor 5 when nothing is registered there and epoll does not know it.
  lemma Registers(io: Io)
    requires |io.table| == 32 && io.table[5].registered == {} && io.table[5].fd == 5 && io.table[5].writer == None
    requires io.epoll == map[]
    ensures AddEvent(io, 5, Read, 0, true) ==
            Done(io.(table := io.table[5 := SlotFive({Read})], epoll := map[5 := {Read}], pending := io.pending + 1,
                 adds := io.adds + 1))
  {
    assert {} + {Read} == {Read};
    assert io.epoll[5 := {Read}] == map[5 := {Read}];
  }

  lemma EnterRegister()
    ensures Leads(EnterStates()[4], InHook(0, IoRegister(true)), EnterStates()[5])
  {
    TableSlots();
    Registers(InitIo());
    hide AddEvent;
    var t := EnterStates();
    assert Apply(t[4], InHook(0, IoRegister(true))) == t[5];
  }

  lemma EnterPark()
    ensures Leads(EnterStates()[5], OnWorker(0, Return(0, YieldedHold)), EnterStates()[6])
  {
    var t := EnterStates();
    assert Apply(t[5], OnWorker(0, Return(0, YieldedHold))) == t[6];
  }

  // The timer fires, and its callback gets past the lock on worker 1.
  function FireStates(): seq<State> {
    var io := Listening(1, 0);
    var parked := Fiber(Hold, IoParked(0, Some(0)), 0);
    var call := [FirstCall(None, None)];
    [In(io, [parked], call, [Timeout(Armed)], Scanning, Scanning, 0, 0),
     In(io, [parked], call, [Timeout(Armed)], CheckingTimers, Scanning, 0, 1),
     In(io, [parked], call, [Timeout(Armed)], Polling, Scanning, 0, 1),
     In(io, [parked], call, [Timeout(InFlight(0))], Polling, Scanning, 0, 1),
     In(io.(tasks := [Task(1, None)]), [parked, Fiber(Initialize, CallbackStart(0), 0)], call, [Timeout(Held(1))],
        Polling, Scanning, 0, 1),
     In(io, [parked, Fiber(Execute, CallbackStart(0), 1)], call, [Timeout(Held(1))], Polling, Running(1), 1, 1),
     In(io, [parked, Fiber(Execute, CallbackLocked(0), 1)], [FirstCall(Some(0), None)], [Timeout(Held(1))],
        Polling, Running(1), 1, 1)]
  }

  function FireSteps(): seq<Step> {
    [OnWorker(0, EnterIdle), OnWorker(0, ReadTimers), OnWorker(0, Pop(0)), OnWorker(0, Deliver(0)),
     OnWorker(1, Take(0)), InHook(1, CallbackLock)]
  }

  lemma FireIdle()
    ensures Leads(FireStates()[0], OnWorker(0, EnterIdle), FireStates()[1])
    ensures Leads(FireStates()[1], OnWorker(0, ReadTimers), FireStates()[2])
  {
    var t := FireStates();
    assert t[1].timers[0].place.Armed?;
    assert Apply(t[0], OnWorker(0, EnterIdle)) == t[1];
    assert Apply(t[1], OnWorker(0, ReadTimers)) == t[2];
  }

  lemma FirePop()
    ensures Leads(FireStates()[2], OnWorker(0, Pop(0)), FireStates()[3])
  {
    var t := FireStates();
    assert Apply(t[2], OnWorker(0, Pop(0))) == t[3];
  }

  lemma FireDeliver()
    ensures Leads(FireStates()[3], OnWorker(0, Deliver(0)), FireStates()[4])
  {
    var t := FireStates();
    assert Apply(t[3], OnWorker(0, Deliver(0))) == t[4];
  }

  lemma FireTake()
    ensures Leads(FireStates()[4], OnWorker(1, Take(0)), FireStates()[5])
  {
    var t := FireStates();
    assert t[4].io.tasks[..0] == [];
    assert Enabled(t[4], OnWorker(1, Take(0)));
    assert Without(t[4].io.tasks, 0) == [];
    assert Apply(t[4], OnWorker(1, Take(0))) == t[5];
  }

  lemma FireLock()
    ensures Leads(FireStates()[5], InHook(1, CallbackLock), FireStates()[6])
  {
    TableSlots();
    var t := FireStates();
    assert Alive(t[5], 0);
    assert Apply(t[5], InHook(1, CallbackLock)) == t[6];
  }

  // The socket becomes readable, fiber 0 is woken by epoll and its call returns ETIMEDOUT.
  function ReturnStates(): seq<State> {
    var locked := Fiber(Execute, CallbackLocked(0), 1);
    var call := [FirstCall(Some(0), None)];
    var held := [Timeout(Held(1))];
    [In(Listening(1, 0), [Fiber(Hold, IoParked(0, Some(0)), 0), locked], call, held, Polling, Running(1), 1, 1),
     In(Dispatched([Task(0, None)]), [Fiber(Hold, IoParked(0, Some(0)), 0), locked], call, held,
        Polling, Running(1), 1, 1),
     In(Dispatched([Task(0, None)]), [Fiber(Hold, IoParked(0, Some(0)), 0), locked], call, held,
        Scanning, Running(1), 1, 0),
     In(Dispatched([]), [Reader(IoWoken(0, Some(0))), locked], call, held, Running(0), Running(1), 2, 0),
     In(Dispatched([]), [Reader(IoChecked(0)), locked], call, held, Running(0), Running(1), 2, 0),
     In(Dispatched([]), [Reader(User), locked], [FirstCall(Some(0), Some(TimedOut))], held,
        Running(0), Running(1), 2, 0)]
  }

  function ReturnSteps(): seq<Step> {
    [OnWorker(0, Report(5, {Read}, false, true)), OnWorker(0, LeaveIdle), OnWorker(0, Take(0)),
     InHook(0, IoCancel), InHook(0, IoJudge)]
  }

  lemma FiveDispatched()
    ensures Dispatch(Listening(1, 0), 5, {Read}, false, true) == Done(Dispatched([Task(0, None)]))
  {
    TableSlots();
    var io := Listening(1, 0);
    assert {Read} - {Read} == {};
    assert {Read} * {Read} == {Read};
    assert io.epoll - {5} == map[];
    assert io.table[5 := SlotFive({})] == InitIo().table[5 := SlotFive({})];
  }

  lemma ReturnReport()
    ensures Leads(ReturnStates()[0], OnWorker(0, Report(5, {Read}, false, true)), ReturnStates()[1])
    ensures Leads(ReturnStates()[1], OnWorker(0, LeaveIdle), ReturnStates()[2])
  {
    TableSlots();
    FiveDispatched();
    hide Dispatch;
    var t := ReturnStates();
    assert Apply(t[0], OnWorker(0, Report(5, {Read}, false, true))) == t[1];
    assert Apply(t[1], OnWorker(0, LeaveIdle)) == t[2];
  }

  lemma ReturnTake()
    ensures Leads(ReturnStates()[2], OnWorker(0, Take(0)), ReturnStates()[3])
  {
    var t := ReturnStates();
    assert t[2].io.tasks[..0] == [];
    assert Enabled(t[2], OnWorker(0, Take(0)));
    assert Without(t[2].io.tasks, 0) == [];
    assert Apply(t[2], OnWorker(0, Take(0))) == t[3];
  }

  lemma ReturnTimedOut()
    ensures Leads(ReturnStates()[3], InHook(0, IoCancel), ReturnStates()[4])
    ensures Leads(ReturnStates()[4], InHook(0, IoJudge), ReturnStates()[5])
  {
    TableSlots();
    var t := ReturnStates();
    assert Apply(t[3], InHook(0, IoCancel)) == t[4];
    assert Apply(t[4], InHook(0, IoJudge)) == t[5];
  }

  // Fiber 0 calls do_io again, without a timeout, and parks; then the old callback settles.
  function AgainStates(): seq<State> {
    var locked := Fiber(Execute, CallbackLocked(0), 1);
    var calls := [FirstCall(Some(0), Some(TimedOut)), SecondCall()];
    var held := [Timeout(Held(1))];
    [In(Dispatched([]), [Reader(User), locked], calls[..1], held, Running(0), Running(1), 2, 0),
     In(Dispatched([]), [Reader(IoTop(1)), locked], calls, held, Running(0), Running(1), 2, 0),
     In(Dispatched([]), [Reader(IoArmed(1, None)), locked], calls, held, Running(0), Running(1), 2, 0),
     In(Listening(2, 1), [Reader(IoRegistered(1, None)), locked], calls, held, Running(0), Running(1), 2, 0),
     In(Listening(2, 1), [Fiber(Hold, IoParked(1, None), 0), locked], calls, held, Scanning, Running(1), 1, 0)]
  }

  function AgainSteps(): seq<Step> {
    [InCode(0, IoBegin(5, Read, false, true)), InHook(0, IoArm), InHook(0, IoRegister(true)),
     OnWorker(0, Return(0, YieldedHold))]
  }

  lemma AgainCall()
    ensures Leads(AgainStates()[0], InCode(0, IoBegin(5, Read, false, true)), AgainStates()[1])
    ensures Leads(AgainStates()[1], InHook(0, IoArm), AgainStates()[2])
  {
    TableSlots();
    var t := AgainStates();
    assert Apply(t[0], InCode(0, IoBegin(5, Read, false, true))) == t[1];
    assert Apply(t[1], InHook(0, IoArm)) == t[2];
  }

  lemma AgainRegister()
    ensures Leads(AgainStates()[2], InHook(0, IoRegister(true)), AgainStates()[3])
  {
    TableSlots();
    Registers(Dispatched([]));
    assert InitIo().table[5 := SlotFive({})][5 := SlotFive({Read})] == InitIo().table[5 := SlotFive({Read})];
    hide AddEvent;
    var t := AgainStates();
    assert Apply(t[2], InHook(0, IoRegister(true))) == t[3];
  }

  lemma AgainPark()
    ensures Leads(AgainStates()[3], OnWorker(0, Return(0, YieldedHold)), AgainStates()[4])
  {
    var t := AgainStates();
    assert Apply(t[3], OnWorker(0, Return(0, YieldedHold))) == t[4];
  }

  lemma EnterLeads()
    ensures forall i :: 0 <= i < |EnterSteps()| ==> Leads(EnterStates()[i], EnterSteps()[i], EnterStates()[i + 1])
  {
    EnterTake();
    EnterCall();
    EnterRegister();
    EnterPark();
    hide Leads;
  }

  lemma FireLeads()
    ensures forall i :: 0 <= i < |FireSteps()| ==> Leads(FireStates()[i], FireSteps()[i], FireStates()[i + 1])
  {
    FireIdle();
    FirePop();
    FireDeliver();
    FireTake();
    FireLock();
    hide Leads;
  }

  lemma ReturnLeads()
    ensures forall i :: 0 <= i < |ReturnSteps()| ==> Leads(ReturnStates()[i], ReturnSteps()[i], ReturnStates()[i + 1])
  {
    ReturnReport();
    ReturnTake();
    ReturnTimedOut();
    hide Leads;
  }

  lemma AgainLeads()
    ensures forall i :: 0 <= i < |AgainSteps()| ==> Leads(AgainStates()[i], AgainSteps()[i], AgainStates()[i + 1])
  {
    AgainCall();
    AgainRegister();
    AgainPark();
    hide Leads;
  }

  lemma LateRun() returns (steps: seq<Step>)
    ensures Reaches(2, false, steps) && Reached(2, false, steps) == AgainStates()[4]
  {
    InitOfTwoReaders();
    var s := InitState(2, false);
    EnterLeads();
    FireLeads();
    ReturnLeads();
    AgainLeads();
    hide Leads, Possible, Considerate, Apply;
    Chain(s, [], EnterSteps(), EnterStates());
    Chain(s, [] + EnterSteps(), FireSteps(), FireStates());
    Chain(s, [] + EnterSteps() + FireSteps(), ReturnSteps(), ReturnStates());
    Chain(s, [] + EnterSteps() + FireSteps() + ReturnSteps(), AgainSteps(), AgainStates());
    steps := [] + EnterSteps() + FireSteps() + ReturnSteps() + AgainSteps();
  }

  // The first call has returned; its callback, already past the lock, settles the event of the second call, which
  // never asked for a timeout, and schedules its fiber.
  lemma LateSettleWakesLaterCall() returns (steps: seq<Step>)
    ensures Reaches(2, false, steps)
    ensures var s := Reached(2, false, steps);
            var settle := InHook(1, CallbackSettle(true));
            && |s.calls| == 2 && s.calls[0].result == Some(TimedOut) && !s.calls[1].timed
            && WaitsIn(s, 0, 1) && Bit(s, 0, 5, Read) && Queued(s, 0) == 0
            && Enabled(s, settle) && s.timers[s.fibers[1].local.timer].callback == TimeoutOf(0)
            && !Bit(Apply(s, settle), 0, 5, Read) && Queued(Apply(s, settle), 0) == 1
  {
    steps := LateRun();
    var s := AgainStates()[4];
    TableSlots();
    hide AgainStates, Runs, After;
    var settle := InHook(1, CallbackSettle(true));
    assert s.io.tasks == [];
    assert Enabled(s, settle);
    assert Apply(s, settle).io.tasks == [] + [Task(0, None)];
    CountPush([], Task(0, None));
  }

  // --- a timeout callback that runs before addEvent leaves its call waiting for ever --------------------------

  // Fiber 0 has armed its timer; before it registers, worker 1 pops the timer, schedules the callback and runs it.
  function EarlyStates(): seq<State> {
    var io := InitIo();
    var armed := Reader(IoArmed(0, Some(0)));
    var call := [FirstCall(None, None)];
    var flagged := [FirstCall(Some(0), None)];
    [In(io, [armed], call, [Timeout(Armed)], Running(0), Scanning, 1, 0),
     In(io, [armed], call, [Timeout(Armed)], Running(0), CheckingTimers, 1, 1),
     In(io, [armed], call, [Timeout(Armed)], Running(0), Polling, 1, 1),
     In(io, [armed], call, [Timeout(InFlight(1))], Running(0), Polling, 1, 1),
     In(io.(tasks := [Task(1, None)]), [armed, Fiber(Initialize, CallbackStart(0), 0)], call, [Timeout(Held(1))],
        Running(0), Polling, 1, 1),
     In(io.(tasks := [Task(1, None)]), [armed, Fiber(Initialize, CallbackStart(0), 0)], call, [Timeout(Held(1))],
        Running(0), Scanning, 1, 0),
     In(io, [armed, Fiber(Execute, CallbackStart(0), 1)], call, [Timeout(Held(1))], Running(0), Running(1), 2, 0),
     In(io, [armed, Fiber(Execute, CallbackLocked(0), 1)], flagged, [Timeout(Held(1))], Running(0), Running(1), 2, 0)]
  }

  function EarlySteps(): seq<Step> {
    [OnWorker(1, EnterIdle), OnWorker(1, ReadTimers), OnWorker(1, Pop(0)), OnWorker(1, Deliver(0)),
     OnWorker(1, LeaveIdle), OnWorker(1, Take(0)), InHook(1, CallbackLock)]
  }

  // The callback settles nothing, and fiber 0 registers and parks.
  function LostStates(): seq<State> {
    var flagged := [FirstCall(Some(0), None)];
    var done := Fiber(Execute, CallbackDone, 1);
    var spent := [Timeout(Spent)];
    [In(InitIo(), [Reader(IoArmed(0, Some(0))), Fiber(Execute, CallbackLocked(0), 1)], flagged, [Timeout(Held(1))],
        Running(0), Running(1), 2, 0),
     In(InitIo(), [Reader(IoArmed(0, Some(0))), done], flagged, spent, Running(0), Running(1), 2, 0),
     In(Listening(1, 0), [Reader(IoRegistered(0, Some(0))), done], flagged, spent, Running(0), Running(1), 2, 0),
     In(Listening(1, 0), [Fiber(Hold, IoParked(0, Some(0)), 0), done], flagged, spent, Scanning, Running(1), 1, 0)]
  }

  function LostSteps(): seq<Step> {
    [InHook(1, CallbackSettle(true)), InHook(0, IoRegister(true)), OnWorker(0, Return(0, YieldedHold))]
  }

  lemma EarlyIdle()
    ensures Leads(EarlyStates()[0], OnWorker(1, EnterIdle), EarlyStates()[1])
    ensures Leads(EarlyStates()[1], OnWorker(1, ReadTimers), EarlyStates()[2])
  {
    var t := EarlyStates();
    assert t[1].timers[0].place.Armed?;
    assert Apply(t[0], OnWorker(1, EnterIdle)) == t[1];
    assert Apply(t[1], OnWorker(1, ReadTimers)) == t[2];
  }

  lemma EarlyPop()
    ensures Leads(EarlyStates()[2], OnWorker(1, Pop(0)), EarlyStates()[3])
  {
    var t := EarlyStates();
    assert Apply(t[2], OnWorker(1, Pop(0))) == t[3];
  }

  lemma EarlyDeliver()
    ensures Leads(EarlyStates()[3], OnWorker(1, Deliver(0)), EarlyStates()[4])
    ensures Leads(EarlyStates()[4], OnWorker(1, LeaveIdle), EarlyStates()[5])
  {
    var t := EarlyStates();
    assert Apply(t[3], OnWorker(1, Deliver(0))) == t[4];
    assert Apply(t[4], OnWorker(1, LeaveIdle)) == t[5];
  }

  lemma EarlyTake()
    ensures Leads(EarlyStates()[5], OnWorker(1, Take(0)), EarlyStates()[6])
  {
    var t := EarlyStates();
    assert t[5].io.tasks[..0] == [];
    assert Enabled(t[5], OnWorker(1, Take(0)));
    assert Without(t[5].io.tasks, 0) == [];
    assert Apply(t[5], OnWorker(1, Take(0))) == t[6];
  }

  lemma EarlyLock()
    ensures Leads(EarlyStates()[6], InHook(1, CallbackLock), EarlyStates()[7])
  {
    TableSlots();
    var t := EarlyStates();
    assert Alive(t[6], 0);
    assert Apply(t[6], InHook(1, CallbackLock)) == t[7];
  }

  lemma LostSettle()
    ensures Leads(LostStates()[0], InHook(1, CallbackSettle(true)), LostStates()[1])
  {
    TableSlots();
    var t := LostStates();
    assert Apply(t[0], InHook(1, CallbackSettle(true))) == t[1];
  }

  lemma LostRegister()
    ensures Leads(LostStates()[1], InHook(0, IoRegister(true)), LostStates()[2])
  {
    hide AddEvent;
    TableSlots();
    Registers(InitIo());
    var t := LostStates();
    assert Apply(t[1], InHook(0, IoRegister(true))) == t[2];
  }

  lemma LostPark()
    ensures Leads(LostStates()[2], OnWorker(0, Return(0, YieldedHold)), LostStates()[3])
  {
    var t := LostStates();
    assert Apply(t[2], OnWorker(0, Return(0, YieldedHold))) == t[3];
  }

  lemma EarlyLeads()
    ensures forall i :: 0 <= i < |EarlySteps()| ==> Leads(EarlyStates()[i], EarlySteps()[i], EarlyStates()[i + 1])
  {
    hide Leads;
    EarlyIdle();
    EarlyPop();
    EarlyDeliver();
    EarlyTake();
    EarlyLock();
  }

  lemma LostLeads()
    ensures forall i :: 0 <= i < |LostSteps()| ==> Leads(LostStates()[i], LostSteps()[i], LostStates()[i + 1])
  {
    hide Leads;
    LostSettle();
    LostRegister();
    LostPark();
  }

  lemma LostRun() returns (steps: seq<Step>)
    ensures Reaches(2, false, steps) && Reached(2, false, steps) == LostStates()[3]
  {
    hide Leads, Possible, Considerate, Apply;
    InitOfTwoReaders();
    var s := InitState(2, false);
    EnterLeads();
    EarlyLeads();
    LostLeads();
    var enter := EnterSteps()[..4];
    Chain(s, [], enter, EnterStates()[..5]);
    Chain(s, [] + enter, EarlySteps(), EarlyStates());
    Chain(s, [] + enter + EarlySteps(), LostSteps(), LostStates());
    steps := [] + enter + EarlySteps() + LostSteps();
  }

  lemma InitOfTwoReaders()
    ensures InitState(2, false) == EnterStates()[0]
  {
    assert InitState(2, false).workers == [Idler(Scanning), Idler(Scanning)];
  }

  // The call asked for a timeout, its callback has run and set the flag, and yet the fiber is parked: its event is
  // registered, no entry of it is queued, and no timer is left that could wake it.
  lemma EarlyTimeoutIsLost() returns (steps: seq<Step>)
    ensures Reaches(2, false, steps)
    ensures var s := Reached(2, false, steps);
            && ParkedByHook(s, 0) && s.fibers[0].local == IoParked(0, Some(0))
            && s.calls[0].timed && s.calls[0].flag == Some(0) && s.calls[0].result.None?
            && Bit(s, 0, 5, Read) && Queued(s, 0) == 0
            && forall t :: 0 <= t < |s.timers| ==> s.timers[t].place.Spent?
  {
    hide Runs, After;
    steps := LostRun();
    TableSlots();
    var s := LostStates()[3];
    assert s.io.tasks == [];
  }
}
