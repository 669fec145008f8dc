/** The registered events of the runtime over whole runs: which step adds one, which takes one away, and for whom. */
module Registrations {

  import opened Base
  import opened TaskQueue
  import opened Fibers
  import opened EventTable
  import opened Runtime
  import opened Weave
  import opened Crew
  import opened Safety

  // addEvent succeeds: the event is not registered, and the descriptor has another one or epoll does not hold it.
  predicate Addable(io: Io, fd: nat, kind: Kind) {
    var registered := if fd < |io.table| then io.table[fd].registered else {};
    kind !in registered && (registered != {} || fd !in io.epoll)
  }

  // The step registers the event, for the fiber it comes with or makes.
  predicate Adds(s: State, step: Step, fd: nat, kind: Kind, waiter: nat) {
    Addable(s.io, fd, kind) &&
    match step
    case InCode(_, Watch(fd', kind', willing)) => willing && fd' == fd && kind' == kind && waiter == |s.fibers|
    case InHook(f, IoRegister(willing)) =>
      && willing && waiter == f && InCall(s, f)
      && s.calls[s.fibers[f].local.call].fd == fd && s.calls[s.fibers[f].local.call].kind == kind
    case _ => false
  }

  // The step deletes, settles or dispatches it, and the kernel is willing.
  predicate Removes(s: State, step: Step, fd: nat, kind: Kind) {
    match step
    case OnWorker(_, Report(fd', reported, failed, willing)) => willing && fd' == fd && (failed || kind in reported)
    case InCode(_, Unwatch(fd', kind', willing)) => willing && fd' == fd && kind' == kind
    case InCode(_, Settle(fd', kind', willing)) => willing && fd' == fd && kind' == kind
    case InCode(_, SettleAll(fd', willing)) => willing && fd' == fd
    case InHook(f, CallbackSettle(willing)) =>
      && willing && InCallback(s, f) && s.timers[s.fibers[f].local.timer].callback.TimeoutOf?
      && var call := s.calls[s.timers[s.fibers[f].local.timer].callback.call]; call.fd == fd && call.kind == kind
    case _ => false
  }

  // Registered afterwards exactly if it was and is not removed, or is added; and for the fiber it was added for.
  ghost predicate Follows(s: State, step: Step, io: Io) {
    && (forall fd: nat, kind :: Registered(io, fd, kind) <==>
                                (Registered(s.io, fd, kind) && !Removes(s, step, fd, kind)) ||
                                exists waiter: nat :: Adds(s, step, fd, kind, waiter))
    && (forall fd: nat, kind, waiter: nat :: Adds(s, step, fd, kind, waiter) ==>
                                               fd < |io.table| && io.table[fd].Waiter(kind) == Some(waiter))
    && (forall fd: nat, kind :: Registered(s.io, fd, kind) && Registered(io, fd, kind) ==>
                                  io.table[fd].Waiter(kind) == s.io.table[fd].Waiter(kind))
  }

  // A step that adds nothing and takes some events of one descriptor away.
  lemma RemovalFollows(s: State, step: Step, io: Io, fd: nat, gone: set<Kind>)
    requires OthersKept(s.io, io, fd) && |io.table| == |s.io.table|
    requires forall fd': nat, kind, waiter: nat :: !Adds(s, step, fd', kind, waiter)
    requires forall fd': nat, kind :: Registered(s.io, fd', kind) ==>
                                        (Removes(s, step, fd', kind) <==> fd' == fd && kind in gone)
    requires fd < |io.table| ==>
               && io.table[fd].registered == s.io.table[fd].registered - gone
               && forall kind :: kind in io.table[fd].registered ==>
                                   io.table[fd].Waiter(kind) == s.io.table[fd].Waiter(kind)
    ensures Follows(s, step, io)
  {
    hide Adds, Removes;
    forall fd': nat, kind
      ensures Registered(io, fd', kind) <==> Registered(s.io, fd', kind) && !Removes(s, step, fd', kind)
    {
    }
  }

  lemma SameFollows(s: State, step: Step, io: Io)
    requires io.table == s.io.table
    requires forall fd: nat, kind, waiter: nat :: !Adds(s, step, fd, kind, waiter)
    requires forall fd: nat, kind :: Registered(s.io, fd, kind) ==> !Removes(s, step, fd, kind)
    ensures Follows(s, step, io)
  {
    hide Adds, Removes;
  }

  lemma ReportFollows(s: State, w: nat, fd: nat, reported: set<Kind>, failed: bool, willing: bool)
    requires IoInv(s.io) && WorkerEnabled(s, w, Report(fd, reported, failed, willing))
    ensures var step := OnWorker(w, Report(fd, reported, failed, willing)); Follows(s, step, Apply(s, step).io)
  {
    hide Dispatch, IoInv;
    ReportResult(s.io, fd, reported, failed, willing);
    WaitersStay(s.io, fd, reported, failed, willing);
    var step := OnWorker(w, Report(fd, reported, failed, willing));
    var hit := if failed then s.io.table[fd].registered else reported * s.io.table[fd].registered;
    if Dispatch(s.io, fd, reported, failed, willing).Done? {
      RemovalFollows(s, step, Apply(s, step).io, fd, hit);
    } else {
      assert willing ==> hit == {};
      assert forall kind :: kind in s.io.table[fd].registered && (failed || kind in reported) ==> kind in hit;
      SameFollows(s, step, Apply(s, step).io);
    }
  }

  // Triggers leave the waiters where they are.
  lemma WaitersStay(io: Io, fd: nat, reported: set<Kind>, failed: bool, willing: bool)
    requires fd < |io.table| && !Dispatch(io, fd, reported, failed, willing).Aborted?
    ensures var io' := Dispatch(io, fd, reported, failed, willing).io;
            fd < |io'.table| && forall kind :: io'.table[fd].Waiter(kind) == io.table[fd].Waiter(kind)
  {
  }

  lemma AllWaitersStay(io: Io, fd: nat, willing: bool)
    requires fd < |io.table|
    ensures var io' := SettleAllEvents(io, fd, willing).io;
            fd < |io'.table| && forall kind :: io'.table[fd].Waiter(kind) == io.table[fd].Waiter(kind)
  {
  }

  lemma SettleFollows(s: State, step: Step, fd: nat, kind: Kind, willing: bool)
    requires IoInv(s.io)
    requires forall fd': nat, kind', waiter: nat :: !Adds(s, step, fd', kind', waiter)
    requires forall fd': nat, kind' :: Removes(s, step, fd', kind') <==> willing && fd' == fd && kind' == kind
    ensures Follows(s, step, SettleEvent(s.io, fd, kind, willing).io)
  {
    hide SettleEvent, IoInv, Adds, Removes;
    SettleResult(s.io, fd, kind, willing);
    if SettleEvent(s.io, fd, kind, willing).Done? {
      RemovalFollows(s, step, SettleEvent(s.io, fd, kind, willing).io, fd, {kind});
    } else {
      SameFollows(s, step, s.io);
    }
  }

  lemma DeleteFollows(s: State, step: Step, fd: nat, kind: Kind, willing: bool)
    requires IoInv(s.io)
    requires forall fd': nat, kind', waiter: nat :: !Adds(s, step, fd', kind', waiter)
    requires forall fd': nat, kind' :: Removes(s, step, fd', kind') <==> willing && fd' == fd && kind' == kind
    ensures Follows(s, step, DeleteEvent(s.io, fd, kind, willing).io)
  {
    hide DeleteEvent, IoInv, Adds, Removes;
    DeleteResult(s.io, fd, kind, willing);
    if DeleteEvent(s.io, fd, kind, willing).Done? {
      RemovalFollows(s, step, DeleteEvent(s.io, fd, kind, willing).io, fd, {kind});
    } else {
      SameFollows(s, step, s.io);
    }
  }

  lemma SettleAllFollows(s: State, f: nat, fd: nat, willing: bool)
    requires IoInv(s.io)
    ensures Follows(s, InCode(f, SettleAll(fd, willing)), SettleAllEvents(s.io, fd, willing).io)
  {
    hide SettleAllEvents, IoInv;
    SettleAllResult(s.io, fd, willing);
    var step := InCode(f, SettleAll(fd, willing));
    if SettleAllEvents(s.io, fd, willing).Done? {
      AllWaitersStay(s.io, fd, willing);
      RemovalFollows(s, step, SettleAllEvents(s.io, fd, willing).io, fd, s.io.table[fd].registered);
    } else {
      SameFollows(s, step, s.io);
    }
  }

  lemma AddFollows(s: State, step: Step, fd: nat, kind: Kind, waiter: nat, willing: bool)
    requires IoInv(s.io) && |s.io.table| >= INITIAL_SLOTS && !AddEvent(s.io, fd, kind, waiter, willing).Aborted?
    requires forall fd': nat, kind' :: !Removes(s, step, fd', kind')
    requires forall fd': nat, kind', waiter': nat ::
               Adds(s, step, fd', kind', waiter') <==>
               fd' == fd && kind' == kind && waiter' == waiter && willing && Addable(s.io, fd, kind)
    ensures Follows(s, step, AddEvent(s.io, fd, kind, waiter, willing).io)
  {
    hide AddEvent, IoInv, Adds, Removes;
    AddResult(s.io, fd, kind, waiter, willing);
    var io' := AddEvent(s.io, fd, kind, waiter, willing).io;
    forall fd': nat, kind'
      ensures Registered(io', fd', kind') <==>
              Registered(s.io, fd', kind') || exists waiter': nat :: Adds(s, step, fd', kind', waiter')
    {
      if fd' == fd && kind' == kind && willing && Addable(s.io, fd, kind) {
        assert Adds(s, step, fd, kind, waiter);
      }
    }
  }

  lemma WorkerFollows(s: State, w: nat, work: WorkerStep)
    requires IoInv(s.io) && WorkerEnabled(s, w, work)
    ensures Follows(s, OnWorker(w, work), ApplyWorker(s, w, work).io)
  {
    hide IoInv, Dispatch, NoneEligible, Eligible, Follows;
    if work.Report? {
      ReportFollows(s, w, work.fd, work.reported, work.failed, work.willing);
    } else {
      SameFollows(s, OnWorker(w, work), ApplyWorker(s, w, work).io);
    }
  }

  lemma CodeFollows(s: State, f: nat, code: CodeStep)
    requires IoInv(s.io) && CodeEnabled(s, f, code)
    ensures Follows(s, InCode(f, code), ApplyCode(s, f, code).io)
  {
    hide IoInv, AddEvent, DeleteEvent, SettleEvent, SettleAllEvents, Addable, Follows;
    var step := InCode(f, code);
    match code
    case Watch(fd, kind, willing) => AddFollows(s, step, fd, kind, |s.fibers|, willing);
    case Unwatch(fd, kind, willing) =>
      DeleteFollows(s, step, fd, kind, willing);
      DeleteResult(s.io, fd, kind, willing);
    case Settle(fd, kind, willing) => SettleFollows(s, step, fd, kind, willing);
    case SettleAll(fd, willing) => SettleAllFollows(s, f, fd, willing);
    case _ => SameFollows(s, step, ApplyCode(s, f, code).io);
  }

  lemma HookFollows(s: State, f: nat, hook: HookStep)
    requires IoInv(s.io) && HookEnabled(s, f, hook)
    ensures Follows(s, InHook(f, hook), ApplyHook(s, f, hook).io)
  {
    hide IoInv, AddEvent, SettleEvent, Addable, Alive, Follows;
    var step := InHook(f, hook);
    match hook
    case IoRegister(willing) =>
      var call := s.calls[s.fibers[f].local.call];
      AddFollows(s, step, call.fd, call.kind, f, willing);
    case CallbackSettle(willing) =>
      var call := s.calls[s.timers[s.fibers[f].local.timer].callback.call];
      SettleFollows(s, step, call.fd, call.kind, willing);
    case _ => SameFollows(s, step, ApplyHook(s, f, hook).io);
  }

  lemma OutsideFollows(s: State, outside: OutsideStep)
    requires OutsideEnabled(s, outside)
    ensures Follows(s, Outside(outside), ApplyOutside(s, outside).io)
  {
    hide Follows;
    SameFollows(s, Outside(outside), ApplyOutside(s, outside).io);
  }

  // What every step does to every event: nothing but this.
  lemma StepFollows(s: State, step: Step)
    requires IoInv(s.io) && Possible(s, step)
    ensures Follows(s, step, Apply(s, step).io)
  {
    hide IoInv, Follows, WorkerEnabled, CodeEnabled, HookEnabled, ApplyWorker, ApplyCode, ApplyHook;
    match step
    case OnWorker(w, work) => WorkerFollows(s, w, work);
    case InCode(f, code) => CodeFollows(s, f, code);
    case InHook(f, hook) => HookFollows(s, f, hook);
    case Outside(outside) => OutsideFollows(s, outside);
  }

  // --- over every run ----------------------------------------------------------------------------------------

  // Whether an event should be registered after the run, going by its adds and removals alone.
  ghost predicate Replayed(s: State, steps: seq<Step>, fd: nat, kind: Kind, on: bool)
    requires FreeRuns(s, steps)
    decreases |steps|
  {
    if steps == [] then on
    else
      var next := (on && !Removes(s, steps[0], fd, kind)) || exists waiter: nat :: Adds(s, steps[0], fd, kind, waiter);
      Replayed(Apply(s, steps[0]), steps[1..], fd, kind, next)
  }

  lemma {:induction false} RunFollows(s: State, steps: seq<Step>, fd: nat, kind: Kind)
    requires IoInv(s.io) && FreeRuns(s, steps)
    ensures Registered(FreeAfter(s, steps).io, fd, kind) <==> Replayed(s, steps, fd, kind, Registered(s.io, fd, kind))
    decreases |steps|
  {
    hide IoInv, Possible, Apply, Adds, Removes, Registered;
    if steps != [] {
      StepFollows(s, steps[0]);
      StepKeepsIo(s, steps[0]);
      RunFollows(Apply(s, steps[0]), steps[1..], fd, kind);
    }
  }

  // Over every run from the start an event is registered exactly if its last addition has not been followed by its
  // deletion, its settling or its dispatch.
  lemma RegisteredIff(pool: nat, useCaller: bool, steps: seq<Step>, fd: nat, kind: Kind)
    requires ReachesFreely(pool, useCaller, steps)
    ensures Registered(ReachedFreely(pool, useCaller, steps).io, fd, kind) <==>
            Replayed(InitState(pool, useCaller), steps, fd, kind, false)
  {
    hide FreeRuns, FreeAfter, Replayed;
    InitIoInv();
    RunFollows(InitState(pool, useCaller), steps, fd, kind);
  }

  // --- events registered by ordinary code ----------------------------------------------------------------------

  // Ordinary code's addEvent brings a fiber of its own to wait for the event, if it succeeds.
  lemma WatchMakesWaiter(s: State, f: nat, fd: nat, kind: Kind, willing: bool)
    requires IoInv(s.io) && CodeEnabled(s, f, Watch(fd, kind, willing))
    ensures Apply(s, InCode(f, Watch(fd, kind, willing))).fibers ==
            s.fibers + if willing && Addable(s.io, fd, kind) then [Fiber(Initialize, EventWait(fd, kind), 0)] else []
  {
    hide AddEvent;
    AddResult(s.io, fd, kind, |s.fibers|, willing);
  }

  // Its deleteEvent leaves the waiter of the event with nobody to wake it, and changes nothing else of fibers and
  // calls.
  lemma UnwatchForgets(s: State, f: nat, fd: nat, kind: Kind, willing: bool)
    requires Inv(s) && CodeEnabled(s, f, Unwatch(fd, kind, willing))
    ensures var s' := Apply(s, InCode(f, Unwatch(fd, kind, willing)));
            if willing && Registered(s.io, fd, kind) then
              var waiter := s.io.table[fd].Waiter(kind);
              waiter.Some? && waiter.value < |s.fibers| &&
              match s.fibers[waiter.value].local
              case EventWait(_, _) =>
                s'.calls == s.calls && s'.fibers == s.fibers[waiter.value := s.fibers[waiter.value].(local := Dropped)]
              case IoRegistered(c, _) =>
                c < |s.calls| && s'.fibers == s.fibers && s'.calls == s.calls[c := s.calls[c].(abandoned := true)]
              case IoParked(c, _) =>
                c < |s.calls| && s'.fibers == s.fibers && s'.calls == s.calls[c := s.calls[c].(abandoned := true)]
              case _ => false
            else s'.fibers == s.fibers && s'.calls == s.calls
  {
    hide DeleteEvent, CrewInv, IoInv;
    DeleteResult(s.io, fd, kind, willing);
    if Registered(s.io, fd, kind) {
      assert SlotOk(s, fd, kind);
    }
  }

  // Closing a descriptor takes it out of epoll and does nothing else.
  lemma CloseLetsGo(s: State, f: nat, fd: nat)
    requires CodeEnabled(s, f, CloseFd(fd))
    ensures var s' := Apply(s, InCode(f, CloseFd(fd)));
            && fd !in s'.io.epoll && s' == s.(io := s.io.(epoll := s'.io.epoll))
            && forall other: nat :: other != fd ==>
                                      && (other in s'.io.epoll <==> other in s.io.epoll)
                                      && (other in s.io.epoll ==> s'.io.epoll[other] == s.io.epoll[other])
  {
  }
}
