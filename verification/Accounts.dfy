/** The task list of the runtime over whole runs: every change of it is a push or a take of the ledger in TaskQueue. */
module Accounts {

  import opened Base
  import opened TaskQueue
  import opened EventTable
  import opened Runtime
  import opened Safety

  // --- what a step puts into the queue -----------------------------------------------------------------------

  // Triggering some kinds of event wakes the reader and then the writer, each if it waits.
  function Woken(io: Io, fd: nat, kinds: set<Kind>): seq<Task> {
    if fd >= |io.table| then []
    else
      var slot := io.table[fd];
      (if Read in kinds && Read in slot.registered && slot.reader.Some? then [Task(slot.reader.value, None)] else [])
      + (if Write in kinds && Write in slot.registered && slot.writer.Some? then [Task(slot.writer.value, None)]
         else [])
  }

  // Read off the step's own arguments: a submitted callback comes in a new fiber with the pin it was given, everything
  // else unpinned; the kernel has to be willing for events to be triggered, and an error stands for both kinds.
  ghost function StepPushes(s: State, step: Step): seq<Task>
    requires Possible(s, step)
  {
    match step
    case OnWorker(_, Return(f, ending)) => if ending.YieldedReady? then [Task(f, None)] else []
    case OnWorker(_, Deliver(_)) => [Task(|s.fibers|, None)]
    case OnWorker(_, Report(fd, reported, failed, willing)) =>
      if willing then Woken(s.io, fd, if failed then {Read, Write} else reported) else []
    case InCode(_, Submit(pin)) => [Task(|s.fibers|, pin)]
    case InCode(_, Resubmit(g)) => [Task(g, None)]
    case InCode(_, Settle(fd, kind, willing)) => if willing then Woken(s.io, fd, {kind}) else []
    case InCode(_, SettleAll(fd, willing)) => if willing then Woken(s.io, fd, {Read, Write}) else []
    case InHook(f, CallbackWake) => [Task(s.timers[s.fibers[f].local.timer].callback.fiber, None)]
    case InHook(f, CallbackSettle(willing)) =>
      var call := s.calls[s.timers[s.fibers[f].local.timer].callback.call];
      if willing then Woken(s.io, call.fd, {call.kind}) else []
    case Outside(OutsideSubmit(pin)) => [Task(|s.fibers|, pin)]
    case _ => []
  }

  lemma ReportQueues(io: Io, fd: nat, reported: set<Kind>, failed: bool, willing: bool)
    requires IoInv(io) && fd < |io.table| && !Dispatch(io, fd, reported, failed, willing).Aborted?
    ensures Dispatch(io, fd, reported, failed, willing).io.tasks ==
            io.tasks + if willing then Woken(io, fd, if failed then {Read, Write} else reported) else []
  {
    hide Dispatch;
    ReportResult(io, fd, reported, failed, willing);
    assert io.table[fd].Known();
    var hit := if failed then io.table[fd].registered else reported * io.table[fd].registered;
    assert hit == {} ==> Read !in hit && Write !in hit;
  }

  lemma SettleQueues(io: Io, fd: nat, kind: Kind, willing: bool)
    requires IoInv(io)
    ensures SettleEvent(io, fd, kind, willing).io.tasks == io.tasks + if willing then Woken(io, fd, {kind}) else []
  {
    hide SettleEvent;
    SettleResult(io, fd, kind, willing);
    assert kind.Read? || kind.Write?;
  }

  lemma SettleAllQueues(io: Io, fd: nat, willing: bool)
    requires IoInv(io)
    ensures SettleAllEvents(io, fd, willing).io.tasks ==
            io.tasks + if willing then Woken(io, fd, {Read, Write}) else []
  {
    hide SettleAllEvents;
    SettleAllResult(io, fd, willing);
    if fd < |io.table| {
      assert io.table[fd].Known();
      assert io.table[fd].registered == {} ==> Read !in io.table[fd].registered && Write !in io.table[fd].registered;
    }
  }

  lemma WorkerQueues(s: State, w: nat, work: WorkerStep)
    requires IoInv(s.io) && WorkerEnabled(s, w, work) && !work.Take?
    ensures ApplyWorker(s, w, work).io.tasks == s.io.tasks + StepPushes(s, OnWorker(w, work))
  {
    hide IoInv, Dispatch, NoneEligible, FirstEligible, Woken;
    if work.Report? {
      ReportQueues(s.io, work.fd, work.reported, work.failed, work.willing);
    }
  }

  lemma CodeQueues(s: State, f: nat, code: CodeStep)
    requires IoInv(s.io) && CodeEnabled(s, f, code)
    ensures ApplyCode(s, f, code).io.tasks == s.io.tasks + StepPushes(s, InCode(f, code))
  {
    hide IoInv, SettleEvent, SettleAllEvents, Woken;
    match code
    case Settle(fd, kind, willing) => SettleQueues(s.io, fd, kind, willing);
    case SettleAll(fd, willing) => SettleAllQueues(s.io, fd, willing);
    case _ =>
  }

  lemma HookQueues(s: State, f: nat, hook: HookStep)
    requires IoInv(s.io) && HookEnabled(s, f, hook)
    ensures ApplyHook(s, f, hook).io.tasks == s.io.tasks + StepPushes(s, InHook(f, hook))
  {
    hide IoInv, SettleEvent, Woken, Alive;
    if hook.CallbackSettle? {
      var call := s.calls[s.timers[s.fibers[f].local.timer].callback.call];
      SettleQueues(s.io, call.fd, call.kind, hook.willing);
    }
  }

  // Every step but a take adds just those tasks behind the others.
  lemma StepQueues(s: State, step: Step)
    requires IoInv(s.io) && Possible(s, step) && !IsTake(step)
    ensures Apply(s, step).io.tasks == s.io.tasks + StepPushes(s, step)
  {
    hide IoInv, WorkerEnabled, CodeEnabled, HookEnabled, ApplyWorker, ApplyCode, ApplyHook, StepPushes;
    match step
    case OnWorker(w, work) => WorkerQueues(s, w, work);
    case InCode(f, code) => CodeQueues(s, f, code);
    case InHook(f, hook) => HookQueues(s, f, hook);
    case Outside(outside) => OutsideQueues(s, outside);
  }

  lemma OutsideQueues(s: State, outside: OutsideStep)
    requires OutsideEnabled(s, outside)
    ensures ApplyOutside(s, outside).io.tasks == s.io.tasks + StepPushes(s, Outside(outside))
  {
  }

  // --- the ledger of a run -----------------------------------------------------------------------------------

  function Pushes(tasks: seq<Task>): seq<QueueOp> {
    seq(|tasks|, i requires 0 <= i < |tasks| => Push(tasks[i]))
  }

  // What a step does to the queue.
  ghost function StepOps(s: State, step: Step): seq<QueueOp>
    requires Possible(s, step)
  {
    if IsTake(step) then [TakeBy(step.worker, Busy(s))] else Pushes(StepPushes(s, step))
  }

  ghost function RunOps(s: State, steps: seq<Step>): seq<QueueOp>
    requires FreeRuns(s, steps)
    decreases |steps|
  {
    if steps == [] then [] else StepOps(s, steps[0]) + RunOps(Apply(s, steps[0]), steps[1..])
  }

  lemma PushDone(l: Ledger, task: Task)
    ensures Tasks(Do(l, Push(task)).queue) == Tasks(l.queue) + [task]
  {
  }

  lemma {:induction false} PushesDone(ops: seq<QueueOp>, tasks: seq<Task>)
    ensures Tasks(DoAll(ops + Pushes(tasks)).queue) == Tasks(DoAll(ops).queue) + tasks
  {
    hide DoAll, Do, Tasks;
    if tasks == [] {
      assert ops + Pushes(tasks) == ops;
    } else {
      var n := |tasks| - 1;
      var before := ops + Pushes(tasks[..n]);
      PushesDone(ops, tasks[..n]);
      assert ops + Pushes(tasks) == before + [Push(tasks[n])];
      DoneLast(before, Push(tasks[n]));
      PushDone(DoAll(before), tasks[n]);
    }
  }

  lemma EntryTaken(l: Ledger, thread: nat, busy: set<nat>, i: nat)
    requires FirstEligible(Tasks(l.queue), thread, busy, i)
    ensures Tasks(Do(l, TakeBy(thread, busy)).queue) == Without(Tasks(l.queue), i)
  {
    hide Eligible;
    assert Tasks(l.queue[..i] + l.queue[i + 1..]) == Without(Tasks(l.queue), i);
  }

  lemma TakeRemoves(s: State, w: nat, i: nat)
    requires WorkerEnabled(s, w, Take(i))
    ensures FirstEligible(s.io.tasks, w, Busy(s), i)
    ensures ApplyWorker(s, w, Take(i)).io.tasks == Without(s.io.tasks, i)
  {
    hide Eligible;
  }

  lemma TakeDone(ops: seq<QueueOp>, s: State, w: nat, i: nat)
    requires WorkerEnabled(s, w, Take(i)) && Tasks(DoAll(ops).queue) == s.io.tasks
    ensures Tasks(DoAll(ops + [TakeBy(w, Busy(s))]).queue) == ApplyWorker(s, w, Take(i)).io.tasks
  {
    hide DoAll, Do, Tasks, WorkerEnabled, ApplyWorker;
    DoneLast(ops, TakeBy(w, Busy(s)));
    TakeRemoves(s, w, i);
    EntryTaken(DoAll(ops), w, Busy(s), i);
  }

  lemma DoneLast(ops: seq<QueueOp>, op: QueueOp)
    ensures DoAll(ops + [op]) == Do(DoAll(ops), op)
  {
    assert (ops + [op])[..|ops|] == ops;
  }

  lemma StepDone(ops: seq<QueueOp>, s: State, step: Step)
    requires IoInv(s.io) && Possible(s, step) && Tasks(DoAll(ops).queue) == s.io.tasks
    ensures Tasks(DoAll(ops + StepOps(s, step)).queue) == Apply(s, step).io.tasks
  {
    hide IoInv, ApplyWorker, ApplyCode, ApplyHook, DoAll, Pushes, StepPushes;
    if IsTake(step) {
      TakeDone(ops, s, step.worker, step.work.index);
    } else {
      StepQueues(s, step);
      PushesDone(ops, StepPushes(s, step));
    }
  }

  lemma {:induction false} RunDone(ops: seq<QueueOp>, s: State, steps: seq<Step>)
    requires IoInv(s.io) && FreeRuns(s, steps) && Tasks(DoAll(ops).queue) == s.io.tasks
    ensures Tasks(DoAll(ops + RunOps(s, steps)).queue) == FreeAfter(s, steps).io.tasks
    decreases |steps|
  {
    hide IoInv, Possible, Apply, DoAll, StepOps;
    if steps == [] {
      assert ops + RunOps(s, steps) == ops;
    } else {
      var first := StepOps(s, steps[0]);
      StepDone(ops, s, steps[0]);
      StepKeepsIo(s, steps[0]);
      RunDone(ops + first, Apply(s, steps[0]), steps[1..]);
      assert ops + RunOps(s, steps) == (ops + first) + RunOps(Apply(s, steps[0]), steps[1..]);
    }
  }

  lemma InitDone(pool: nat, useCaller: bool)
    ensures IoInv(InitState(pool, useCaller).io) && Tasks(DoAll([]).queue) == InitState(pool, useCaller).io.tasks
  {
    InitIoInv();
  }

  // Over every run of the runtime each entry ever queued is in the queue, in the order of queueing, or was taken once,
  // by a worker it may run on.
  lemma NoTaskLostInRuns(pool: nat, useCaller: bool, steps: seq<Step>)
    requires ReachesFreely(pool, useCaller, steps)
    ensures var ops := RunOps(InitState(pool, useCaller), steps);
            && Balanced(DoAll(ops), Pushed(ops))
            && Tasks(DoAll(ops).queue) == ReachedFreely(pool, useCaller, steps).io.tasks
  {
    hide FreeRuns, FreeAfter, RunOps, Balanced, Pushed, DoAll, IoInv, InitState;
    var s := InitState(pool, useCaller);
    var ops := RunOps(s, steps);
    NoTaskLostOrDoubled(ops);
    InitDone(pool, useCaller);
    RunDone([], s, steps);
    assert [] + ops == ops;
  }

  lemma {:induction false} PushedConcat(a: seq<QueueOp>, b: seq<QueueOp>)
    ensures Pushed(a + b) == Pushed(a) + Pushed(b)
  {
    if b == [] {
      assert a + b == a;
    } else {
      var n := |b| - 1;
      assert (a + b)[..|a + b| - 1] == a + b[..n] && (a + b)[|a + b| - 1] == b[n];
      PushedConcat(a, b[..n]);
    }
  }

  predicate Submits(step: Step, pin: Option<nat>) {
    step == Outside(OutsideSubmit(pin)) || (step.InCode? && step.code == Submit(pin))
  }

  // A task submitted with a pin, at any time in any run: whatever happens before and after, it is in the queue with
  // that pin, or was taken once, and then by the worker it is pinned to.
  lemma PinIsKept(pool: nat, useCaller: bool, before: seq<Step>, step: Step, pin: Option<nat>, after: seq<Step>)
    requires ReachesFreely(pool, useCaller, before) && Submits(step, pin)
    requires var s := ReachedFreely(pool, useCaller, before); Possible(s, step) && FreeRuns(Apply(s, step), after)
    ensures var s := ReachedFreely(pool, useCaller, before);
            var earlier, task := RunOps(InitState(pool, useCaller), before), Task(|s.fibers|, pin);
            var l, ticket := DoAll(earlier + [Push(task)] + RunOps(Apply(s, step), after)), |Pushed(earlier)|;
            && Tasks(l.queue) == FreeAfter(Apply(s, step), after).io.tasks
            && InQueue(l.queue, ticket) + InTaken(l.taken, ticket) == 1
            && (forall i :: 0 <= i < |l.queue| && l.queue[i].ticket == ticket ==> l.queue[i].task == task)
            && (forall i :: 0 <= i < |l.taken| && l.taken[i].ticket == ticket ==>
                              l.taken[i].task == task && (pin.Some? ==> l.taken[i].thread == pin.value))
  {
    hide FreeRuns, FreeAfter, RunOps, Apply, Possible, DoAll, Pushed, IoInv, InitState;
    var s0, s := InitState(pool, useCaller), ReachedFreely(pool, useCaller, before);
    var earlier, task := RunOps(s0, before), Task(|s.fibers|, pin);
    var later := RunOps(Apply(s, step), after);
    InitDone(pool, useCaller);
    RunDone([], s0, before);
    assert [] + earlier == earlier;
    FreeRunKeepsIo(s0, before);
    SubmitOps(s, step, pin);
    StepDone(earlier, s, step);
    StepKeepsIo(s, step);
    RunDone(earlier + [Push(task)], Apply(s, step), after);
    NoTaskLostOrDoubled(earlier + [Push(task)] + later);
    PushedConcat(earlier + [Push(task)], later);
    PushedConcat(earlier, [Push(task)]);
    PushedOne(task);
  }

  lemma PushedOne(task: Task)
    ensures Pushed([Push(task)]) == [task]
  {
    assert [Push(task)][..0] == [];
  }

  lemma SubmitOps(s: State, step: Step, pin: Option<nat>)
    requires Possible(s, step) && Submits(step, pin)
    ensures StepOps(s, step) == [Push(Task(|s.fibers|, pin))]
  {
  }
}
