/** `Scheduler` and `IOManager` as the object they are. */
module IoManager {

  // The task list, the two counters, the stop flag, the event table, the epoll set and the pending-event counter, with
  // the methods that change them. Each method is proved against the functions of EventTable and TaskQueue that the
  // transition system is built from.

  import opened Base
  import opened TaskQueue
  import opened Fibers
  import opened EventTable

  // What a method of the source did: returned true, returned false, or ran into an Assert.
  datatype Answer = Succeeded | Failed | Asserted

  function AnswerOf(outcome: Outcome): Answer {
    match outcome
    case Done(_) => Succeeded
    case Refused(_) => Failed
    case Aborted => Asserted
  }

  class IoManager {
    // Scheduler
    var tasks: seq<Task>
    var active: int
    var idle: int
    var stopped: bool
    // IOManager
    var table: seq<Slot>
    var epoll: map<nat, set<Kind>>
    var pending: int
    ghost var adds: nat
    ghost var deletes: nat
    ghost var triggers: nat

    ghost function View(): Io
      reads this
    {
      Io(table, epoll, pending, tasks, adds, deletes, triggers)
    }

    constructor ()
      ensures View() == InitIo() && active == 0 && idle == 0 && !stopped
    {
      tasks, active, idle, stopped := [], 0, 0, true;
      epoll, pending := map[], 0;
      adds, deletes, triggers := 0, 0, 0;
      table := [];
      new;
      Resize(INITIAL_SLOTS);
      stopped := false; // start(), less its threads
    }

    // Makes room for `size` descriptors and gives every empty place its entry.
    method Resize(size: nat)
      modifies this`table
      ensures table == Resized(old(table), size)
    {
      var before := table;
      var places: seq<Option<Slot>> := seq(size, i requires 0 <= i => if i < |before| then Some(before[i]) else None);
      var filled: seq<Slot> := [];
      for i := 0 to |places|
        invariant |filled| == i && table == before
        invariant forall j :: 0 <= j < i ==> filled[j] == if j < |before| then before[j] else FreshSlot(j)
      {
        filled := filled + [if places[i].None? then FreshSlot(i) else places[i].value];
      }
      table := filled;
    }

    method Schedule(fiber: Option<nat>, thread: Option<nat>) returns (needTickle: bool)
      modifies this`tasks
      ensures tasks == old(tasks) + if fiber.Some? then [Task(fiber.value, thread)] else []
      ensures needTickle <==> old(tasks) == []
    {
      needTickle := tasks == [];
      if fiber.Some? {
        tasks := tasks + [Task(fiber.value, thread)];
      }
    }

    // The loop at the top of `run`: walks the list, steps over what is not for this thread or is running already,
    // and takes the first other task.
    method TakeTask(thread: nat, busy: set<nat>) returns (task: Option<Task>, tickleMe: bool)
      modifies this`tasks, this`active
      ensures var index := Scan(old(tasks), thread, busy);
              && (task.Some? <==> index.Some?)
              && (index.Some? ==>
                    && task.value == old(tasks)[index.value]
                    && tasks == Without(old(tasks), index.value)
                    && active == old(active) + 1
                    && (tickleMe <==> exists j :: 0 <= j < index.value && PinnedElsewhere(old(tasks)[j], thread)))
              && (index.None? ==>
                    && tasks == old(tasks) && active == old(active)
                    && (tickleMe <==> exists j :: 0 <= j < |old(tasks)| && PinnedElsewhere(old(tasks)[j], thread)))
    {
      task, tickleMe := None, false;
      var i := 0;
      while i < |tasks|
        invariant 0 <= i <= |tasks| && tasks == old(tasks) && active == old(active) && task.None?
        invariant forall j :: 0 <= j < i ==> !Eligible(tasks[j], thread, busy)
        invariant tickleMe <==> exists j :: 0 <= j < i && PinnedElsewhere(tasks[j], thread)
      {
        if tasks[i].pin.Some? && tasks[i].pin.value != thread {
          assert PinnedElsewhere(tasks[i], thread);
          tickleMe := true;
          i := i + 1;
        } else if tasks[i].fiber in busy {
          i := i + 1;
        } else {
          assert FirstEligible(tasks, thread, busy, i);
          task := Some(tasks[i]);
          tasks := tasks[..i] + tasks[i + 1..];
          active := active + 1;
          return;
        }
      }
      assert NoneEligible(tasks, thread, busy);
    }

    // swapIn has returned with the fiber in `state`; gives the state it is left in.
    method TaskReturned(fiber: nat, state: FiberState) returns (left: FiberState)
      modifies this`tasks, this`active
      ensures active == old(active) - 1 && left == StateAfterReturn(state)
      ensures left == if state == Ready || state == Terminal || state == Except then state else Hold
      ensures tasks == old(tasks) + if state.Ready? then [Task(fiber, None)] else []
    {
      active := active - 1;
      left := state;
      if state.Ready? {
        var _ := Schedule(Some(fiber), None);
      } else if !Dead(state) {
        left := Hold;
      }
    }

    method SchedulerIsCompleted() returns (completed: bool)
      ensures completed <==> stopped && tasks == [] && active == 0
    {
      completed := stopped && tasks == [] && active == 0;
    }

    method TriggerEvent(fd: nat, kind: Kind) returns (answer: Answer)
      modifies this
      ensures stopped == old(stopped) && active == old(active) && idle == old(idle)
      ensures answer == if Registered(old(View()), fd, kind) then Succeeded else Asserted
      ensures Registered(old(View()), fd, kind) ==>
                View() == Trigger(old(View()), fd, kind).(pending := old(pending))
    {
      if fd >= |table| || kind !in table[fd].registered {
        return Asserted;
      }
      var slot := table[fd];
      table := table[fd := slot.(registered := slot.registered - {kind})];
      triggers := triggers + 1;
      var waiter := slot.Waiter(kind);
      if waiter.Some? {
        var _ := Schedule(waiter, None);
      }
      answer := Succeeded;
    }

    method AddEvent(fd: nat, kind: Kind, fiber: nat, willing: bool) returns (answer: Answer)
      requires |table| >= INITIAL_SLOTS
      modifies this
      ensures stopped == old(stopped) && active == old(active) && idle == old(idle)
      ensures var outcome := EventTable.AddEvent(old(View()), fd, kind, fiber, willing);
              answer == AnswerOf(outcome) && (!outcome.Aborted? ==> View() == outcome.io)
    {
      if |table| <= fd {
        Resize(fd * 3 / 2);
      }
      var slot := table[fd];
      if kind in slot.registered {
        return Asserted;
      }
      var op := if slot.registered != {} then CtlMod else CtlAdd;
      if !CtlSucceeds(epoll, op, fd, willing) {
        return Failed;
      }
      epoll := Ctl(epoll, op, fd, slot.registered + {kind});
      pending := pending + 1;
      adds := adds + 1;
      slot := slot.(registered := slot.registered + {kind});
      table := table[fd := slot.WithWaiter(kind, Some(fiber))];
      answer := Succeeded;
    }

    method DeleteEvent(fd: nat, kind: Kind, willing: bool) returns (answer: Answer)
      modifies this
      ensures stopped == old(stopped) && active == old(active) && idle == old(idle)
      ensures var outcome := EventTable.DeleteEvent(old(View()), fd, kind, willing);
              answer == AnswerOf(outcome) && View() == outcome.io
    {
      if |table| <= fd {
        return Failed;
      }
      var slot := table[fd];
      if kind !in slot.registered {
        return Failed;
      }
      var op := if slot.registered != {} then CtlMod else CtlDel;
      if !CtlSucceeds(epoll, op, fd, willing) {
        return Failed;
      }
      epoll := Ctl(epoll, op, fd, slot.registered - {kind});
      pending := pending - 1;
      deletes := deletes + 1;
      slot := slot.(registered := slot.registered - {kind});
      table := table[fd := slot.WithWaiter(kind, None)];
      answer := Succeeded;
    }

    method SettleEvent(fd: nat, kind: Kind, willing: bool) returns (answer: Answer)
      modifies this
      ensures stopped == old(stopped) && active == old(active) && idle == old(idle)
      ensures var outcome := EventTable.SettleEvent(old(View()), fd, kind, willing);
              answer == AnswerOf(outcome) && View() == outcome.io
    {
      if |table| <= fd || kind !in table[fd].registered {
        return Failed;
      }
      var op := if table[fd].registered != {} then CtlMod else CtlDel;
      if !CtlSucceeds(epoll, op, fd, willing) {
        return Failed;
      }
      epoll := Ctl(epoll, op, fd, table[fd].registered - {kind});
      answer := TriggerEvent(fd, kind);
      pending := pending - 1;
    }

    // triggerEvent and the decrement after it, where the kind is registered.
    method TriggerIfRegistered(fd: nat, kind: Kind)
      modifies this
      ensures stopped == old(stopped) && active == old(active) && idle == old(idle)
      ensures View() == TriggerIf(old(View()), fd, kind)
    {
      if fd < |table| && kind in table[fd].registered {
        var _ := TriggerEvent(fd, kind);
        pending := pending - 1;
      }
    }

    method SettleAllEvents(fd: nat, willing: bool) returns (answer: Answer)
      modifies this
      ensures stopped == old(stopped) && active == old(active) && idle == old(idle)
      ensures var outcome := EventTable.SettleAllEvents(old(View()), fd, willing);
              answer == AnswerOf(outcome) && View() == outcome.io
    {
      if |table| <= fd || table[fd].registered == {} || !CtlSucceeds(epoll, CtlDel, fd, willing) {
        return Failed;
      }
      epoll := Ctl(epoll, CtlDel, fd, {});
      TriggerIfRegistered(fd, Read);
      TriggerIfRegistered(fd, Write);
      answer := Succeeded;
    }

    // One report of epoll_wait.
    method HandleReport(report: EpollReport) returns (answer: Answer)
      requires report.fd < |table|
      modifies this
      ensures stopped == old(stopped) && active == old(active) && idle == old(idle)
      ensures var outcome := Dispatch(old(View()), report.fd, report.reported, report.failed, report.willing);
              && answer == AnswerOf(outcome)
              && (!outcome.Aborted? ==> View() == outcome.io && |table| == |old(table)|)
    {
      var fd := report.fd;
      var registered := table[fd].registered;
      var events := report.reported;
      if report.failed {
        events := events + registered;
      }
      if registered * events == {} {
        return Failed;
      }
      var left := registered - events;
      var op := if left != {} then CtlMod else CtlDel;
      if !CtlSucceeds(epoll, op, fd, report.willing) {
        return Failed;
      }
      epoll := Ctl(epoll, op, fd, left);
      if Read in events {
        if Read !in table[fd].registered {
          return Asserted;
        }
        TriggerIfRegistered(fd, Read);
      }
      assert Write in table[fd].registered <==> Write in registered;
      if Write in events {
        if Write !in table[fd].registered {
          return Asserted;
        }
        TriggerIfRegistered(fd, Write);
      }
      forall kind | kind in events
        ensures kind in registered
      {
        assert kind.Read? || kind.Write?;
      }
      answer := Succeeded;
    }

    // The loop of `idle` over the reports of one epoll_wait; false when an Assert ended the process.
    method HandleReports(reports: seq<EpollReport>) returns (alive: bool)
      modifies this
      ensures stopped == old(stopped) && active == old(active) && idle == old(idle)
      ensures var outcome := DispatchAll(old(View()), reports);
              alive == !outcome.Aborted? && (alive ==> View() == outcome.io)
    {
      var i := 0;
      while i < |reports|
        invariant 0 <= i <= |reports|
        invariant stopped == old(stopped) && active == old(active) && idle == old(idle)
        invariant DispatchAll(old(View()), reports) == DispatchAll(View(), reports[i..])
      {
        if reports[i].fd < |table| {
          var answer := HandleReport(reports[i]);
          if answer == Asserted {
            return false;
          }
        }
        i := i + 1;
      }
      alive := true;
    }
  }
}
