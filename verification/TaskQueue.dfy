/** The scheduler's task list: what `Scheduler::run` takes from it, and what happens to each task over a whole run. */
module TaskQueue {

  import opened Base

  // A queued fiber; `pin` is the thread in charge of it, None standing for -1.
  datatype Task = Task(fiber: nat, pin: Option<nat>)

  predicate PinnedElsewhere(task: Task, thread: nat) {
    task.pin.Some? && task.pin.value != thread
  }

  // `busy` is the set of fibers in state EXECUTE.
  predicate Eligible(task: Task, thread: nat, busy: set<nat>) {
    !PinnedElsewhere(task, thread) && task.fiber !in busy
  }

  ghost predicate NoneEligible(tasks: seq<Task>, thread: nat, busy: set<nat>) {
    forall j | 0 <= j < |tasks| :: !Eligible(tasks[j], thread, busy)
  }

  ghost predicate FirstEligible(tasks: seq<Task>, thread: nat, busy: set<nat>, i: nat) {
    && i < |tasks|
    && Eligible(tasks[i], thread, busy)
    && forall j | 0 <= j < i :: !Eligible(tasks[j], thread, busy)
  }

  function Without(tasks: seq<Task>, i: nat): (rest: seq<Task>)
    requires i < |tasks|
  {
    tasks[..i] + tasks[i + 1..]
  }

  // How many entries name the fiber.
  function Count(tasks: seq<Task>, fiber: nat): nat {
    if tasks == [] then 0
    else (if tasks[0].fiber == fiber then 1 else 0) + Count(tasks[1..], fiber)
  }

  lemma {:induction false} CountConcat(a: seq<Task>, b: seq<Task>, fiber: nat)
    ensures Count(a + b, fiber) == Count(a, fiber) + Count(b, fiber)
  {
    if a == [] {
      assert a + b == b;
    } else {
      assert (a + b)[1..] == a[1..] + b;
      CountConcat(a[1..], b, fiber);
    }
  }

  lemma CountPush(tasks: seq<Task>, task: Task)
    ensures forall f: nat :: Count(tasks + [task], f) == Count(tasks, f) + (if f == task.fiber then 1 else 0)
  {
    forall f: nat
      ensures Count(tasks + [task], f) == Count(tasks, f) + (if f == task.fiber then 1 else 0)
    {
      CountConcat(tasks, [task], f);
    }
  }

  lemma CountWithout(tasks: seq<Task>, i: nat)
    requires i < |tasks|
    ensures forall f: nat ::
              Count(tasks, f) == Count(Without(tasks, i), f) + (if f == tasks[i].fiber then 1 else 0)
  {
    forall f: nat
      ensures Count(tasks, f) == Count(Without(tasks, i), f) + (if f == tasks[i].fiber then 1 else 0)
    {
      assert tasks == tasks[..i] + ([tasks[i]] + tasks[i + 1..]);
      CountConcat(tasks[..i], [tasks[i]] + tasks[i + 1..], f);
      CountConcat([tasks[i]], tasks[i + 1..], f);
      CountConcat(tasks[..i], tasks[i + 1..], f);
    }
  }

  // --- the scan ----------------------------------------------------------------------------------------------

  // The index of the task `run` takes, if any.
  function Scan(tasks: seq<Task>, thread: nat, busy: set<nat>): (index: Option<nat>)
    ensures forall i: nat :: FirstEligible(tasks, thread, busy, i) <==> index == Some(i)
    ensures index.None? <==> NoneEligible(tasks, thread, busy)
  {
    if tasks == [] then None
    else if Eligible(tasks[0], thread, busy) then Some(0)
    else
      var rest := Scan(tasks[1..], thread, busy);
      assert forall i: nat :: FirstEligible(tasks, thread, busy, i + 1) <==> FirstEligible(tasks[1..], thread, busy, i);
      if rest.None? then None else Some(rest.value + 1)
  }

  // In the fields alone: the first task that is unpinned or pinned to this thread and whose fiber is not running.
  lemma ScanTakes(tasks: seq<Task>, thread: nat, busy: set<nat>)
    ensures forall i :: 0 <= i ==>
                          (Scan(tasks, thread, busy) == Some(i) <==>
                           && i < |tasks|
                           && (tasks[i].pin == None || tasks[i].pin == Some(thread)) && tasks[i].fiber !in busy
                           && forall j :: 0 <= j < i ==>
                                            !((tasks[j].pin == None || tasks[j].pin == Some(thread)) &&
                                              tasks[j].fiber !in busy))
    ensures Scan(tasks, thread, busy) == None <==>
            forall j :: 0 <= j < |tasks| ==>
                          (tasks[j].pin != None && tasks[j].pin != Some(thread)) || tasks[j].fiber in busy
  {
    forall i: nat
      ensures FirstEligible(tasks, thread, busy, i) <==> Scan(tasks, thread, busy) == Some(i)
    {
    }
    assert forall j :: 0 <= j < |tasks| ==>
                         (Eligible(tasks[j], thread, busy) <==>
                          (tasks[j].pin == None || tasks[j].pin == Some(thread)) && tasks[j].fiber !in busy);
  }

  // --- takes with no swapIn in between -----------------------------------------------------------------------

  // What the threads take one after the other while the set of running fibers stays as it is.
  function Grabs(tasks: seq<Task>, threads: seq<nat>, busy: set<nat>): (taken: seq<Task>)
    decreases |threads|
  {
    if threads == [] then []
    else
      var index := Scan(tasks, threads[0], busy);
      if index.None? then Grabs(tasks, threads[1..], busy)
      else
        assert FirstEligible(tasks, threads[0], busy, index.value);
        [tasks[index.value]] + Grabs(Without(tasks, index.value), threads[1..], busy)
  }

  lemma {:induction false} GrabsAreQueued(tasks: seq<Task>, threads: seq<nat>, busy: set<nat>, fiber: nat)
    ensures Count(Grabs(tasks, threads, busy), fiber) <= Count(tasks, fiber)
    decreases |threads|
  {
    if threads != [] {
      var index := Scan(tasks, threads[0], busy);
      if index.None? {
        GrabsAreQueued(tasks, threads[1..], busy, fiber);
      } else {
        assert FirstEligible(tasks, threads[0], busy, index.value);
        var rest := Without(tasks, index.value);
        GrabsAreQueued(rest, threads[1..], busy, fiber);
        CountWithout(tasks, index.value);
        CountConcat([tasks[index.value]], Grabs(rest, threads[1..], busy), fiber);
      }
    }
  }

  lemma {:induction false} CountFinds(tasks: seq<Task>, fiber: nat) returns (i: nat)
    requires Count(tasks, fiber) > 0
    ensures i < |tasks| && tasks[i].fiber == fiber
  {
    if tasks[0].fiber == fiber {
      i := 0;
    } else {
      i := CountFinds(tasks[1..], fiber);
      i := i + 1;
    }
  }

  predicate Unpinned(tasks: seq<Task>, fiber: nat) {
    forall i :: 0 <= i < |tasks| && tasks[i].fiber == fiber ==> tasks[i].pin.None?
  }

  // As many threads as there are tasks take every entry of a fiber that is not running.
  lemma {:induction false} EnoughThreads(tasks: seq<Task>, threads: seq<nat>, busy: set<nat>, fiber: nat)
    requires fiber !in busy && Unpinned(tasks, fiber) && |threads| >= |tasks|
    ensures Count(Grabs(tasks, threads, busy), fiber) == Count(tasks, fiber)
    decreases |threads|
  {
    if Count(tasks, fiber) == 0 {
      GrabsAreQueued(tasks, threads, busy, fiber);
    } else {
      var i := CountFinds(tasks, fiber);
      assert Eligible(tasks[i], threads[0], busy);
      var index := Scan(tasks, threads[0], busy).value;
      assert FirstEligible(tasks, threads[0], busy, index);
      var rest := Without(tasks, index);
      EnoughThreads(rest, threads[1..], busy, fiber);
      CountWithout(tasks, index);
      CountConcat([tasks[index]], Grabs(rest, threads[1..], busy), fiber);
    }
  }

  predicate Distinct(threads: seq<nat>) {
    forall i, j :: 0 <= i < j < |threads| ==> threads[i] != threads[j]
  }

  // Several threads can take one fiber, each before any of them swaps it in, exactly when it is queued that often.
  lemma TakenTogetherIff(tasks: seq<Task>, busy: set<nat>, fiber: nat, n: nat)
    requires fiber !in busy && Unpinned(tasks, fiber)
    ensures (exists threads :: Distinct(threads) && Count(Grabs(tasks, threads, busy), fiber) >= n) <==>
            Count(tasks, fiber) >= n
  {
    var everybody: seq<nat> := seq(|tasks|, i => i);
    EnoughThreads(tasks, everybody, busy, fiber);
    assert Distinct(everybody);
    forall threads
      ensures Count(Grabs(tasks, threads, busy), fiber) <= Count(tasks, fiber)
    {
      GrabsAreQueued(tasks, threads, busy, fiber);
    }
  }

  // --- what becomes of every task over a whole run -------------------------------------------------------------

  // Tickets number the tasks in the order they were scheduled; the source has no such number.
  datatype Entry = Entry(ticket: nat, task: Task)

  datatype Taken = Taken(ticket: nat, task: Task, thread: nat)

  datatype Ledger = Ledger(queue: seq<Entry>, issued: nat, taken: seq<Taken>)

  datatype QueueOp = Push(task: Task) | TakeBy(thread: nat, busy: set<nat>)

  function Tasks(queue: seq<Entry>): (tasks: seq<Task>)
    ensures |tasks| == |queue| && forall i :: 0 <= i < |queue| ==> tasks[i] == queue[i].task
  {
    seq(|queue|, i requires 0 <= i < |queue| => queue[i].task)
  }

  function Do(l: Ledger, op: QueueOp): Ledger {
    match op
    case Push(task) => l.(queue := l.queue + [Entry(l.issued, task)], issued := l.issued + 1)
    case TakeBy(thread, busy) =>
      var index := Scan(Tasks(l.queue), thread, busy);
      if index.None? then l
      else
        var entry := l.queue[index.value];
        l.(queue := l.queue[..index.value] + l.queue[index.value + 1..],
        taken := l.taken + [Taken(entry.ticket, entry.task, thread)])
  }

  function DoAll(ops: seq<QueueOp>): Ledger {
    if ops == [] then Ledger([], 0, []) else Do(DoAll(ops[..|ops| - 1]), ops[|ops| - 1])
  }

  // The tasks a run schedules, in order.
  function Pushed(ops: seq<QueueOp>): seq<Task> {
    if ops == [] then []
    else Pushed(ops[..|ops| - 1]) + if ops[|ops| - 1].Push? then [ops[|ops| - 1].task] else []
  }

  // How often a ticket occurs among queued entries, and among taken ones.
  function InQueue(queue: seq<Entry>, ticket: nat): nat {
    if queue == [] then 0 else (if queue[0].ticket == ticket then 1 else 0) + InQueue(queue[1..], ticket)
  }

  function InTaken(taken: seq<Taken>, ticket: nat): nat {
    if taken == [] then 0 else (if taken[0].ticket == ticket then 1 else 0) + InTaken(taken[1..], ticket)
  }

  lemma {:induction false} InQueueConcat(a: seq<Entry>, b: seq<Entry>, ticket: nat)
    ensures InQueue(a + b, ticket) == InQueue(a, ticket) + InQueue(b, ticket)
  {
    if a == [] {
      assert a + b == b;
    } else {
      assert (a + b)[1..] == a[1..] + b;
      InQueueConcat(a[1..], b, ticket);
    }
  }

  lemma {:induction false} InTakenConcat(a: seq<Taken>, b: seq<Taken>, ticket: nat)
    ensures InTaken(a + b, ticket) == InTaken(a, ticket) + InTaken(b, ticket)
  {
    if a == [] {
      assert a + b == b;
    } else {
      assert (a + b)[1..] == a[1..] + b;
      InTakenConcat(a[1..], b, ticket);
    }
  }

  ghost predicate Balanced(l: Ledger, pushed: seq<Task>) {
    && |pushed| == l.issued
    && (forall i :: 0 <= i < |l.queue| ==> l.queue[i].ticket < l.issued && l.queue[i].task == pushed[l.queue[i].ticket])
    && (forall i, j :: 0 <= i < j < |l.queue| ==> l.queue[i].ticket < l.queue[j].ticket)
    && (forall i :: 0 <= i < |l.taken| ==>
                      && l.taken[i].ticket < l.issued && l.taken[i].task == pushed[l.taken[i].ticket]
                      && !PinnedElsewhere(l.taken[i].task, l.taken[i].thread))
    && (forall t: nat :: InQueue(l.queue, t) + InTaken(l.taken, t) == if t < l.issued then 1 else 0)
  }

  lemma RemovalCounts(queue: seq<Entry>, i: nat)
    requires i < |queue|
    ensures forall t: nat :: InQueue(queue, t) ==
                             InQueue(queue[..i] + queue[i + 1..], t) + (if t == queue[i].ticket then 1 else 0)
  {
    assert queue == queue[..i] + ([queue[i]] + queue[i + 1..]);
    forall t: nat
      ensures InQueue(queue, t) ==
              InQueue(queue[..i] + queue[i + 1..], t) + (if t == queue[i].ticket then 1 else 0)
    {
      InQueueConcat(queue[..i], [queue[i]] + queue[i + 1..], t);
      InQueueConcat([queue[i]], queue[i + 1..], t);
      InQueueConcat(queue[..i], queue[i + 1..], t);
    }
  }

  lemma InTakenLast(taken: seq<Taken>, last: Taken, t: nat)
    ensures InTaken(taken + [last], t) == InTaken(taken, t) + (if t == last.ticket then 1 else 0)
  {
    InTakenConcat(taken, [last], t);
  }

  lemma RemovalBalances(l: Ledger, pushed: seq<Task>, i: nat, thread: nat)
    requires Balanced(l, pushed) && i < |l.queue| && !PinnedElsewhere(l.queue[i].task, thread)
    ensures Balanced(l.(queue := l.queue[..i] + l.queue[i + 1..],
                     taken := l.taken + [Taken(l.queue[i].ticket, l.queue[i].task, thread)]), pushed)
  {
    hide InQueue, InTaken;
    var entry := l.queue[i];
    RemovalCounts(l.queue, i);
    forall t: nat
      ensures InQueue(l.queue, t) == InQueue(l.queue[..i] + l.queue[i + 1..], t) + (if t == entry.ticket then 1 else 0)
      ensures InTaken(l.taken + [Taken(entry.ticket, entry.task, thread)], t) ==
              InTaken(l.taken, t) + (if t == entry.ticket then 1 else 0)
    {
      InTakenLast(l.taken, Taken(entry.ticket, entry.task, thread), t);
    }
  }

  lemma TakeBalances(l: Ledger, pushed: seq<Task>, thread: nat, busy: set<nat>)
    requires Balanced(l, pushed)
    ensures Balanced(Do(l, TakeBy(thread, busy)), pushed)
  {
    var index := Scan(Tasks(l.queue), thread, busy);
    if index.Some? {
      assert FirstEligible(Tasks(l.queue), thread, busy, index.value);
      RemovalBalances(l, pushed, index.value, thread);
    }
  }

  lemma PushBalances(l: Ledger, pushed: seq<Task>, task: Task)
    requires Balanced(l, pushed)
    ensures Balanced(Do(l, Push(task)), pushed + [task])
  {
    forall t: nat
      ensures InQueue(l.queue + [Entry(l.issued, task)], t) == InQueue(l.queue, t) + (if t == l.issued then 1 else 0)
    {
      InQueueConcat(l.queue, [Entry(l.issued, task)], t);
    }
  }

  // Over every run each scheduled task is in exactly one place exactly once, with its own fiber and pin: still queued,
  // in the order of scheduling, or taken once by a thread it may run on.
  lemma {:induction false} NoTaskLostOrDoubled(ops: seq<QueueOp>)
    ensures Balanced(DoAll(ops), Pushed(ops))
  {
    if ops != [] {
      var before := ops[..|ops| - 1];
      NoTaskLostOrDoubled(before);
      match ops[|ops| - 1]
      case Push(task) => PushBalances(DoAll(before), Pushed(before), task);
      case TakeBy(thread, busy) =>
        assert Pushed(ops) == Pushed(before);
        TakeBalances(DoAll(before), Pushed(before), thread, busy);
    }
  }
}
