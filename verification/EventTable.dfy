/** The descriptor/event table of `IOManager` and its mirror in the kernel's epoll set. */
module EventTable {

  // Every function here is one region the source runs under the descriptor's own mutex; `willing` says whether the
  // kernel is prepared to carry out the epoll_ctl call, and the kernel's own rules (EEXIST, ENOENT) come on top.

  import opened Base
  import opened TaskQueue

  datatype Kind = Read | Write

  // One FileDescriptorEvent. A trigger leaves the waiter behind, so an unregistered kind may still name a fiber.
  datatype Slot = Slot(fd: nat, registered: set<Kind>, reader: Option<nat>, writer: Option<nat>)
  {
    function Waiter(kind: Kind): Option<nat> {
      if kind.Read? then reader else writer
    }

    // A registered kind names the fiber to wake.
    predicate Known() {
      (Read in registered ==> reader.Some?) && (Write in registered ==> writer.Some?)
    }

    function WithWaiter(kind: Kind, fiber: Option<nat>): Slot {
      if kind.Read? then this.(reader := fiber) else this.(writer := fiber)
    }
  }

  // `adds`, `deletes` and `triggers` only count; nothing reads them.
  datatype Io = Io(table: seq<Slot>, epoll: map<nat, set<Kind>>, pending: int, tasks: seq<Task>,
                   adds: nat, deletes: nat, triggers: nat)

  // What one call did: it succeeded, it returned false, or it hit an Assert and the process is gone.
  datatype Outcome = Done(io: Io) | Refused(io: Io) | Aborted

  const INITIAL_SLOTS: nat := 32

  function FreshSlot(fd: nat): Slot {
    Slot(fd, {}, None, None)
  }

  // vector::resize followed by filling the empty places.
  function Resized(table: seq<Slot>, size: nat): (r: seq<Slot>)
    ensures |r| == size
    ensures forall i :: 0 <= i < size && i < |table| ==> r[i] == table[i]
    ensures forall i :: |table| <= i < size ==> r[i] == FreshSlot(i)
  {
    if size <= |table| then table[..size]
    else table + seq(size - |table|, i requires 0 <= i => FreshSlot(|table| + i))
  }

  function InitIo(): Io {
    Io(Resized([], INITIAL_SLOTS), map[], 0, [], 0, 0, 0)
  }

  // --- epoll -------------------------------------------------------------------------------------------------

  datatype CtlOp = CtlAdd | CtlMod | CtlDel

  predicate CtlSucceeds(epoll: map<nat, set<Kind>>, op: CtlOp, fd: nat, willing: bool) {
    willing && (op.CtlAdd? <==> fd !in epoll)
  }

  function Ctl(epoll: map<nat, set<Kind>>, op: CtlOp, fd: nat, interest: set<Kind>): map<nat, set<Kind>> {
    if op.CtlDel? then epoll - {fd} else epoll[fd := interest]
  }

  // The interest the kernel holds for a descriptor; an absent descriptor has none.
  function Interest(epoll: map<nat, set<Kind>>, fd: nat): set<Kind> {
    if fd in epoll then epoll[fd] else {}
  }

  // --- the operations ----------------------------------------------------------------------------------------

  predicate Registered(io: Io, fd: nat, kind: Kind) {
    fd < |io.table| && kind in io.table[fd].registered
  }

  // FileDescriptorEvent::triggerEvent followed by the caller's --m_pending_event_count.
  function Trigger(io: Io, fd: nat, kind: Kind): Io
    requires Registered(io, fd, kind)
  {
    var slot := io.table[fd];
    var waiter := slot.Waiter(kind);
    io.(table := io.table[fd := slot.(registered := slot.registered - {kind})],
    tasks := if waiter.Some? then io.tasks + [Task(waiter.value, None)] else io.tasks,
    pending := io.pending - 1,
    triggers := io.triggers + 1)
  }

  function Grown(table: seq<Slot>, fd: nat): seq<Slot> {
    if |table| <= fd then Resized(table, fd * 3 / 2) else table
  }

  function AddEvent(io: Io, fd: nat, kind: Kind, fiber: nat, willing: bool): Outcome
    requires |io.table| >= INITIAL_SLOTS
  {
    var table := Grown(io.table, fd);
    var slot := table[fd];
    var op := if slot.registered != {} then CtlMod else CtlAdd;
    if kind in slot.registered then Aborted
    else if !CtlSucceeds(io.epoll, op, fd, willing) then Refused(io.(table := table))
    else
      var registered := slot.registered + {kind};
      Done(io.(table := table[fd := slot.(registered := registered).WithWaiter(kind, Some(fiber))],
           epoll := Ctl(io.epoll, op, fd, registered),
           pending := io.pending + 1,
           adds := io.adds + 1))
  }

  // The source chooses MOD unless the registration is empty, which it cannot be here.
  function DeleteEvent(io: Io, fd: nat, kind: Kind, willing: bool): Outcome {
    if !Registered(io, fd, kind) || !CtlSucceeds(io.epoll, CtlMod, fd, willing) then Refused(io)
    else
      var slot := io.table[fd];
      var left := slot.registered - {kind};
      Done(io.(table := io.table[fd := slot.(registered := left).WithWaiter(kind, None)],
           epoll := Ctl(io.epoll, CtlMod, fd, left),
           pending := io.pending - 1,
           deletes := io.deletes + 1))
  }

  function SettleEvent(io: Io, fd: nat, kind: Kind, willing: bool): Outcome {
    if !Registered(io, fd, kind) || !CtlSucceeds(io.epoll, CtlMod, fd, willing) then Refused(io)
    else
      Done(Trigger(io.(epoll := Ctl(io.epoll, CtlMod, fd, io.table[fd].registered - {kind})), fd, kind))
  }

  function TriggerIf(io: Io, fd: nat, kind: Kind): Io {
    if Registered(io, fd, kind) then Trigger(io, fd, kind) else io
  }

  // READ before WRITE, each of `kinds` that is registered.
  function TriggerAll(io: Io, fd: nat, kinds: set<Kind>): Io {
    var io1 := if Read in kinds then TriggerIf(io, fd, Read) else io;
    if Write in kinds then TriggerIf(io1, fd, Write) else io1
  }

  function SettleAllEvents(io: Io, fd: nat, willing: bool): Outcome {
    if fd >= |io.table| || io.table[fd].registered == {} || !CtlSucceeds(io.epoll, CtlDel, fd, willing) then
      Refused(io)
    else
      Done(TriggerAll(io.(epoll := Ctl(io.epoll, CtlDel, fd, {})), fd, io.table[fd].registered))
  }

  // EPOLLERR and EPOLLHUP stand for every kind that is registered.
  function RealEvents(registered: set<Kind>, reported: set<Kind>, failed: bool): set<Kind> {
    if failed then reported + registered else reported
  }

  // One report of epoll_wait, as `idle` handles it. Triggering a kind that is no longer registered asserts.
  function Dispatch(io: Io, fd: nat, reported: set<Kind>, failed: bool, willing: bool): Outcome
    requires fd < |io.table|
  {
    var registered := io.table[fd].registered;
    var actual := RealEvents(registered, reported, failed);
    var left := registered - actual;
    var op := if left != {} then CtlMod else CtlDel;
    if registered * actual == {} || !CtlSucceeds(io.epoll, op, fd, willing) then Refused(io)
    else if !(actual <= registered) then Aborted
    else Done(TriggerAll(io.(epoll := Ctl(io.epoll, op, fd, left)), fd, actual))
  }

  // The reports of one epoll_wait, handled in order until one aborts the process.
  datatype EpollReport = EpollReport(fd: nat, reported: set<Kind>, failed: bool, willing: bool)

  ghost function DispatchAll(io: Io, reports: seq<EpollReport>): Outcome
    decreases |reports|
  {
    if reports == [] then Done(io)
    else if reports[0].fd >= |io.table| then DispatchAll(io, reports[1..])
    else
      var r := Dispatch(io, reports[0].fd, reports[0].reported, reports[0].failed, reports[0].willing);
      if r.Aborted? then Aborted else DispatchAll(r.io, reports[1..])
  }

  // --- invariants --------------------------------------------------------------------------------------------

  // Number of registered bits across the table.
  function Bits(table: seq<Slot>): nat {
    if table == [] then 0 else |table[0].registered| + Bits(table[1..])
  }

  ghost predicate SlotsInPlace(io: Io) {
    |io.table| >= INITIAL_SLOTS && forall i :: 0 <= i < |io.table| ==> io.table[i].fd == i
  }

  ghost predicate Mirrors(io: Io) {
    && (forall fd: nat :: fd < |io.table| ==> Interest(io.epoll, fd) == io.table[fd].registered)
    && (forall fd: nat :: fd in io.epoll ==> fd < |io.table|)
  }

  ghost predicate Conserves(io: Io) {
    io.pending == Bits(io.table) && io.adds == io.deletes + io.triggers + Bits(io.table)
  }

  ghost predicate WaitersKnown(io: Io) {
    forall i :: 0 <= i < |io.table| ==> io.table[i].Known()
  }

  ghost predicate IoInv(io: Io) {
    SlotsInPlace(io) && Mirrors(io) && Conserves(io) && WaitersKnown(io)
  }

  lemma {:induction false} BitsUpdate(table: seq<Slot>, fd: nat, slot: Slot)
    requires fd < |table|
    ensures Bits(table[fd := slot]) == Bits(table) - |table[fd].registered| + |slot.registered|
  {
    var updated := table[fd := slot];
    if fd == 0 {
      assert updated[1..] == table[1..];
    } else {
      assert updated[1..] == table[1..][fd - 1 := slot];
      BitsUpdate(table[1..], fd - 1, slot);
    }
  }

  lemma {:induction false} BitsOfFresh(table: seq<Slot>)
    requires forall i :: 0 <= i < |table| ==> table[i].registered == {}
    ensures Bits(table) == 0
  {
    if table != [] {
      BitsOfFresh(table[1..]);
    }
  }

  lemma {:induction false} BitsConcat(a: seq<Slot>, b: seq<Slot>)
    ensures Bits(a + b) == Bits(a) + Bits(b)
  {
    if a == [] {
      assert a + b == b;
    } else {
      assert (a + b)[1..] == a[1..] + b;
      BitsConcat(a[1..], b);
    }
  }

  lemma {:induction false} BitPositive(table: seq<Slot>, fd: nat)
    requires fd < |table| && table[fd].registered != {}
    ensures Bits(table) > 0
  {
    if fd == 0 {
      assert |table[0].registered| > 0;
    } else {
      BitPositive(table[1..], fd - 1);
    }
  }

  // Growing keeps every entry where it was and adds empty ones named after their place.
  lemma GrowingKeepsInv(io: Io, fd: nat)
    requires IoInv(io)
    ensures fd < |Grown(io.table, fd)| && |io.table| <= |Grown(io.table, fd)|
    ensures forall i :: 0 <= i < |io.table| ==> Grown(io.table, fd)[i] == io.table[i]
    ensures forall i :: |io.table| <= i < |Grown(io.table, fd)| ==> Grown(io.table, fd)[i] == FreshSlot(i)
    ensures IoInv(io.(table := Grown(io.table, fd)))
  {
    var table := Grown(io.table, fd);
    assert table == io.table + table[|io.table|..];
    BitsConcat(io.table, table[|io.table|..]);
    BitsOfFresh(table[|io.table|..]);
  }

  // A trigger needs the kernel's interest to have been narrowed first; the rest of the invariant it keeps itself.
  lemma TriggerKeepsInv(io: Io, fd: nat, kind: Kind)
    requires SlotsInPlace(io) && Conserves(io) && WaitersKnown(io) && Registered(io, fd, kind)
    ensures var io' := Trigger(io, fd, kind);
            && SlotsInPlace(io') && Conserves(io') && WaitersKnown(io')
            && |io'.table| == |io.table|
            && (forall i :: 0 <= i < |io.table| && i != fd ==> io'.table[i] == io.table[i])
            && io'.table[fd].registered == io.table[fd].registered - {kind}
            && io'.epoll == io.epoll
            && io'.tasks == io.tasks + [Task(io.table[fd].Waiter(kind).value, None)]
  {
    var slot := io.table[fd].(registered := io.table[fd].registered - {kind});
    BitsUpdate(io.table, fd, slot);
  }

  // The bookkeeping of an add on an entry that is there.
  lemma AddToSlotKeepsInv(io: Io, fd: nat, kind: Kind, fiber: nat)
    requires IoInv(io) && fd < |io.table| && kind !in io.table[fd].registered
    ensures var registered := io.table[fd].registered + {kind};
            var slot := io.table[fd].(registered := registered).WithWaiter(kind, Some(fiber));
            IoInv(io.(table := io.table[fd := slot], epoll := io.epoll[fd := registered],
                  pending := io.pending + 1, adds := io.adds + 1))
  {
    var slot := io.table[fd];
    BitsUpdate(io.table, fd, slot.(registered := slot.registered + {kind}).WithWaiter(kind, Some(fiber)));
  }

  lemma AddKeepsInv(io: Io, fd: nat, kind: Kind, fiber: nat, willing: bool)
    requires IoInv(io)
    ensures var r := AddEvent(io, fd, kind, fiber, willing); !r.Aborted? ==> IoInv(r.io)
  {
    hide Grown, Bits;
    GrowingKeepsInv(io, fd);
    var grown := io.(table := Grown(io.table, fd));
    if AddEvent(io, fd, kind, fiber, willing).Done? {
      AddToSlotKeepsInv(grown, fd, kind, fiber);
    }
  }

  lemma DeleteKeepsInv(io: Io, fd: nat, kind: Kind, willing: bool)
    requires IoInv(io)
    ensures var r := DeleteEvent(io, fd, kind, willing); !r.Aborted? && IoInv(r.io)
  {
    if Registered(io, fd, kind) {
      var slot := io.table[fd];
      BitsUpdate(io.table, fd, slot.(registered := slot.registered - {kind}).WithWaiter(kind, None));
    }
  }

  lemma SettleKeepsInv(io: Io, fd: nat, kind: Kind, willing: bool)
    requires IoInv(io)
    ensures var r := SettleEvent(io, fd, kind, willing); !r.Aborted? && IoInv(r.io)
  {
    if Registered(io, fd, kind) {
      TriggerKeepsInv(io.(epoll := Ctl(io.epoll, CtlMod, fd, io.table[fd].registered - {kind})), fd, kind);
    }
  }

  lemma TriggerIfKeepsInv(io: Io, fd: nat, kind: Kind)
    requires SlotsInPlace(io) && Conserves(io) && WaitersKnown(io) && fd < |io.table|
    ensures var io' := TriggerIf(io, fd, kind);
            && SlotsInPlace(io') && Conserves(io') && WaitersKnown(io')
            && |io'.table| == |io.table|
            && (forall i :: 0 <= i < |io.table| && i != fd ==> io'.table[i] == io.table[i])
            && io'.table[fd].registered == io.table[fd].registered - {kind}
            && io'.epoll == io.epoll
  {
    if Registered(io, fd, kind) {
      TriggerKeepsInv(io, fd, kind);
    }
  }

  // The triggers of one report leave exactly the kinds outside it registered.
  lemma TriggerAllKeepsInv(io: Io, fd: nat, kinds: set<Kind>)
    requires SlotsInPlace(io) && Conserves(io) && WaitersKnown(io) && fd < |io.table|
    ensures var io' := TriggerAll(io, fd, kinds);
            && SlotsInPlace(io') && Conserves(io') && WaitersKnown(io')
            && |io'.table| == |io.table|
            && (forall i :: 0 <= i < |io.table| && i != fd ==> io'.table[i] == io.table[i])
            && io'.table[fd].registered == io.table[fd].registered - kinds
            && io'.epoll == io.epoll
  {
    TriggerIfKeepsInv(io, fd, Read);
    var io1 := if Read in kinds then TriggerIf(io, fd, Read) else io;
    TriggerIfKeepsInv(io1, fd, Write);
    var io2 := if Write in kinds then TriggerIf(io1, fd, Write) else io1;
    forall kind
      ensures kind in io2.table[fd].registered <==> kind in io.table[fd].registered - kinds
    {
      assert kind.Read? || kind.Write?;
    }
  }

  // A narrowed kernel interest and the matching registration mirror each other again.
  lemma Remirrors(io: Io, io': Io, op: CtlOp, fd: nat, left: set<Kind>)
    requires Mirrors(io) && fd < |io.table| && |io'.table| == |io.table|
    requires forall i :: 0 <= i < |io.table| && i != fd ==> io'.table[i] == io.table[i]
    requires io'.table[fd].registered == left && (op.CtlDel? ==> left == {})
    requires io'.epoll == Ctl(io.epoll, op, fd, left)
    ensures Mirrors(io')
  {
  }

  lemma SettleAllKeepsInv(io: Io, fd: nat, willing: bool)
    requires IoInv(io)
    ensures var r := SettleAllEvents(io, fd, willing); !r.Aborted? && IoInv(r.io)
    ensures SettleAllEvents(io, fd, willing).Done? ==>
              SettleAllEvents(io, fd, willing).io.table[fd].registered == {}
  {
    var r := SettleAllEvents(io, fd, willing);
    if r.Done? {
      TriggerAllKeepsInv(io.(epoll := Ctl(io.epoll, CtlDel, fd, {})), fd, io.table[fd].registered);
      Remirrors(io, r.io, CtlDel, fd, {});
    }
  }

  lemma DispatchKeepsInv(io: Io, fd: nat, reported: set<Kind>, failed: bool, willing: bool)
    requires IoInv(io) && fd < |io.table|
    ensures var r := Dispatch(io, fd, reported, failed, willing); !r.Aborted? ==> IoInv(r.io)
  {
    var r := Dispatch(io, fd, reported, failed, willing);
    if r.Done? {
      var actual := RealEvents(io.table[fd].registered, reported, failed);
      var left := io.table[fd].registered - actual;
      var op := if left != {} then CtlMod else CtlDel;
      TriggerAllKeepsInv(io.(epoll := Ctl(io.epoll, op, fd, left)), fd, actual);
      Remirrors(io, r.io, op, fd, left);
    }
  }

  lemma InitIoInv()
    ensures IoInv(InitIo())
  {
    BitsOfFresh(InitIo().table);
  }

  // --- what the source's choice of MOD costs -----------------------------------------------------------------

  // With a willing kernel, addEvent on an idle descriptor succeeds exactly when the kernel does not know it yet.
  lemma AddOnIdleDescriptor(io: Io, fd: nat, kind: Kind, fiber: nat)
    requires IoInv(io)
    requires fd < |io.table| ==> io.table[fd].registered == {}
    ensures AddEvent(io, fd, kind, fiber, true).Done? <==> fd !in io.epoll
    ensures AddEvent(io, fd, kind, fiber, true).Refused? <==> fd in io.epoll
  {
    GrowingKeepsInv(io, fd);
  }

  // Settling or deleting the last event of a descriptor leaves it in epoll with no interest, so no later addEvent
  // on it can succeed until the descriptor is closed; dispatch and settle-all remove it and so do not.
  lemma AddAfterLastSettleFails(io: Io, fd: nat, kind: Kind, later: Kind, fiber: nat, willing: bool)
    requires IoInv(io) && Registered(io, fd, kind) && io.table[fd].registered == {kind}
    ensures var r := SettleEvent(io, fd, kind, true);
            r.Done? && AddEvent(r.io, fd, later, fiber, willing).Refused?
    ensures var r := DeleteEvent(io, fd, kind, true);
            r.Done? && AddEvent(r.io, fd, later, fiber, willing).Refused?
    ensures var r := SettleAllEvents(io, fd, true);
            r.Done? && AddEvent(r.io, fd, later, fiber, true).Done?
    ensures var r := Dispatch(io, fd, {kind}, false, true);
            r.Done? && AddEvent(r.io, fd, later, fiber, true).Done?
  {
    SettleKeepsInv(io, fd, kind, true);
    DeleteKeepsInv(io, fd, kind, true);
    SettleAllKeepsInv(io, fd, true);
    DispatchKeepsInv(io, fd, {kind}, false, true);
    assert io.table[fd].registered - {kind} == {};
  }

  // --- what each operation does, in the fields alone -----------------------------------------------------------

  // Everything about the other descriptors is as it was.
  ghost predicate OthersKept(io: Io, io': Io, fd: nat) {
    && |io.table| <= |io'.table|
    && (forall i :: 0 <= i < |io.table| && i != fd ==> io'.table[i] == io.table[i])
    && (forall i :: |io.table| <= i < |io'.table| && i != fd ==> io'.table[i] == Slot(i, {}, None, None))
    && (forall other: nat :: other != fd ==>
                               && (other in io'.epoll <==> other in io.epoll)
                               && (other in io.epoll ==> io'.epoll[other] == io.epoll[other]))
  }

  // An add succeeds exactly for an event that is not registered, on a descriptor that has another event or that epoll
  // does not hold; then the event is registered for its fiber. It asserts exactly when the event is registered.
  lemma AddResult(io: Io, fd: nat, kind: Kind, fiber: nat, willing: bool)
    requires IoInv(io)
    ensures var r := AddEvent(io, fd, kind, fiber, willing);
            var before := if fd < |io.table| then io.table[fd] else Slot(fd, {}, None, None);
            && (r.Aborted? <==> kind in before.registered)
            && (r.Done? <==> kind !in before.registered && willing && (before.registered != {} || fd !in io.epoll))
            && (!r.Aborted? ==>
                  && OthersKept(io, r.io, fd) && r.io.tasks == io.tasks
                  && |r.io.table| == if fd < |io.table| then |io.table| else fd * 3 / 2)
            && (r.Refused? ==> r.io.table[fd] == before && r.io.epoll == io.epoll && r.io.pending == io.pending)
            && (r.Done? ==>
                  && r.io.table[fd].registered == before.registered + {kind} && r.io.pending == io.pending + 1
                  && fd in r.io.epoll && r.io.epoll[fd] == before.registered + {kind}
                  && r.io.table[fd].reader == (if kind.Read? then Some(fiber) else before.reader)
                  && r.io.table[fd].writer == (if kind.Read? then before.writer else Some(fiber)))
  {
    GrowingKeepsInv(io, fd);
  }

  // A delete succeeds exactly for a registered event when the kernel is willing; nobody is scheduled.
  lemma DeleteResult(io: Io, fd: nat, kind: Kind, willing: bool)
    requires IoInv(io)
    ensures var r := DeleteEvent(io, fd, kind, willing);
            && (r.Done? <==> willing && fd < |io.table| && kind in io.table[fd].registered)
            && (!r.Done? ==> r == Refused(io))
            && (r.Done? ==>
                  && OthersKept(io, r.io, fd) && |r.io.table| == |io.table| && r.io.tasks == io.tasks
                  && r.io.table[fd].registered == io.table[fd].registered - {kind} && r.io.pending == io.pending - 1
                  && fd in r.io.epoll && r.io.epoll[fd] == io.table[fd].registered - {kind}
                  && r.io.table[fd].reader == (if kind.Read? then None else io.table[fd].reader)
                  && r.io.table[fd].writer == (if kind.Read? then io.table[fd].writer else None))
  {
  }

  lemma KindsOf(kinds: set<Kind>)
    ensures kinds == (if Read in kinds then {Read} else {}) + (if Write in kinds then {Write} else {})
  {
    forall kind | kind in kinds
      ensures kind in {Read, Write}
    {
      assert kind.Read? || kind.Write?;
    }
  }

  // The triggers of some kinds schedule the reader and then the writer, each if its event is registered and among them.
  lemma TriggerAllTasks(io: Io, fd: nat, kinds: set<Kind>)
    requires WaitersKnown(io) && fd < |io.table|
    ensures var io', slot := TriggerAll(io, fd, kinds), io.table[fd];
            && io'.tasks == io.tasks
                            + (if Read in kinds && Read in slot.registered then [Task(slot.reader.value, None)] else [])
                            + (if Write in kinds && Write in slot.registered then [Task(slot.writer.value, None)]
                               else [])
            && |io'.table| == |io.table| && io'.epoll == io.epoll
            && io'.table[fd].reader == slot.reader && io'.table[fd].writer == slot.writer
            && io'.table[fd].registered == slot.registered - kinds
            && (forall i :: 0 <= i < |io.table| && i != fd ==> io'.table[i] == io.table[i])
            && io'.pending == io.pending - |slot.registered * kinds|
  {
    var slot := io.table[fd];
    assert slot.Known();
    KindsOf(slot.registered * kinds);
    TriggerAllRegistered(io, fd, kinds);
  }

  lemma TriggerAllRegistered(io: Io, fd: nat, kinds: set<Kind>)
    requires fd < |io.table|
    ensures TriggerAll(io, fd, kinds).table[fd].registered == io.table[fd].registered - kinds
  {
    forall kind
      ensures kind in TriggerAll(io, fd, kinds).table[fd].registered <==> kind in io.table[fd].registered - kinds
    {
      assert kind.Read? || kind.Write?;
    }
  }

  // A settle succeeds exactly for a registered event when the kernel is willing, and schedules its fiber.
  lemma SettleResult(io: Io, fd: nat, kind: Kind, willing: bool)
    requires IoInv(io)
    ensures var r := SettleEvent(io, fd, kind, willing);
            && (r.Done? <==> willing && fd < |io.table| && kind in io.table[fd].registered)
            && (!r.Done? ==> r == Refused(io))
            && (r.Done? ==>
                  && OthersKept(io, r.io, fd) && |r.io.table| == |io.table|
                  && r.io.table[fd] == io.table[fd].(registered := io.table[fd].registered - {kind})
                  && fd in r.io.epoll && r.io.epoll[fd] == io.table[fd].registered - {kind}
                  && r.io.pending == io.pending - 1
                  && var waiter := if kind.Read? then io.table[fd].reader else io.table[fd].writer;
                     waiter.Some? && r.io.tasks == io.tasks + [Task(waiter.value, None)])
  {
    if fd < |io.table| {
      assert io.table[fd].Known();
      assert kind.Read? || kind.Write?;
    }
  }

  // Settling everything succeeds exactly when something is registered and the kernel is willing; then the reader and
  // the writer are scheduled in that order, and epoll lets go of the descriptor.
  lemma SettleAllResult(io: Io, fd: nat, willing: bool)
    requires IoInv(io)
    ensures var r := SettleAllEvents(io, fd, willing);
            && (r.Done? <==> willing && fd < |io.table| && io.table[fd].registered != {})
            && (!r.Done? ==> r == Refused(io))
            && (r.Done? ==>
                  var slot := io.table[fd];
                  && OthersKept(io, r.io, fd) && |r.io.table| == |io.table|
                  && r.io.table[fd].registered == {} && fd !in r.io.epoll
                  && r.io.pending == io.pending - |slot.registered|
                  && r.io.tasks == io.tasks
                                   + (if Read in slot.registered then [Task(slot.reader.value, None)] else [])
                                   + (if Write in slot.registered then [Task(slot.writer.value, None)] else []))
  {
    hide TriggerAll, Bits;
    if SettleAllEvents(io, fd, willing).Done? {
      var slot := io.table[fd];
      TriggerAllTasks(io.(epoll := Ctl(io.epoll, CtlDel, fd, {})), fd, slot.registered);
      assert slot.registered * slot.registered == slot.registered;
    }
  }

  // One report: with EPOLLERR or EPOLLHUP it stands for every registered event, otherwise for the ones it names. It
  // asserts exactly when one of those is registered and one it names is not; it does nothing when none is registered
  // or the kernel is not willing; else they are no longer registered, epoll keeps the rest or lets go of the
  // descriptor, and the reader and the writer are scheduled in that order.
  lemma ReportResult(io: Io, fd: nat, reported: set<Kind>, failed: bool, willing: bool)
    requires IoInv(io) && fd < |io.table|
    ensures var r, slot := Dispatch(io, fd, reported, failed, willing), io.table[fd];
            var hit := if failed then slot.registered else reported * slot.registered;
            && (r.Aborted? <==> willing && hit != {} && !(reported <= slot.registered))
            && (r.Done? <==> willing && hit != {} && reported <= slot.registered)
            && (r.Refused? ==> r == Refused(io))
            && (r.Done? ==>
                  && OthersKept(io, r.io, fd) && |r.io.table| == |io.table|
                  && r.io.table[fd].registered == slot.registered - hit
                  && (if hit == slot.registered then fd !in r.io.epoll
                      else fd in r.io.epoll && r.io.epoll[fd] == slot.registered - hit)
                  && r.io.pending == io.pending - |hit|
                  && r.io.tasks == io.tasks
                                   + (if Read in hit then [Task(slot.reader.value, None)] else [])
                                   + (if Write in hit then [Task(slot.writer.value, None)] else []))
  {
    hide TriggerAll, Bits;
    var slot := io.table[fd];
    var actual := RealEvents(slot.registered, reported, failed);
    var hit := if failed then slot.registered else reported * slot.registered;
    assert slot.registered * actual == hit;
    assert actual <= slot.registered <==> reported <= slot.registered;
    assert slot.registered - actual == slot.registered - hit;
    assert slot.registered == hit + (slot.registered - hit) && hit <= slot.registered;
    if Dispatch(io, fd, reported, failed, willing).Done? {
      var left := slot.registered - actual;
      TriggerAllTasks(io.(epoll := Ctl(io.epoll, if left != {} then CtlMod else CtlDel, fd, left)), fd, actual);
    }
  }

  // A batch of reports is handled one after the other, those for descriptors outside the table left alone.
  lemma {:induction false} BatchResult(io: Io, reports: seq<EpollReport>, last: EpollReport)
    ensures DispatchAll(io, []) == Done(io)
    ensures var before := DispatchAll(io, reports);
            DispatchAll(io, reports + [last]) ==
            if before.Aborted? then Aborted
            else if last.fd >= |before.io.table| then before
            else
              var r := Dispatch(before.io, last.fd, last.reported, last.failed, last.willing);
              if r.Aborted? then Aborted else Done(r.io)
    decreases |reports|
  {
    hide Dispatch;
    if reports == [] {
      assert [last][1..] == [];
    } else {
      var all := reports + [last];
      assert all[0] == reports[0] && all[1..] == reports[1..] + [last];
      if reports[0].fd >= |io.table| {
        BatchResult(io, reports[1..], last);
      } else {
        var r := Dispatch(io, reports[0].fd, reports[0].reported, reports[0].failed, reports[0].willing);
        if !r.Aborted? {
          BatchResult(r.io, reports[1..], last);
        }
      }
    }
  }

  // Dispatch aborts the process exactly when a report outlived part of the registration it was made for.
  lemma DispatchAbortsIff(io: Io, fd: nat, reported: set<Kind>, failed: bool)
    requires IoInv(io) && fd < |io.table|
    ensures Dispatch(io, fd, reported, failed, true).Aborted? <==>
            !(reported <= io.table[fd].registered) &&
            if failed then io.table[fd].registered != {} else reported * io.table[fd].registered != {}
  {
    var registered := io.table[fd].registered;
    var actual := RealEvents(registered, reported, failed);
    assert registered * actual == actual * registered;
    assert actual <= registered <==> reported <= registered;
  }
}
