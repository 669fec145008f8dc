/**
 How fibers, event slots, queue entries, calls and timers of the runtime fit together in every reachable state:
 the invariant, and one lemma per step that keeps it.
 */
module Weave {

  import opened Base
  import opened TaskQueue
  import opened Fibers
  import opened EventTable
  import opened Runtime

  // The fiber is the one to be woken by the event, and the event is registered.
  predicate Bit(s: State, f: nat, fd: nat, kind: Kind) {
    Registered(s.io, fd, kind) && s.io.table[fd].Waiter(kind) == Some(f)
  }

  function Queued(s: State, f: nat): nat {
    Count(s.io.tasks, f)
  }

  predicate OwnCall(s: State, f: nat, c: nat) {
    c < |s.calls| && s.calls[c].fiber == f && s.calls[c].result.None?
  }

  // A call whose event nobody has deleted.
  predicate Keeps(s: State, f: nat, c: nat) {
    OwnCall(s, f, c) && !s.calls[c].abandoned
  }

  predicate TimerOf(s: State, c: nat, timer: Option<nat>) {
    timer.Some? ==> timer.value < |s.timers| && s.timers[timer.value].callback == TimeoutOf(c)
  }

  // A fiber waiting in a hooked call has its event registered or one queue entry, never both; only a deleted event
  // leaves it with neither.
  predicate Waits(s: State, f: nat, c: nat)
    requires c < |s.calls|
  {
    var call := s.calls[c];
    if Bit(s, f, call.fd, call.kind) then !call.abandoned && Queued(s, f) == 0
    else Queued(s, f) == if call.abandoned then 0 else 1
  }

  // A sleeping fiber's timer is under way, or has run and left one queue entry.
  predicate Sleeps(s: State, f: nat, t: nat) {
    && t < |s.timers| && s.timers[t].callback == WakeFiber(f) && !s.timers[t].place.Cancelled?
    && Queued(s, f) == if s.timers[t].place.Spent? then 1 else 0
  }

  predicate Carries(s: State, f: nat, t: nat) {
    t < |s.timers| && s.timers[t].place == Held(f) && !s.timers[t].callback.UserCallback?
  }

  predicate FiberOk(s: State, f: nat)
    requires f < |s.fibers|
  {
    var state := s.fibers[f].state;
    var queued := Queued(s, f);
    match s.fibers[f].local
    case Start => state.Initialize? && queued == 1
    case User => (state.Execute? && queued == 0) || (state.Ready? && queued == 1)
    case IoTop(c) => state.Execute? && queued == 0 && Keeps(s, f, c)
    case IoArmed(c, t) => state.Execute? && queued == 0 && Keeps(s, f, c) && TimerOf(s, c, t)
    case IoRefused(c, t) => state.Execute? && queued == 0 && Keeps(s, f, c) && TimerOf(s, c, t)
    case IoRegistered(c, t) => state.Execute? && OwnCall(s, f, c) && TimerOf(s, c, t) && Waits(s, f, c)
    case IoParked(c, t) => state.Hold? && OwnCall(s, f, c) && TimerOf(s, c, t) && Waits(s, f, c)
    case IoWoken(c, t) => state.Execute? && queued == 0 && Keeps(s, f, c) && TimerOf(s, c, t)
    case IoChecked(c) => state.Execute? && queued == 0 && Keeps(s, f, c)
    case SleepArmed(t) => state.Execute? && Sleeps(s, f, t)
    case SleepParked(t) => state.Hold? && Sleeps(s, f, t)
    case EventWait(fd, kind) => state.Initialize? && queued == if Bit(s, f, fd, kind) then 0 else 1
    case CallbackStart(t) =>
      Carries(s, f, t) && ((state.Initialize? && queued == 1) || (state.Execute? && queued == 0))
    case CallbackLocked(t) =>
      Carries(s, f, t) && state.Execute? && queued == 0 && s.timers[t].callback.TimeoutOf?
    case CallbackDone => state.Execute? && queued == 0
    case SelfHeld => state.Hold? && queued <= 1
    case Dropped => state.Initialize? && queued == 0
    case Over => Dead(state)
  }

  // The place in its code from which a fiber may be the waiter of a registered event.
  predicate WaitsFor(s: State, f: nat, fd: nat, kind: Kind)
    requires f < |s.fibers|
  {
    match s.fibers[f].local
    case IoRegistered(c, _) => c < |s.calls| && s.calls[c].fd == fd && s.calls[c].kind == kind
    case IoParked(c, _) => c < |s.calls| && s.calls[c].fd == fd && s.calls[c].kind == kind
    case EventWait(fd', kind') => fd' == fd && kind' == kind
    case _ => false
  }

  predicate SlotOk(s: State, fd: nat, kind: Kind)
    requires fd < |s.io.table|
  {
    kind in s.io.table[fd].registered ==>
      var waiter := s.io.table[fd].Waiter(kind);
      waiter.Some? && waiter.value < |s.fibers| && WaitsFor(s, waiter.value, fd, kind)
  }

  predicate SleepsOn(s: State, f: nat, t: nat) {
    f < |s.fibers| && (s.fibers[f].local == SleepArmed(t) || s.fibers[f].local == SleepParked(t))
  }

  predicate TimerOk(s: State, t: nat)
    requires t < |s.timers|
  {
    var timer := s.timers[t];
    && (timer.place.Held? ==>
          && timer.place.fiber < |s.fibers|
          && (s.fibers[timer.place.fiber].local == CallbackStart(t) ||
              s.fibers[timer.place.fiber].local == CallbackLocked(t)))
    && (timer.recurring ==>
          timer.callback.UserCallback? && (timer.place.Armed? || timer.place.Lifted? || timer.place.Cancelled?))
    && (timer.place.Lifted? ==> timer.recurring)
    && match timer.callback
       case UserCallback => !timer.place.Held?
       case WakeFiber(f) => timer.place.Spent? || SleepsOn(s, f, t)
       case TimeoutOf(c) => c < |s.calls| && s.calls[c].timed
  }

  predicate StandsIn(s: State, f: nat, c: nat) {
    InCall(s, f) && s.fibers[f].local.call == c
  }

  // The flag of a call is set by that call's own timeout callback and by nothing else.
  predicate CallOk(s: State, c: nat)
    requires c < |s.calls|
  {
    var call := s.calls[c];
    && (call.result.None? ==> StandsIn(s, call.fiber, c))
    && (call.result == Some(TimedOut) ==> call.flag.Some?)
    && (call.flag.Some? ==>
          && call.flag.value < |s.timers|
          && s.timers[call.flag.value].callback == TimeoutOf(c)
          && (s.timers[call.flag.value].place.Spent? || s.timers[call.flag.value].place.Held?))
  }

  ghost predicate Woven(s: State) {
    && (forall f :: 0 <= f < |s.fibers| ==> FiberOk(s, f))
    && (forall fd, kind :: 0 <= fd < |s.io.table| ==> SlotOk(s, fd, kind))
    && (forall t :: 0 <= t < |s.timers| ==> TimerOk(s, t))
    && (forall c :: 0 <= c < |s.calls| ==> CallOk(s, c))
    && (forall i :: 0 <= i < |s.io.tasks| ==> s.io.tasks[i].fiber < |s.fibers|)
  }

  // Woven reads nothing but these five parts.
  lemma SameWeave(s: State, s': State)
    requires Woven(s)
    requires s'.io.table == s.io.table && s'.io.tasks == s.io.tasks
    requires s'.fibers == s.fibers && s'.calls == s.calls && s'.timers == s.timers
    ensures Woven(s')
  {
    assert forall f :: 0 <= f < |s.fibers| ==> FiberOk(s, f) ==> FiberOk(s', f);
    assert forall t :: 0 <= t < |s.timers| ==> TimerOk(s, t) ==> TimerOk(s', t);
    assert forall c :: 0 <= c < |s.calls| ==> CallOk(s, c) ==> CallOk(s', c);
    assert forall fd, kind :: 0 <= fd < |s.io.table| ==> SlotOk(s, fd, kind) ==> SlotOk(s', fd, kind);
  }

  // Neither run nor cancelled.
  predicate Pending(timer: Timer) {
    !timer.place.Spent? && !timer.place.Cancelled?
  }

  // A trigger turns a registered event into one queue entry of its waiter.
  lemma TriggerWeave(s: State, s': State, fd: nat, kind: Kind)
    requires Woven(s) && Registered(s.io, fd, kind)
    requires s'.io.table == Trigger(s.io, fd, kind).table && s'.io.tasks == Trigger(s.io, fd, kind).tasks
    requires s'.fibers == s.fibers && s'.calls == s.calls && s'.timers == s.timers
    ensures Woven(s')
  {
    assert SlotOk(s, fd, kind);
    var g := s.io.table[fd].Waiter(kind).value;
    CountPush(s.io.tasks, Task(g, None));
    forall f | 0 <= f < |s.fibers|
      ensures FiberOk(s', f)
    {
      assert FiberOk(s, f);
    }
    forall fd', kind' | 0 <= fd' < |s.io.table|
      ensures SlotOk(s', fd', kind')
    {
      assert SlotOk(s, fd', kind');
    }
    assert forall t :: 0 <= t < |s.timers| ==> TimerOk(s, t) ==> TimerOk(s', t);
    assert forall c :: 0 <= c < |s.calls| ==> CallOk(s, c) ==> CallOk(s', c);
  }

  lemma TriggerIfWeave(s: State, s': State, fd: nat, kind: Kind)
    requires Woven(s)
    requires s'.io.table == TriggerIf(s.io, fd, kind).table && s'.io.tasks == TriggerIf(s.io, fd, kind).tasks
    requires s'.fibers == s.fibers && s'.calls == s.calls && s'.timers == s.timers
    ensures Woven(s')
  {
    if Registered(s.io, fd, kind) {
      TriggerWeave(s, s', fd, kind);
    } else {
      SameWeave(s, s');
    }
  }

  lemma TriggerAllWeave(s: State, io: Io, fd: nat, kinds: set<Kind>)
    requires Woven(s) && io.table == s.io.table && io.tasks == s.io.tasks
    ensures Woven(s.(io := TriggerAll(io, fd, kinds)))
  {
    var s0 := s.(io := io);
    SameWeave(s, s0);
    var io1 := if Read in kinds then TriggerIf(io, fd, Read) else io;
    var s1 := s.(io := io1);
    if Read in kinds {
      TriggerIfWeave(s0, s1, fd, Read);
    }
    if Write in kinds {
      TriggerIfWeave(s1, s1.(io := TriggerIf(io1, fd, Write)), fd, Write);
    }
  }

  lemma SettleWeave(s: State, fd: nat, kind: Kind, willing: bool)
    requires Woven(s)
    ensures Woven(s.(io := SettleEvent(s.io, fd, kind, willing).io))
  {
    var r := SettleEvent(s.io, fd, kind, willing);
    if r.Done? {
      var io := s.io.(epoll := Ctl(s.io.epoll, CtlMod, fd, s.io.table[fd].registered - {kind}));
      TriggerWeave(s.(io := io), s.(io := r.io), fd, kind) by {
        SameWeave(s, s.(io := io));
      }
    }
  }

  lemma SettleAllWeave(s: State, fd: nat, willing: bool)
    requires Woven(s)
    ensures Woven(s.(io := SettleAllEvents(s.io, fd, willing).io))
  {
    if SettleAllEvents(s.io, fd, willing).Done? {
      TriggerAllWeave(s, s.io.(epoll := Ctl(s.io.epoll, CtlDel, fd, {})), fd, s.io.table[fd].registered);
    }
  }

  lemma DispatchWeave(s: State, fd: nat, reported: set<Kind>, failed: bool, willing: bool)
    requires Woven(s) && fd < |s.io.table| && !Dispatch(s.io, fd, reported, failed, willing).Aborted?
    ensures Woven(s.(io := Dispatch(s.io, fd, reported, failed, willing).io))
  {
    if Dispatch(s.io, fd, reported, failed, willing).Done? {
      var actual := RealEvents(s.io.table[fd].registered, reported, failed);
      var left := s.io.table[fd].registered - actual;
      var op := if left != {} then CtlMod else CtlDel;
      TriggerAllWeave(s, s.io.(epoll := Ctl(s.io.epoll, op, fd, left)), fd, actual);
    }
  }

  // --- fibers coming, resuming and going ---------------------------------------------------------------------

  lemma {:induction false} UnknownNotQueued(tasks: seq<Task>, n: nat)
    requires forall i :: 0 <= i < |tasks| ==> tasks[i].fiber < n
    ensures Count(tasks, n) == 0
  {
    if tasks != [] {
      UnknownNotQueued(tasks[1..], n);
    }
  }

  lemma SpawnWeave(s: State, pin: Option<nat>)
    requires Woven(s)
    ensures Woven(Spawn(s, Start, pin))
  {
    var s' := Spawn(s, Start, pin);
    var k := |s.fibers|;
    UnknownNotQueued(s.io.tasks, k);
    CountPush(s.io.tasks, Task(k, pin));
    forall f | 0 <= f < |s'.fibers|
      ensures FiberOk(s', f)
    {
      assert f < k ==> FiberOk(s, f);
    }
    assert forall t :: 0 <= t < |s.timers| ==> TimerOk(s, t) ==> TimerOk(s', t);
    assert forall c :: 0 <= c < |s.calls| ==> CallOk(s, c) ==> CallOk(s', c);
    assert forall fd, kind :: 0 <= fd < |s.io.table| ==> SlotOk(s, fd, kind) ==> SlotOk(s', fd, kind);
  }

  // --- a frame rule for the steps that touch a few fibers ----------------------------------------------------

  ghost predicate SlotKept(s: State, s': State, fd: nat, kind: Kind) {
    && fd < |s.io.table| && fd < |s'.io.table|
    && (kind in s'.io.table[fd].registered <==> kind in s.io.table[fd].registered)
    && s'.io.table[fd].Waiter(kind) == s.io.table[fd].Waiter(kind)
  }

  predicate CallKept(s: State, s': State, c: nat) {
    c < |s.calls| && c < |s'.calls| && s'.calls[c] == s.calls[c]
  }

  predicate TimerKept(s: State, s': State, t: nat) {
    t < |s.timers| && t < |s'.timers| && s'.timers[t] == s.timers[t]
  }

  // What the untouched rest of the state relies on a touched fiber for.
  ghost predicate Supports(s: State, s': State, g: nat)
    requires g < |s'.fibers|
  {
    && (forall fd: nat, kind :: Bit(s, g, fd, kind) && SlotKept(s, s', fd, kind) ==> WaitsFor(s', g, fd, kind))
    && (forall t: nat :: TimerKept(s, s', t) && s.timers[t].place == Held(g) ==>
                           s'.fibers[g].local == CallbackStart(t) || s'.fibers[g].local == CallbackLocked(t))
    && (forall t: nat :: TimerKept(s, s', t) && s.timers[t].callback == WakeFiber(g) && !s.timers[t].place.Spent? ==>
                           SleepsOn(s', g, t))
    && (forall c: nat :: CallKept(s, s', c) && s.calls[c].fiber == g && s.calls[c].result.None? ==> StandsIn(s', g, c))
  }

  // Calls and timers keep their identity, and a timer whose callback has begun stays begun.
  ghost predicate Extends(s: State, s': State) {
    && |s.fibers| <= |s'.fibers| && |s.calls| <= |s'.calls| && |s.timers| <= |s'.timers|
    && (forall c :: 0 <= c < |s.calls| ==>
                      && s'.calls[c].fiber == s.calls[c].fiber && s'.calls[c].fd == s.calls[c].fd
                      && s'.calls[c].kind == s.calls[c].kind && s'.calls[c].timed == s.calls[c].timed)
    && (forall t :: 0 <= t < |s.timers| ==>
                      && s'.timers[t].callback == s.timers[t].callback
                      && (s.timers[t].place.Spent? || s.timers[t].place.Held? ==>
                            s'.timers[t].place.Spent? || s'.timers[t].place.Held?))
  }

  // Nothing a fiber's own order depends on has changed.
  ghost predicate Untouched(s: State, s': State, f: nat) {
    && f < |s.fibers| && f < |s'.fibers|
    && s'.fibers[f] == s.fibers[f] && Queued(s', f) == Queued(s, f)
    && (forall fd, kind :: Bit(s', f, fd, kind) == Bit(s, f, fd, kind))
    && |s.calls| <= |s'.calls| && |s.timers| <= |s'.timers|
    && (forall c :: 0 <= c < |s.calls| && s.calls[c].fiber == f ==>
                      s'.calls[c].(flag := s.calls[c].flag) == s.calls[c])
    && (forall t :: 0 <= t < |s.timers| && (s.timers[t].callback == WakeFiber(f) || s.timers[t].place == Held(f)) ==>
                      s'.timers[t].place == s.timers[t].place ||
                      (s.timers[t].place != Held(f) && Pending(s.timers[t]) && Pending(s'.timers[t])))
  }

  lemma FiberFrame(s: State, s': State, f: nat)
    requires f < |s.fibers| && FiberOk(s, f) && Untouched(s, s', f)
    requires forall t :: 0 <= t < |s.timers| && t < |s'.timers| ==> s'.timers[t].callback == s.timers[t].callback
    ensures FiberOk(s', f)
  {
  }

  // Only the touched fibers and the changed slots, calls and timers have to be looked at again.
  lemma WeaveFrame(s: State, s': State, touched: set<nat>)
    requires Woven(s) && Extends(s, s')
    requires forall f :: 0 <= f < |s'.fibers| && f !in touched ==> Untouched(s, s', f)
    requires forall f :: f in touched ==> f < |s'.fibers| && FiberOk(s', f) && Supports(s, s', f)
    requires forall fd, kind :: 0 <= fd < |s'.io.table| && !SlotKept(s, s', fd, kind) ==> SlotOk(s', fd, kind)
    requires forall t :: 0 <= t < |s'.timers| && !TimerKept(s, s', t) ==> TimerOk(s', t)
    requires forall c :: 0 <= c < |s'.calls| && !CallKept(s, s', c) ==> CallOk(s', c)
    requires forall i :: 0 <= i < |s'.io.tasks| ==> s'.io.tasks[i].fiber < |s'.fibers|
    ensures Woven(s')
  {
    forall f | 0 <= f < |s'.fibers|
      ensures FiberOk(s', f)
    {
      if f !in touched {
        FiberFrame(s, s', f);
      }
    }
    FrameSlots(s, s', touched);
    FrameTimers(s, s', touched);
    FrameCalls(s, s', touched);
  }

  lemma FrameSlots(s: State, s': State, touched: set<nat>)
    requires Woven(s) && Extends(s, s')
    requires forall f :: 0 <= f < |s'.fibers| && f !in touched ==> f < |s.fibers| && s'.fibers[f] == s.fibers[f]
    requires forall f :: f in touched ==> f < |s'.fibers| && Supports(s, s', f)
    requires forall fd, kind :: 0 <= fd < |s'.io.table| && !SlotKept(s, s', fd, kind) ==> SlotOk(s', fd, kind)
    ensures forall fd, kind :: 0 <= fd < |s'.io.table| ==> SlotOk(s', fd, kind)
  {
    forall fd, kind | 0 <= fd < |s'.io.table| && SlotKept(s, s', fd, kind) && kind in s.io.table[fd].registered
      ensures SlotOk(s', fd, kind)
    {
      assert SlotOk(s, fd, kind);
      assert Bit(s, s.io.table[fd].Waiter(kind).value, fd, kind);
    }
  }

  lemma FrameTimers(s: State, s': State, touched: set<nat>)
    requires Woven(s) && Extends(s, s')
    requires forall f :: 0 <= f < |s'.fibers| && f !in touched ==> f < |s.fibers| && s'.fibers[f] == s.fibers[f]
    requires forall f :: f in touched ==> f < |s'.fibers| && Supports(s, s', f)
    requires forall t :: 0 <= t < |s'.timers| && !TimerKept(s, s', t) ==> TimerOk(s', t)
    ensures forall t :: 0 <= t < |s'.timers| ==> TimerOk(s', t)
  {
    forall t | 0 <= t < |s'.timers| && TimerKept(s, s', t)
      ensures TimerOk(s', t)
    {
      assert TimerOk(s, t);
    }
  }

  lemma FrameCalls(s: State, s': State, touched: set<nat>)
    requires Woven(s) && Extends(s, s')
    requires forall f :: 0 <= f < |s'.fibers| && f !in touched ==> f < |s.fibers| && s'.fibers[f] == s.fibers[f]
    requires forall f :: f in touched ==> f < |s'.fibers| && Supports(s, s', f)
    requires forall c :: 0 <= c < |s'.calls| && !CallKept(s, s', c) ==> CallOk(s', c)
    ensures forall c :: 0 <= c < |s'.calls| ==> CallOk(s', c)
  {
    forall c | 0 <= c < |s'.calls| && CallKept(s, s', c)
      ensures CallOk(s', c)
    {
      assert CallOk(s, c);
    }
  }

  // In a woven state all of that shows in the fiber's own local state.
  lemma SupportsFromLocal(s: State, s': State, g: nat)
    requires Woven(s) && g < |s.fibers| && g < |s'.fibers| && Extends(s, s')
    requires forall fd, kind :: WaitsFor(s, g, fd, kind) ==>
                                  WaitsFor(s', g, fd, kind) || !Bit(s, g, fd, kind) || !SlotKept(s, s', fd, kind)
    requires s.fibers[g].local.CallbackStart? || s.fibers[g].local.CallbackLocked? ==>
               s'.fibers[g].local == s.fibers[g].local
               || !TimerKept(s, s', s.fibers[g].local.timer)
               || s'.fibers[g].local == CallbackLocked(s.fibers[g].local.timer)
    requires s.fibers[g].local.SleepArmed? || s.fibers[g].local.SleepParked? ==>
               var t := s.fibers[g].local.timer;
               SleepsOn(s', g, t) || !TimerKept(s, s', t) || s.timers[t].place.Spent?
    requires InCall(s, g) ==>
               StandsIn(s', g, s.fibers[g].local.call) || !CallKept(s, s', s.fibers[g].local.call)
    ensures Supports(s, s', g)
  {
    forall fd: nat, kind | Bit(s, g, fd, kind) && SlotKept(s, s', fd, kind)
      ensures WaitsFor(s', g, fd, kind)
    {
      assert SlotOk(s, fd, kind);
    }
    forall t: nat | TimerKept(s, s', t)
      ensures s.timers[t].place == Held(g) ==>
                s'.fibers[g].local == CallbackStart(t) || s'.fibers[g].local == CallbackLocked(t)
      ensures s.timers[t].callback == WakeFiber(g) && !s.timers[t].place.Spent? ==> SleepsOn(s', g, t)
    {
      assert TimerOk(s, t);
    }
    forall c: nat | CallKept(s, s', c) && s.calls[c].fiber == g && s.calls[c].result.None?
      ensures StandsIn(s', g, c)
    {
      assert CallOk(s, c);
    }
  }

  // The common case: one fiber moves, entries of its own come or go, and nothing else changes.
  lemma MovedWeave(s: State, s': State, g: nat)
    requires Woven(s) && g < |s.fibers| && |s'.fibers| == |s.fibers|
    requires forall f :: 0 <= f < |s.fibers| && f != g ==> s'.fibers[f] == s.fibers[f] && Queued(s', f) == Queued(s, f)
    requires s'.io.table == s.io.table && s'.calls == s.calls && s'.timers == s.timers
    requires forall i :: 0 <= i < |s'.io.tasks| ==> s'.io.tasks[i].fiber < |s.fibers|
    requires FiberOk(s', g)
    requires forall fd, kind :: WaitsFor(s, g, fd, kind) ==> WaitsFor(s', g, fd, kind) || !Bit(s, g, fd, kind)
    requires s.fibers[g].local.CallbackStart? || s.fibers[g].local.CallbackLocked? ==>
               s'.fibers[g].local == s.fibers[g].local
    requires s.fibers[g].local.SleepArmed? || s.fibers[g].local.SleepParked? ==>
               var t := s.fibers[g].local.timer;
               SleepsOn(s', g, t) || (t < |s.timers| && s.timers[t].place.Spent?)
    requires InCall(s, g) ==> StandsIn(s', g, s.fibers[g].local.call)
    ensures Woven(s')
  {
    SupportsFromLocal(s, s', g);
    hide FiberOk, Supports;
    WeaveFrame(s, s', {g});
  }

  // --- workers: take, return, pop, deliver -------------------------------------------------------------------

  // A live fiber taken from the queue resumes in order: whatever woke it is used up.
  lemma TakenOk(s: State, w: nat, i: nat)
    requires Woven(s) && w < |s.workers| && i < |s.io.tasks|
    requires s.io.tasks[i].fiber < |s.fibers| && !Executing(s, s.io.tasks[i].fiber)
    ensures FiberOk(DoTake(s, w, i), s.io.tasks[i].fiber)
    ensures Queued(s, s.io.tasks[i].fiber) > 0
  {
    CountWithout(s.io.tasks, i);
    assert FiberOk(s, s.io.tasks[i].fiber);
  }

  lemma TakeWeave(s: State, w: nat, i: nat)
    requires Woven(s) && w < |s.workers| && FirstEligible(s.io.tasks, w, Busy(s), i)
    requires s.io.tasks[i].fiber < |s.fibers|
    ensures Woven(DoTake(s, w, i))
  {
    var g := s.io.tasks[i].fiber;
    assert g !in Busy(s);
    CountWithout(s.io.tasks, i);
    TakenOk(s, w, i);
    assert FiberOk(s, g);
    MovedWeave(s, DoTake(s, w, i), g);
  }

  lemma ReturnedOk(s: State, w: nat, f: nat, ending: Ending)
    requires Woven(s) && w < |s.workers| && Executing(s, f) && MayEnd(s.fibers[f].local, ending)
    ensures FiberOk(DoReturn(s, w, f, ending), f)
  {
    CountPush(s.io.tasks, Task(f, None));
    assert FiberOk(s, f);
  }

  lemma ReturnWeave(s: State, w: nat, f: nat, ending: Ending)
    requires Woven(s) && w < |s.workers| && Executing(s, f) && MayEnd(s.fibers[f].local, ending)
    ensures Woven(DoReturn(s, w, f, ending))
  {
    CountPush(s.io.tasks, Task(f, None));
    ReturnedOk(s, w, f, ending);
    hide FiberOk;
    MovedWeave(s, DoReturn(s, w, f, ending), f);
  }

  lemma PopWeave(s: State, w: nat, t: nat)
    requires Woven(s) && t < |s.timers| && s.timers[t].place.Armed?
    ensures Woven(DoPop(s, w, t))
  {
    assert TimerOk(s, t);
    WeaveFrame(s, DoPop(s, w, t), {});
  }

  lemma RearmWeave(s: State, w: nat, t: nat)
    requires Woven(s) && t < |s.timers| && s.timers[t].place == Lifted(w)
    ensures Woven(DoRearm(s, w, t))
  {
    assert TimerOk(s, t);
    WeaveFrame(s, DoRearm(s, w, t), {});
  }

  lemma DeliveredOk(s: State, w: nat, t: nat)
    requires Woven(s) && t < |s.timers| && s.timers[t].place == InFlight(w)
    ensures FiberOk(DoDeliver(s, t), |s.fibers|) && TimerOk(DoDeliver(s, t), t)
    ensures forall f: nat :: f < |s.fibers| ==> Queued(DoDeliver(s, t), f) == Queued(s, f)
  {
    var k := |s.fibers|;
    UnknownNotQueued(s.io.tasks, k);
    CountPush(s.io.tasks, Task(k, None));
    assert TimerOk(s, t);
  }

  lemma DeliverWeave(s: State, w: nat, t: nat)
    requires Woven(s) && t < |s.timers| && s.timers[t].place == InFlight(w)
    ensures Woven(DoDeliver(s, t))
  {
    hide FiberOk, TimerOk, CallOk, SlotOk, Count, Supports;
    DeliveredOk(s, w, t);
    DeliveredSupports(s, t);
    WeaveFrame(s, DoDeliver(s, t), {|s.fibers|});
  }

  lemma DeliveredSupports(s: State, t: nat)
    requires Woven(s) && t < |s.timers|
    ensures Supports(s, DoDeliver(s, t), |s.fibers|)
  {
    hide FiberOk, TimerOk, CallOk, SlotOk, Count;
    NothingRefersTo(s, |s.fibers|);
  }

  // No slot, timer or call of a woven state refers to a fiber that does not exist.
  lemma NothingRefersTo(s: State, k: nat)
    requires Woven(s) && |s.fibers| <= k
    ensures forall fd, kind :: !Bit(s, k, fd, kind)
    ensures forall t :: 0 <= t < |s.timers| ==> s.timers[t].place != Held(k)
    ensures forall t :: 0 <= t < |s.timers| && !s.timers[t].place.Spent? ==> s.timers[t].callback != WakeFiber(k)
    ensures forall c :: 0 <= c < |s.calls| && s.calls[c].result.None? ==> s.calls[c].fiber != k
  {
    forall fd: nat, kind | fd < |s.io.table|
      ensures !Bit(s, k, fd, kind)
    {
      assert SlotOk(s, fd, kind);
    }
    forall t | 0 <= t < |s.timers|
      ensures s.timers[t].place != Held(k)
      ensures !s.timers[t].place.Spent? ==> s.timers[t].callback != WakeFiber(k)
    {
      assert TimerOk(s, t);
    }
    forall c | 0 <= c < |s.calls| && s.calls[c].result.None?
      ensures s.calls[c].fiber != k
    {
      assert CallOk(s, c);
    }
  }

  // --- ordinary code -----------------------------------------------------------------------------------------

  lemma ResubmitWeave(s: State, g: nat)
    requires Woven(s) && g < |s.fibers|
    requires s.fibers[g].local.Over? || (s.fibers[g].local.SelfHeld? && Count(s.io.tasks, g) == 0)
    ensures Woven(Enqueue(s, Task(g, None)))
  {
    CountPush(s.io.tasks, Task(g, None));
    assert FiberOk(s, g);
    SupportsFromLocal(s, Enqueue(s, Task(g, None)), g);
    WeaveFrame(s, Enqueue(s, Task(g, None)), {g});
  }

  lemma StartTimerWeave(s: State, recurring: bool)
    requires Woven(s)
    ensures Woven(AddTimer(s, UserCallback, recurring))
  {
    WeaveFrame(s, AddTimer(s, UserCallback, recurring), {});
  }

  lemma StopTimerWeave(s: State, t: nat)
    requires Woven(s) && t < |s.timers| && s.timers[t].callback.UserCallback? && s.timers[t].place.Armed?
    ensures Woven(PutTimer(s, t, Cancelled))
  {
    assert TimerOk(s, t);
    WeaveFrame(s, PutTimer(s, t, Cancelled), {});
  }

  // The table grew if it had to, and nothing was registered.
  ghost predicate Widened(io: Io, io': Io) {
    && io'.tasks == io.tasks && |io.table| <= |io'.table|
    && (forall i :: 0 <= i < |io.table| ==> io'.table[i] == io.table[i])
    && (forall i :: |io.table| <= i < |io'.table| ==> io'.table[i].registered == {})
  }

  // One event more is registered, for the given fiber.
  ghost predicate Slotted(io: Io, io': Io, fd: nat, kind: Kind, fiber: nat) {
    && io'.tasks == io.tasks && |io.table| <= |io'.table| && fd < |io'.table|
    && (forall i :: 0 <= i < |io.table| && i != fd ==> io'.table[i] == io.table[i])
    && (forall i :: |io.table| <= i < |io'.table| && i != fd ==> io'.table[i].registered == {})
    && kind in io'.table[fd].registered && io'.table[fd].Waiter(kind) == Some(fiber)
    && !Registered(io, fd, kind)
    && (fd < |io.table| ==> io'.table[fd].registered == io.table[fd].registered + {kind})
    && (|io.table| <= fd ==> io'.table[fd].registered == {kind})
    && (forall other :: other != kind && fd < |io.table| ==> io'.table[fd].Waiter(other) == io.table[fd].Waiter(other))
  }

  lemma AddedSlot(io: Io, fd: nat, kind: Kind, fiber: nat, willing: bool)
    requires |io.table| >= INITIAL_SLOTS
    ensures var r := AddEvent(io, fd, kind, fiber, willing);
            && (r.Done? ==> Slotted(io, r.io, fd, kind, fiber))
            && (r.Refused? ==> Widened(io, r.io))
  {
  }

  lemma WidenedWeave(s: State, io: Io)
    requires Woven(s) && Widened(s.io, io)
    ensures Woven(s.(io := io))
  {
    WeaveFrame(s, s.(io := io), {});
  }

  lemma NewWaiterWeave(s: State, io: Io, fd: nat, kind: Kind)
    requires Woven(s) && Slotted(s.io, io, fd, kind, |s.fibers|)
    ensures Woven(NewFiber(s.(io := io), EventWait(fd, kind)))
  {
    var k := |s.fibers|;
    UnknownNotQueued(s.io.tasks, k);
    NothingRefersTo(s, k);
    WeaveFrame(s, NewFiber(s.(io := io), EventWait(fd, kind)), {k});
  }

  lemma WatchWeave(s: State, f: nat, fd: nat, kind: Kind, willing: bool)
    requires Woven(s) && CodeEnabled(s, f, Watch(fd, kind, willing))
    ensures Woven(DoWatch(s, fd, kind, willing))
  {
    AddedSlot(s.io, fd, kind, |s.fibers|, willing);
    hide AddEvent, Slotted, Widened, Woven;
    var r := AddEvent(s.io, fd, kind, |s.fibers|, willing);
    if r.Done? {
      NewWaiterWeave(s, r.io, fd, kind);
    } else {
      WidenedWeave(s, r.io);
    }
  }

  // Deleting an event leaves its waiter without a waker, and marks it so.
  lemma UnwatchWeave(s: State, f: nat, fd: nat, kind: Kind, willing: bool)
    requires Woven(s) && CodeEnabled(s, f, Unwatch(fd, kind, willing))
    ensures Woven(DoUnwatch(s, fd, kind, willing))
  {
    if DeleteEvent(s.io, fd, kind, willing).Done? {
      assert SlotOk(s, fd, kind);
      var g := s.io.table[fd].Waiter(kind).value;
      assert Bit(s, g, fd, kind);
      assert FiberOk(s, g);
      if s.fibers[g].local.EventWait? {
        DropWeave(s, fd, kind, willing, g);
      } else {
        AbandonWeave(s, fd, kind, willing, g);
      }
    }
  }

  lemma DropWeave(s: State, fd: nat, kind: Kind, willing: bool, g: nat)
    requires Woven(s) && DeleteEvent(s.io, fd, kind, willing).Done?
    requires Bit(s, g, fd, kind) && g < |s.fibers| && s.fibers[g].local == EventWait(fd, kind)
    ensures Woven(MoveTo(s, g, Dropped).(io := DeleteEvent(s.io, fd, kind, willing).io))
  {
    var s' := MoveTo(s, g, Dropped).(io := DeleteEvent(s.io, fd, kind, willing).io);
    assert FiberOk(s, g);
    SupportsFromLocal(s, s', g);
    assert FiberOk(s', g);
    hide FiberOk, Supports, Woven;
    WeaveFrame(s, s', {g});
  }

  lemma AbandonWeave(s: State, fd: nat, kind: Kind, willing: bool, g: nat)
    requires Woven(s) && DeleteEvent(s.io, fd, kind, willing).Done?
    requires Bit(s, g, fd, kind) && InCall(s, g)
    requires s.fibers[g].local.IoRegistered? || s.fibers[g].local.IoParked?
    ensures var c := s.fibers[g].local.call;
            Woven(s.(calls := s.calls[c := s.calls[c].(abandoned := true)],
                  io := DeleteEvent(s.io, fd, kind, willing).io))
  {
    var c := s.fibers[g].local.call;
    var s' := s.(calls := s.calls[c := s.calls[c].(abandoned := true)],
    io := DeleteEvent(s.io, fd, kind, willing).io);
    assert FiberOk(s, g);
    assert SlotOk(s, fd, kind);
    assert CallOk(s, c);
    assert CallOk(s', c);
    assert !Bit(s', g, fd, kind);
    assert FiberOk(s', g);
    SupportsFromLocal(s, s', g);
    assert FiberOk(s', g);
    hide FiberOk, Supports, Woven;
    WeaveFrame(s, s', {g});
  }

  lemma IoBeginWeave(s: State, f: nat, fd: nat, kind: Kind, timed: bool, retry: bool)
    requires Woven(s) && CodeEnabled(s, f, IoBegin(fd, kind, timed, retry))
    ensures Woven(DoIoBegin(s, f, fd, kind, timed, retry))
  {
    var s' := DoIoBegin(s, f, fd, kind, timed, retry);
    assert FiberOk(s, f);
    SupportsFromLocal(s, s', f);
    assert FiberOk(s', f);
    hide FiberOk, Supports, Woven;
    WeaveFrame(s, s', {f});
  }

  lemma SleepBeginWeave(s: State, f: nat)
    requires Woven(s) && CodeEnabled(s, f, SleepBegin)
    ensures Woven(DoSleepBegin(s, f))
  {
    var s' := DoSleepBegin(s, f);
    assert FiberOk(s, f);
    SupportsFromLocal(s, s', f);
    assert FiberOk(s', f);
    hide FiberOk, Supports, Woven;
    WeaveFrame(s, s', {f});
  }

  // --- inside a hooked call ----------------------------------------------------------------------------------

  lemma EndCallWeave(s: State, f: nat, c: nat, result: Result)
    requires Woven(s) && Executing(s, f) && StandsIn(s, f, c) && Queued(s, f) == 0
    requires !s.fibers[f].local.IoRegistered? && (result.TimedOut? ==> s.calls[c].flag.Some?)
    ensures Woven(EndCall(s, f, c, result))
  {
    var s' := EndCall(s, f, c, result);
    assert FiberOk(s, f);
    assert CallOk(s, c);
    SupportsFromLocal(s, s', f);
    assert FiberOk(s', f);
    hide FiberOk, Supports, Woven;
    WeaveFrame(s, s', {f});
  }

  // A move within the call that neither registers nor parks.
  lemma StayWeave(s: State, f: nat, local: Local)
    requires Woven(s) && Executing(s, f) && InCall(s, f) && Queued(s, f) == 0
    requires !s.fibers[f].local.IoRegistered?
    requires StandsIn(MoveTo(s, f, local), f, s.fibers[f].local.call) && FiberOk(MoveTo(s, f, local), f)
    ensures Woven(MoveTo(s, f, local))
  {
    assert FiberOk(s, f);
    SupportsFromLocal(s, MoveTo(s, f, local), f);
    WeaveFrame(s, MoveTo(s, f, local), {f});
  }

  lemma ArmedOk(s: State, f: nat)
    requires Woven(s) && HookEnabled(s, f, IoArm)
    ensures FiberOk(DoIoArm(s, f), f) && Supports(s, DoIoArm(s, f), f)
    ensures forall t :: |s.timers| <= t < |DoIoArm(s, f).timers| ==> TimerOk(DoIoArm(s, f), t)
  {
    assert FiberOk(s, f);
    assert CallOk(s, s.fibers[f].local.call);
    SupportsFromLocal(s, DoIoArm(s, f), f);
  }

  lemma IoArmWeave(s: State, f: nat)
    requires Woven(s) && HookEnabled(s, f, IoArm)
    ensures Woven(DoIoArm(s, f))
  {
    hide FiberOk, TimerOk, CallOk, SlotOk, Supports, Count;
    ArmedOk(s, f);
    WeaveFrame(s, DoIoArm(s, f), {f});
  }

  lemma RegisteredWeave(s: State, io: Io, f: nat)
    requires Woven(s) && InCall(s, f) && s.fibers[f].local.IoArmed?
    requires var c := s.fibers[f].local.call; Slotted(s.io, io, s.calls[c].fd, s.calls[c].kind, f)
    ensures var local := s.fibers[f].local;
            Woven(MoveTo(s.(io := io), f, IoRegistered(local.call, local.armed)))
  {
    var local := s.fibers[f].local;
    var s' := MoveTo(s.(io := io), f, IoRegistered(local.call, local.armed));
    assert FiberOk(s, f);
    SupportsFromLocal(s, s', f);
    WeaveFrame(s, s', {f});
  }

  lemma RefusedWeave(s: State, f: nat)
    requires Woven(s) && InCall(s, f) && s.fibers[f].local.IoArmed?
    ensures var local := s.fibers[f].local; Woven(MoveTo(s, f, IoRefused(local.call, local.armed)))
  {
    assert FiberOk(s, f);
    StayWeave(s, f, IoRefused(s.fibers[f].local.call, s.fibers[f].local.armed));
  }

  lemma IoRegisterWeave(s: State, f: nat, willing: bool)
    requires Woven(s) && HookEnabled(s, f, IoRegister(willing))
    ensures Woven(DoIoRegister(s, f, willing))
  {
    var call := s.calls[s.fibers[f].local.call];
    AddedSlot(s.io, call.fd, call.kind, f, willing);
    hide AddEvent, Slotted, Widened, Woven;
    var r := AddEvent(s.io, call.fd, call.kind, f, willing);
    if r.Done? {
      RegisteredWeave(s, r.io, f);
    } else {
      WidenedWeave(s, r.io);
      RefusedWeave(s.(io := r.io), f);
    }
  }

  lemma CancelWeave(s: State, f: nat)
    requires Woven(s) && HookEnabled(s, f, IoCancel)
    ensures Woven(CancelTimer(s, s.fibers[f].local.armed))
  {
    assert FiberOk(s, f);
    var timer := s.fibers[f].local.armed;
    if timer.Some? && s.timers[timer.value].place.Armed? {
      assert TimerOk(s, timer.value);
      WeaveFrame(s, CancelTimer(s, timer), {});
    }
  }

  lemma IoCancelWeave(s: State, f: nat)
    requires Woven(s) && HookEnabled(s, f, IoCancel)
    ensures Woven(DoIoCancel(s, f))
  {
    assert FiberOk(s, f);
    CancelWeave(s, f);
    var s1 := CancelTimer(s, s.fibers[f].local.armed);
    assert FiberOk(s1, f);
    if s.fibers[f].local.IoWoken? {
      StayWeave(s1, f, IoChecked(s.fibers[f].local.call));
    } else {
      var c := s.fibers[f].local.call;
      EndCallWeave(s1, f, c, if s.calls[c].retry then Failed else Result.Finished);
    }
  }

  lemma IoJudgeWeave(s: State, f: nat)
    requires Woven(s) && HookEnabled(s, f, IoJudge)
    ensures Woven(DoIoJudge(s, f))
  {
    assert FiberOk(s, f);
    var c := s.fibers[f].local.call;
    if s.calls[c].flag.Some? {
      EndCallWeave(s, f, c, TimedOut);
    } else if s.calls[c].retry {
      StayWeave(s, f, IoTop(c));
    } else {
      EndCallWeave(s, f, c, Result.Finished);
    }
  }

  // --- timer callbacks ---------------------------------------------------------------------------------------

  // A callback fiber has no event, no call and no sleep of its own.
  lemma WokenOk(s: State, f: nat)
    requires Woven(s) && HookEnabled(s, f, CallbackWake)
    ensures var s', t := DoCallbackWake(s, f), s.fibers[f].local.timer;
            var g := s.timers[t].callback.fiber;
            && s.timers[t].place == Held(f) && g < |s.fibers| && TimerOk(s', t)
            && FiberOk(s', f) && Supports(s, s', f) && FiberOk(s', g) && Supports(s, s', g)
  {
    var s' := DoCallbackWake(s, f);
    var t := s.fibers[f].local.timer;
    assert FiberOk(s, f);
    assert TimerOk(s, t);
    var g := s.timers[t].callback.fiber;
    assert FiberOk(s, g);
    CountPush(s.io.tasks, Task(g, None));
    SupportsFromLocal(s, s', f);
    SupportsFromLocal(s, s', g);
  }

  lemma WakeWeave(s: State, f: nat)
    requires Woven(s) && HookEnabled(s, f, CallbackWake)
    ensures Woven(DoCallbackWake(s, f))
  {
    hide FiberOk, TimerOk, CallOk, SlotOk, Supports, Count;
    var g := s.timers[s.fibers[f].local.timer].callback.fiber;
    CountPush(s.io.tasks, Task(g, None));
    WokenOk(s, f);
    WeaveFrame(s, DoCallbackWake(s, f), {f, g});
  }

  lemma LockWeave(s: State, f: nat)
    requires Woven(s) && HookEnabled(s, f, CallbackLock)
    ensures Woven(DoCallbackLock(s, f))
  {
    var t := s.fibers[f].local.timer;
    assert FiberOk(s, f);
    if Alive(s, s.timers[t].callback.call) {
      FlagWeave(s, f, t);
    } else {
      SpendWeave(s, f, t);
    }
  }

  lemma FlagWeave(s: State, f: nat, t: nat)
    requires Woven(s) && Executing(s, f) && s.fibers[f].local == CallbackStart(t) && t < |s.timers|
    requires s.timers[t].callback.TimeoutOf? && s.timers[t].callback.call < |s.calls|
    ensures var c := s.timers[t].callback.call;
            Woven(MoveTo(s.(calls := s.calls[c := s.calls[c].(flag := Some(t))]), f, CallbackLocked(t)))
  {
    var c := s.timers[t].callback.call;
    var s' := MoveTo(s.(calls := s.calls[c := s.calls[c].(flag := Some(t))]), f, CallbackLocked(t));
    assert FiberOk(s, f);
    assert TimerOk(s, t);
    assert CallOk(s, c);
    assert CallOk(s', c);
    SupportsFromLocal(s, s', f);
    assert FiberOk(s', f);
    hide FiberOk, Supports, Woven;
    WeaveFrame(s, s', {f});
  }

  // The end of a callback fiber's work, whatever its callback has done before.
  lemma SpendWeave(s: State, f: nat, t: nat)
    requires Woven(s) && Executing(s, f) && t < |s.timers|
    requires s.fibers[f].local == CallbackStart(t) || s.fibers[f].local == CallbackLocked(t)
    requires s.timers[t].callback.TimeoutOf?
    ensures Woven(MoveTo(PutTimer(s, t, Spent), f, CallbackDone))
  {
    var s' := MoveTo(PutTimer(s, t, Spent), f, CallbackDone);
    assert FiberOk(s, f);
    assert TimerOk(s, t);
    SupportsFromLocal(s, s', f);
    assert FiberOk(s', f);
    hide FiberOk, Supports, Woven;
    WeaveFrame(s, s', {f});
  }

  lemma CallbackSettleWeave(s: State, f: nat, willing: bool)
    requires Woven(s) && HookEnabled(s, f, CallbackSettle(willing))
    ensures Woven(DoCallbackSettle(s, f, willing))
  {
    var t := s.fibers[f].local.timer;
    var call := s.calls[s.timers[t].callback.call];
    SettleWeave(s, call.fd, call.kind, willing);
    SpendWeave(s.(io := SettleEvent(s.io, call.fd, call.kind, willing).io), f, t);
  }
}
