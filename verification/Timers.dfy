/** `TimerManager`: the ordered set of timers, keyed by execution time and address. */
module Timers {

  // The clock is a value handed to each method; times are 64-bit and wrap around. A callback is a number standing for
  // the function, or empty.

  import opened Base

  // --- times -------------------------------------------------------------------------------------------------

  const HOUR: nat := 3600000

  type uint64 = n: nat | n < WORD

  function Wrap(n: nat): (r: uint64)
    ensures n < WORD ==> r == n
  {
    n % WORD
  }

  lemma WrapOnce(n: nat)
    requires n < 2 * WORD
    ensures Wrap(n) == if n < WORD then n else n - WORD
  {
  }

  lemma WrapTwice(n: nat)
    requires 2 * WORD <= n < 3 * WORD
    ensures Wrap(n) == n - 2 * WORD
  {
  }

  // Moving a due time by the change of its cycle, modulo 2^64 and without wrapping.
  lemma Shifted(time: uint64, cycle: uint64, newCycle: uint64)
    ensures Wrap(Wrap(time + WORD - cycle) + newCycle) == Wrap(time + WORD - cycle + newCycle)
    ensures 0 <= time - cycle + newCycle < WORD ==>
              Wrap(time + WORD - cycle + newCycle) == time - cycle + newCycle
  {
    hide Wrap;
    var a := time + WORD - cycle;
    WrapOnce(a);
    WrapOnce(Wrap(a) + newCycle);
    if a + newCycle >= 2 * WORD {
      WrapTwice(a + newCycle);
    } else {
      WrapOnce(a + newCycle);
    }
  }

  // A timer that fired and is armed again is due at or after the present exactly when the sum does not wrap.
  lemma RearmedAheadIff(now: uint64, cycle: uint64)
    ensures Wrap(now + cycle) >= now <==> now + cycle < WORD
  {
    WrapOnce(now + cycle);
  }

  // The clock went back by more than an hour, in unsigned arithmetic.
  predicate RolledBack(previous: uint64, now: uint64) {
    now < Wrap(previous + WORD - HOUR)
  }

  // The test answers whether the clock went back by more than an hour exactly when it has shown an hour since its
  // epoch, or stands within the last hour it can show.
  lemma RollbackSeenIff(previous: uint64, now: uint64)
    ensures RolledBack(previous, now) == (now + 3600000 < previous) <==>
            previous >= 3600000 || now >= previous + WORD - 3600000
  {
    WrapOnce(previous + WORD - HOUR);
  }

  // --- the order ---------------------------------------------------------------------------------------------

  datatype Key = Key(time: nat, address: nat)

  // `Comparator`: pointers, the null one before every other.
  predicate Less(left: Option<Key>, right: Option<Key>) {
    if right.None? then false
    else if left.None? then true
    else if left.value.time != right.value.time then left.value.time < right.value.time
    else left.value.address < right.value.address
  }

  // A strict total order, so the set keeps at most one of each key: null first, then the earlier time, and of equal
  // times the lower address.
  lemma StrictTotalOrder(a: Option<Key>, b: Option<Key>, c: Option<Key>)
    ensures !Less(a, a)
    ensures Less(a, b) && Less(b, c) ==> Less(a, c)
    ensures a == b || Less(a, b) || Less(b, a)
    ensures !(Less(a, b) && Less(b, a))
    ensures a.None? && b.Some? ==> Less(a, b)
    ensures a.Some? && b.Some? && a.value.time < b.value.time ==> Less(a, b)
    ensures a.Some? && b.Some? && a.value.time == b.value.time && a.value.address < b.value.address ==> Less(a, b)
  {
  }

  class Timer {
    const address: nat
    const recurring: bool
    var runCycle: uint64
    var executeTime: uint64
    var callback: Option<nat>

    constructor (address: nat, runCycle: uint64, callback: Option<nat>, recurring: bool, now: uint64)
      ensures this.address == address && this.runCycle == runCycle && this.callback == callback
      ensures this.recurring == recurring && executeTime == Wrap(now + runCycle)
    {
      this.address, this.runCycle, this.callback, this.recurring := address, runCycle, callback, recurring;
      executeTime := Wrap(now + runCycle);
    }

    function Position(): Option<Key>
      reads this`executeTime
    {
      Some(Key(executeTime, address))
    }
  }

  // No two timers alive share an address.
  ghost predicate Apart(ts: seq<Timer>) {
    forall i, j :: 0 <= i < j < |ts| ==> ts[i].address != ts[j].address
  }

  ghost predicate Sorted(ts: seq<Timer>)
    reads ts`executeTime
  {
    forall i, j :: 0 <= i < j < |ts| ==> Less(ts[i].Position(), ts[j].Position())
  }

  // `t` between the timers before and behind it.
  lemma SortedInsert(a: seq<Timer>, t: Timer, b: seq<Timer>)
    requires Sorted(a + b)
    requires forall x :: x in a ==> Less(x.Position(), t.Position())
    requires forall x :: x in b ==> Less(t.Position(), x.Position())
    ensures Sorted(a + [t] + b)
  {
    var s := a + [t] + b;
    forall i, j | 0 <= i < j < |s|
      ensures Less(s[i].Position(), s[j].Position())
    {
      if i < |a| && j > |a| {
        assert (a + b)[i] == s[i] && (a + b)[j - 1] == s[j];
      } else if i > |a| {
        assert (a + b)[i - 1] == s[i] && (a + b)[j - 1] == s[j];
      } else if j < |a| {
        assert (a + b)[i] == s[i] && (a + b)[j] == s[j];
      } else if i == |a| {
        assert s[j] in b;
      } else {
        assert s[i] in a;
      }
    }
  }

  lemma SortedRemove(a: seq<Timer>, t: Timer, b: seq<Timer>)
    requires Sorted(a + [t] + b)
    ensures Sorted(a + b)
  {
    var s := a + [t] + b;
    forall i, j | 0 <= i < j < |a + b|
      ensures Less((a + b)[i].Position(), (a + b)[j].Position())
    {
      assert (a + b)[i] == s[if i < |a| then i else i + 1];
      assert (a + b)[j] == s[if j < |a| then j else j + 1];
    }
  }

  lemma ApartInsert(a: seq<Timer>, t: Timer, b: seq<Timer>)
    requires Apart(a + b + [t])
    ensures Apart(a + [t] + b)
  {
    var s, all := a + [t] + b, a + b + [t];
    forall i, j | 0 <= i < j < |s|
      ensures s[i].address != s[j].address
    {
      var k := if i < |a| then i else if i == |a| then |a + b| else i - 1;
      var l := if j < |a| then j else if j == |a| then |a + b| else j - 1;
      assert s[i] == all[k] && s[j] == all[l] && k != l;
    }
  }

  lemma ApartRemove(a: seq<Timer>, t: Timer, b: seq<Timer>)
    requires Apart(a + [t] + b)
    ensures Apart(a + b) && Apart(a + b + [t]) && t !in a + b
  {
    var s, all := a + [t] + b, a + b + [t];
    forall i, j | 0 <= i < j < |all|
      ensures all[i].address != all[j].address
    {
      var k := if i < |a| then i else if i == |a + b| then |a| else i + 1;
      var l := if j < |a| then j else if j == |a + b| then |a| else j + 1;
      assert all[i] == s[k] && all[j] == s[l] && k != l;
    }
    ApartPrefix(a + b, [t]);
    assert all[|a + b|] == t;
    assert forall i :: 0 <= i < |a + b| ==> all[i] == (a + b)[i];
  }

  lemma ApartPrefix(a: seq<Timer>, b: seq<Timer>)
    requires Apart(a + b)
    ensures Apart(a)
  {
    assert forall i :: 0 <= i < |a| ==> a[i] == (a + b)[i];
  }

  // How `cancelTimer` ends; erasing the end iterator is undefined.
  datatype Cancelled = Returned(success: bool) | EraseEnd

  class TimerManager {
    var timers: seq<Timer>
    var previousTime: uint64

    ghost predicate Valid()
      reads this`timers, timers`executeTime
    {
      Apart(timers) && Sorted(timers)
    }

    constructor (now: uint64)
      ensures Valid() && timers == [] && previousTime == now
    {
      timers, previousTime := [], now;
    }

    // Where a timer stands in the set, or would: behind everything less than it.
    method LowerBound(timer: Timer) returns (place: nat)
      requires Valid() && Apart(if timer in timers then timers else timers + [timer])
      ensures Valid() && place <= |timers|
      ensures forall j :: 0 <= j < place ==> Less(timers[j].Position(), timer.Position())
      ensures timer in timers <==> place < |timers| && timers[place] == timer
      ensures timer !in timers ==> forall j :: place <= j < |timers| ==> Less(timer.Position(), timers[j].Position())
    {
      place := 0;
      while place < |timers| && Less(timers[place].Position(), timer.Position())
        invariant 0 <= place <= |timers|
        invariant forall j :: 0 <= j < place ==> Less(timers[j].Position(), timer.Position())
      {
        place := place + 1;
      }
      if timer !in timers {
        forall j | place <= j < |timers|
          ensures Less(timer.Position(), timers[j].Position())
        {
          var all := timers + [timer];
          assert all[place].address != all[|timers|].address;
          assert j > place ==> Less(timers[place].Position(), timers[j].Position());
        }
      }
    }

    // Whether a timer may meet the ones in the set: no other one alive has its address.
    ghost predicate Joins(timer: Timer)
      reads this`timers
    {
      Apart(if timer in timers then timers else timers + [timer])
    }

    // `set::insert`: nothing happens when the timer is there already. Says whether it now stands first.
    method AddTimer(timer: Timer) returns (front: bool, ghost place: nat)
      requires Valid() && Joins(timer)
      modifies this`timers
      ensures Valid() && place < |timers| && timers[place] == timer && place <= |old(timers)|
      ensures (front <==> timers[0] == timer) && (front <==> place == 0)
      ensures timers == if timer in old(timers) then old(timers)
                        else old(timers)[..place] + [timer] + old(timers)[place..]
    {
      hide Sorted, Apart;
      var at := LowerBound(timer);
      place := at;
      front := at == 0;
      if timer !in timers {
        var a, b := timers[..at], timers[at..];
        assert timers == a + b;
        SortedInsert(a, timer, b);
        ApartInsert(a, timer, b);
        timers := a + [timer] + b;
      } else {
        FirstPlace(at, timer);
      }
    }

    // A timer in the set stands first only at place 0.
    lemma FirstPlace(at: nat, timer: Timer)
      requires Valid() && at < |timers| && timers[at] == timer
      ensures timers[0] == timer <==> at == 0
    {
    }

    // The guard tests a copy of the callback, so a timer already taken out of the set is erased at the end iterator.
    method CancelTimer(timer: Timer) returns (result: Cancelled)
      requires Valid() && Joins(timer)
      modifies this`timers
      ensures result == if timer.callback.None? then Returned(false)
                        else if timer in old(timers) then Returned(true) else EraseEnd
      ensures result != Returned(true) ==> timers == old(timers)
      ensures result == Returned(true) ==> RemovedFrom(old(timers), timer) && Valid()
    {
      if timer.callback.None? {
        return Returned(false);
      }
      var found := Remove(timer);
      return if found then Returned(true) else EraseEnd;
    }

    // The set is `before` without this one timer, the others in their order.
    ghost predicate RemovedFrom(before: seq<Timer>, timer: Timer)
      reads this`timers
    {
      exists k :: 0 <= k < |before| && before[k] == timer && timers == before[..k] + before[k + 1..]
    }

    // `find` and `erase`.
    method Remove(timer: Timer) returns (found: bool)
      requires Valid() && Joins(timer)
      modifies this`timers
      ensures found <==> timer in old(timers)
      ensures Valid() && Joins(timer) && timer !in timers
      ensures if found then RemovedFrom(old(timers), timer) else timers == old(timers)
    {
      hide Sorted, Apart;
      var at := LowerBound(timer);
      found := at < |timers| && timers[at] == timer;
      if found {
        var a, b := timers[..at], timers[at + 1..];
        assert timers == a + [timer] + b;
        SortedRemove(a, timer, b);
        ApartRemove(a, timer, b);
        timers := a + b;
      }
    }

    // The same timers, this one perhaps elsewhere, the others in their order.
    ghost predicate Moved(before: seq<Timer>, timer: Timer)
      reads this`timers
    {
      exists k, p :: 0 <= k < |before| && 0 <= p < |timers| && before[k] == timer && timers[p] == timer &&
                     before[..k] + before[k + 1..] == timers[..p] + timers[p + 1..]
    }

    // Out of the set, due again a cycle from now, back in.
    method RefreshExecuteTime(timer: Timer, now: uint64) returns (done: bool)
      requires Valid() && Joins(timer)
      modifies this`timers, timer`executeTime
      ensures Valid()
      ensures done <==> timer.callback.Some? && timer in old(timers)
      ensures !done ==> timers == old(timers) && timer.executeTime == old(timer.executeTime)
      ensures done ==> timer.executeTime == Wrap(now + timer.runCycle) && Moved(old(timers), timer)
    {
      hide Sorted, Apart;
      if timer.callback.None? {
        return false;
      }
      var found := Remove(timer);
      if !found {
        return false;
      }
      Reschedule(timer, Wrap(now + timer.runCycle), old(timers));
      return true;
    }

    // A key changes only while its timer is out of the set.
    method Reschedule(timer: Timer, time: uint64, ghost before: seq<Timer>)
      requires Valid() && Joins(timer) && timer !in timers && RemovedFrom(before, timer)
      modifies this`timers, timer`executeTime
      ensures Valid() && timer.executeTime == time && Moved(before, timer)
    {
      hide Sorted, Apart;
      timer.executeTime := time;
      var front, place := AddTimer(timer);
      assert timers[..place] + timers[place + 1..] == old(timers);
    }

    // A new cycle; the time it is due is counted from now or moved by the change of the cycle.
    method ResetRunCycle(timer: Timer, runCycle: uint64, fromNow: bool, now: uint64) returns (done: bool)
      requires Valid() && Joins(timer)
      modifies this`timers, timer`executeTime, timer`runCycle
      ensures Valid()
      ensures var same := runCycle == old(timer.runCycle) && !fromNow;
              && (done <==> same || (timer.callback.Some? && timer in old(timers)))
              && (same || !done ==> timers == old(timers) && timer.executeTime == old(timer.executeTime) &&
                                    timer.runCycle == old(timer.runCycle))
              && (!same && done ==> timer.runCycle == runCycle && Moved(old(timers), timer))
              && (!same && done && fromNow ==> timer.executeTime == Wrap(now + runCycle))
              && (!same && done && !fromNow ==>
                    timer.executeTime == Wrap(old(timer.executeTime) + WORD - old(timer.runCycle) + runCycle))
    {
      hide Sorted, Apart, Wrap;
      if runCycle == timer.runCycle && !fromNow {
        return true;
      }
      if timer.callback.None? {
        return false;
      }
      var found := Remove(timer);
      if !found {
        return false;
      }
      var start := if fromNow then now else Wrap(timer.executeTime + WORD - timer.runCycle);
      if !fromNow {
        Shifted(timer.executeTime, timer.runCycle, runCycle);
      }
      timer.runCycle := runCycle;
      Reschedule(timer, Wrap(start + timer.runCycle), old(timers));
      return true;
    }

    method HasTimer() returns (r: bool)
      ensures r <==> timers != []
    {
      r := timers != [];
    }

    // The first of the timers a key stands before.
    method UpperBound(time: uint64, address: nat) returns (place: nat)
      requires Valid()
      ensures place <= |timers|
      ensures forall j :: 0 <= j < place ==> timers[j].executeTime <= time
      ensures forall j :: place <= j < |timers| ==> timers[j].executeTime >= time
    {
      place := 0;
      while place < |timers| && !Less(Some(Key(time, address)), timers[place].Position())
        invariant 0 <= place <= |timers|
        invariant forall j :: 0 <= j < place ==> timers[j].executeTime <= time
      {
        place := place + 1;
      }
      forall j | place <= j < |timers|
        ensures timers[j].executeTime >= time
      {
        assert j > place ==> Less(timers[place].Position(), timers[j].Position());
      }
    }

    // Notes the time and says whether the clock went back by more than an hour, in unsigned arithmetic.
    method DetectClockRollover(now: uint64) returns (rollover: bool)
      modifies this`previousTime
      ensures rollover == RolledBack(old(previousTime), now) && previousTime == now
    {
      rollover := now < Wrap(previousTime + WORD - HOUR);
      previousTime := now;
    }

    // Milliseconds to the first due time: 0 when it has passed, all ones without timers.
    function TimeUntilNext(now: uint64): (r: uint64)
      reads this`timers, timers`executeTime
      ensures timers == [] ==> r == WORD - 1
      ensures timers != [] ==> now + r == if timers[0].executeTime < now then now else timers[0].executeTime
    {
      if timers == [] then WORD - 1
      else if now >= timers[0].executeTime then 0
      else timers[0].executeTime - now
    }

    // What is due: everything after a rollback, else the timers up to a probe due now.
    method TakeExpired(rollover: bool, now: uint64, probe: nat) returns (expired: seq<Timer>)
      requires Valid()
      modifies this`timers
      ensures Valid() && old(timers) == expired + timers
      ensures rollover ==> timers == []
      ensures !rollover ==> forall t :: t in expired ==> t.executeTime <= now
      ensures !rollover ==> forall t :: t in timers ==> t.executeTime >= now
    {
      var place := UpperBound(now, probe);
      if rollover {
        place := |timers|;
      }
      expired := timers[..place];
      timers := timers[place..];
      assert old(timers) == expired + timers;
      forall i, j | 0 <= i < j < |timers|
        ensures Less(timers[i].Position(), timers[j].Position()) && timers[i].address != timers[j].address
      {
        assert timers[i] == old(timers)[place + i] && timers[j] == old(timers)[place + j];
      }
    }

    lemma JoinsWhenApart(timer: Timer)
      requires Apart(timers) && forall t :: t in timers ==> t.address != timer.address
      ensures Joins(timer)
    {
      var all := timers + [timer];
      assert forall i :: 0 <= i < |timers| ==> all[i] == timers[i] && timers[i] in timers;
    }

    // A recurring timer that fired is due again one cycle from now.
    method Rearm(timer: Timer, now: uint64)
      requires Valid() && forall t :: t in timers ==> t.address != timer.address
      modifies this`timers, timer`executeTime
      ensures Valid() && timer.executeTime == Wrap(now + timer.runCycle)
      ensures forall t :: t in timers <==> t in old(timers) || t == timer
    {
      hide Sorted, Apart, Wrap;
      JoinsWhenApart(timer);
      timer.executeTime := Wrap(now + timer.runCycle);
      var front, place := AddTimer(timer);
      assert old(timers) == old(timers)[..place] + old(timers)[place..];
    }

    // The callbacks of the expired timers in order; the recurring ones are armed again.
    method Fire(expired: seq<Timer>, now: uint64) returns (callbacks: seq<Option<nat>>)
      requires Valid() && Apart(expired + timers)
      modifies this`timers, expired`executeTime
      ensures Valid() && |callbacks| == |expired|
      ensures forall i :: 0 <= i < |expired| ==> callbacks[i] == expired[i].callback
      ensures forall t :: t in timers <==> t in old(timers) || (t in expired && t.recurring)
      ensures forall t :: t in old(timers) ==> t.executeTime == old(t.executeTime)
      ensures forall t :: t in expired ==>
                            t.executeTime == if t.recurring then Wrap(now + t.runCycle) else old(t.executeTime)
    {
      hide Sorted, Apart, Wrap;
      callbacks := [];
      ghost var armed: set<Timer> := {};
      var i := 0;
      OthersApart(expired, timers);
      while i < |expired|
        invariant 0 <= i <= |expired| && Valid() && |callbacks| == i
        invariant forall j :: 0 <= j < i ==> callbacks[j] == expired[j].callback
        invariant forall j :: 0 <= j < i && expired[j].recurring ==> expired[j] in armed
        invariant forall t :: t in armed ==> t in expired && t.recurring && t.executeTime == Wrap(now + t.runCycle)
        invariant forall t, j :: t in armed && i <= j < |expired| ==> t.address != expired[j].address
        invariant forall t :: t in timers <==> t in old(timers) || t in armed
        invariant forall t :: t in old(timers) ==> t.executeTime == old(t.executeTime)
        invariant forall j :: 0 <= j < |expired| && expired[j] !in armed ==>
                                expired[j].executeTime == old(expired[j].executeTime)
      {
        callbacks := callbacks + [expired[i].callback];
        if expired[i].recurring {
          Rearm(expired[i], now);
          armed := armed + {expired[i]};
        }
        i := i + 1;
      }
    }

    lemma OthersApart(expired: seq<Timer>, others: seq<Timer>)
      requires Apart(expired + others)
      ensures forall i, j :: 0 <= j < i < |expired| ==> expired[j].address != expired[i].address
      ensures forall i, t :: 0 <= i < |expired| && t in others ==> t.address != expired[i].address
    {
      var all := expired + others;
      assert forall i :: 0 <= i < |expired| ==> all[i] == expired[i];
      assert forall i :: 0 <= i < |others| ==> all[|expired| + i] == others[i];
    }

    // The callbacks to run now. `probe` is the address of the temporary timer the due ones are compared with.
    method GetExpiredCallbacks(now: uint64, probe: nat) returns (callbacks: seq<Option<nat>>)
      requires Valid()
      modifies this, timers`executeTime
      ensures Valid()
      ensures previousTime == if old(timers) == [] then old(previousTime) else now
      ensures |callbacks| <= |old(timers)|
      ensures forall i :: 0 <= i < |callbacks| ==> callbacks[i] == old(timers)[i].callback
      ensures var fired, kept := old(timers)[..|callbacks|], old(timers)[|callbacks|..];
              && (forall t :: t in timers <==> t in kept || (t in fired && t.recurring))
              && (forall t :: t in kept ==> t.executeTime == old(t.executeTime))
              && (forall t :: t in fired ==>
                                t.executeTime == if t.recurring then Wrap(now + t.runCycle) else old(t.executeTime))
              && (if RolledBack(old(previousTime), now) then kept == []
                  else forall t :: (t in fired ==> old(t.executeTime) <= now) &&
                                   (t in kept ==> old(t.executeTime) >= now))
    {
      hide Sorted, Apart, Wrap, RolledBack;
      callbacks := [];
      if timers == [] {
        return;
      }
      var rollover := DetectClockRollover(now);
      if !rollover && timers[0].executeTime > now {
        FirstIsEarliest();
        return;
      }
      var expired := TakeExpired(rollover, now, probe);
      assert forall i :: 0 <= i < |expired| ==> expired[i] == old(timers)[i];
      callbacks := Fire(expired, now);
      assert old(timers)[..|expired|] == expired;
    }

    lemma FirstIsEarliest()
      requires Valid() && timers != []
      ensures forall t :: t in timers ==> timers[0].executeTime <= t.executeTime
    {
      assert forall i :: 0 < i < |timers| ==> Less(timers[0].Position(), timers[i].Position());
    }
  }
}
