/** The coroutine and its state word. A context switch is a change of state; stacks and contexts are not modelled. */
module Fibers {

  import opened Base

  datatype FiberState = Initialize | Hold | Execute | Terminal | Ready | Except

  predicate Dead(state: FiberState) {
    state.Terminal? || state.Except?
  }

  // How a fiber gives the thread back: the two yields, a bare swapOut, and the two ends of MainFunction.
  datatype Ending = YieldedHold | YieldedReady | SwappedOut | Finished | Threw

  // The state word when swapIn returns to `Scheduler::run`.
  function StateAtSwapOut(ending: Ending): FiberState {
    match ending
    case YieldedHold => Hold
    case YieldedReady => Ready
    case SwappedOut => Execute
    case Finished => Terminal
    case Threw => Except
  }

  // What `run` makes of it: everything that is neither ready nor dead is put on hold.
  function StateAfterReturn(state: FiberState): FiberState {
    if state.Ready? || Dead(state) then state else Hold
  }

  // A turn leaves a coroutine ready exactly after YieldToReady, dead exactly after an end, and else on hold.
  lemma StateAfterTurn(ending: Ending)
    ensures var state := StateAfterReturn(StateAtSwapOut(ending));
            && (state == Ready <==> ending.YieldedReady?)
            && (state == Terminal <==> ending.Finished?)
            && (state == Except <==> ending.Threw?)
            && (state == Hold <==> ending.YieldedHold? || ending.SwappedOut?)
  {
  }

  // --- the object --------------------------------------------------------------------------------------------

  // `child`: the coroutine has a stack of its own, as every one but a thread's main coroutine has.
  class Coroutine {
    const child: bool
    var state: FiberState
    var callback: Option<nat>

    constructor (callback: nat)
      ensures child && state == Initialize && this.callback == Some(callback)
    {
      child, state, this.callback := true, Initialize, Some(callback);
    }

    // The coroutine of a thread as it was before there were any others.
    constructor Main()
      ensures !child && state == Execute && callback == None
    {
      child, state, callback := false, Execute, None;
    }

    // A fresh callback on the old stack; asserts unless the coroutine has a stack and has not begun or has ended.
    method Reset(callback: Option<nat>) returns (alive: bool)
      modifies this
      ensures alive <==> child && (old(state).Initialize? || Dead(old(state)))
      ensures alive ==> state == Initialize && this.callback == callback
      ensures !alive ==> state == old(state) && this.callback == old(this.callback)
    {
      if !child || (state != Terminal && state != Initialize && state != Except) {
        return false;
      }
      this.callback := callback;
      state := Initialize;
      alive := true;
    }
  }

  // What a thread knows of its coroutines: the one that runs, and the scheduler's, to which control goes back.
  class Thread {
    const scheduler: Coroutine
    var current: Coroutine

    constructor (scheduler: Coroutine)
      ensures this.scheduler == scheduler && current == scheduler
    {
      this.scheduler, current := scheduler, scheduler;
    }

    // Asserts when the coroutine is already running, after making it the current one.
    method SwapIn(coroutine: Coroutine) returns (alive: bool)
      modifies this, coroutine`state
      ensures current == coroutine && coroutine.state == Execute
      ensures alive <==> old(coroutine.state) != Execute
    {
      current := coroutine;
      alive := coroutine.state != Execute;
      coroutine.state := Execute;
    }

    method SwapOut()
      modifies this
      ensures current == scheduler
    {
      current := scheduler;
    }

    // The running coroutine gives the thread back: by a yield, by a bare swapOut, or at the end of MainFunction, which
    // forgets the callback unless it threw.
    method GiveBack(ending: Ending)
      modifies this, current
      ensures current == scheduler
      ensures var gone := old(current);
              && (ending.YieldedHold? ==> gone.state == Hold)
              && (ending.YieldedReady? ==> gone.state == Ready)
              && (ending.SwappedOut? ==> gone.state == old(gone.state))
              && (ending.Finished? ==> gone.state == Terminal)
              && (ending.Threw? ==> gone.state == Except)
              && gone.callback == (if ending.Finished? then None else old(gone.callback))
    {
      match ending {
        case YieldedHold => current.state := Hold;
        case YieldedReady => current.state := Ready;
        case SwappedOut =>
        case Finished =>
          current.callback := None;
          current.state := Terminal;
        case Threw => current.state := Except;
      }
      SwapOut();
    }

    // One turn of a coroutine on this thread, as `run` gives it: in, some code, out, and the state word put right.
    method Turn(coroutine: Coroutine, ending: Ending) returns (alive: bool)
      requires coroutine != scheduler
      modifies this, coroutine
      ensures alive <==> old(coroutine.state) != Execute
      ensures alive ==> current == scheduler && coroutine.state == StateAfterReturn(StateAtSwapOut(ending))
      ensures alive ==>
                && (coroutine.state == Ready <==> ending.YieldedReady?)
                && (coroutine.state == Terminal <==> ending.Finished?)
                && (coroutine.state == Except <==> ending.Threw?)
                && (coroutine.state == Hold <==> ending.YieldedHold? || ending.SwappedOut?)
      ensures alive ==> coroutine.callback == if ending.Finished? then None else old(coroutine.callback)
    {
      alive := SwapIn(coroutine);
      if !alive {
        return;
      }
      GiveBack(ending);
      if !coroutine.state.Ready? && !Dead(coroutine.state) {
        coroutine.state := Hold;
      }
    }
  }
}
