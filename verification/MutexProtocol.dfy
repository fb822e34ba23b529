/**
 The RPC threads and the interrupt thread of the running service, which share the command queue
 through one mutex. Only the holder of the mutex touches the host, so an interleaving is a sequence
 of steps of whichever thread holds it. The block loops of the service are such sequences.
 */
module MutexProtocol {
  import opened Base
  import EndToEnd
  import opened HostModel
  import QueueRuns
  import opened StorageService

  /** Who holds the mutex and where that thread is. `Abandoned` is a mutex whose unlocking failed. */
  datatype Holder =
    | Free
    | RpcReady
    | RpcPolling(cmd: Cmd, n: nat)
    | RpcFinished(cmd: Cmd, code: int)
    | IrqReady
    | IrqFinished
    | Abandoned

  datatype State = State(holder: Holder, host: Host)

  /** What a thread does next. An RPC sends without a callback and polls; the lock attempts that fail
      change nothing and need no step. */
  datatype Step = RpcLock | RpcSend(c: Cmd) | RpcPoll(e: Event) | IrqLock | IrqHandle(e: Event) | Unlock(released: bool)

  predicate StepOk(t: Step, ramSize: nat) {
    match t
    case RpcSend(c) => CmdOk(c, ramSize) && c.cb.NoCallback?
    case RpcPoll(e) => EventOk(e, ramSize)
    case IrqHandle(e) => EventOk(e, ramSize)
    case _ => true
  }

  /** The mutex lets this step happen now. */
  predicate Enabled(s: State, t: Step) {
    match t
    case RpcLock => s.holder.Free?
    case IrqLock => s.holder.Free?
    case RpcSend(_) => s.holder.RpcReady?
    case RpcPoll(_) => s.holder.RpcPolling?
    case IrqHandle(_) => s.holder.IrqReady?
    case Unlock(_) => s.holder.RpcReady? || s.holder.RpcFinished? || s.holder.IrqFinished?
  }

  /** The state after a step; `None` when the handler did not come back. */
  function Take(s: State, t: Step): (r: Option<State>)
    requires HostOk(s.host) && StepOk(t, |s.host.ram|) && Enabled(s, t)
    ensures r.Some? ==> HostOk(r.value.host) && |r.value.host.ram| == |s.host.ram|
  {
    match t
    case RpcLock => Some(s.(holder := RpcReady))
    case IrqLock => Some(s.(holder := IrqReady))
    case RpcSend(c) => Some(State(RpcPolling(c, |s.host.submitted|), Send(s.host, c)))
    case RpcPoll(e) =>
      (match Irq(s.host, e)
       case Crash => None
       case Spin => None
       case Next(h) =>
         if s.holder.n < |h.finished| then Some(State(RpcFinished(s.holder.cmd, h.finished[s.holder.n].code), h))
         else Some(State(s.holder, h)))
    case IrqHandle(e) =>
      (match Irq(s.host, e)
       case Crash => None
       case Spin => None
       case Next(h) => Some(State(IrqFinished, h)))
    case Unlock(released) => Some(s.(holder := if released then Free else Abandoned))
  }

  /** Every interleaving: a sequence of enabled steps. */
  ghost predicate Reaches(s: State, steps: seq<Step>, r: State)
    decreases |steps|
  {
    if steps == [] then r == s
    else
      && HostOk(s.host) && StepOk(steps[0], |s.host.ram|) && Enabled(s, steps[0])
      && Take(s, steps[0]).Some? && Reaches(Take(s, steps[0]).value, steps[1..], r)
  }

  /** The queue is empty unless an RPC is polling for its own command, which is then alone in it. */
  predicate Exclusive(s: State) {
    && HostOk(s.host)
    && if s.holder.RpcPolling? then
         && s.holder.n == |s.host.finished| && |s.host.queue| == 1
         && QueueRuns.Same(s.host.queue[0], s.holder.cmd) && s.holder.cmd.cb.NoCallback?
       else s.host.queue == []
  }

  lemma HandlerOnOneCommand(h: Host, e: Event)
    requires HostOk(h) && EventOk(e, |h.ram|) && |h.queue| == 1 && h.queue[0].cb.NoCallback?
    ensures Irq(h, e) != Spin
    ensures
      match Irq(h, e)
      case Next(h1) =>
        && h1.notices == h.notices
        && if h1.queue == [] then
             |h1.finished| == |h.finished| + 1 && QueueRuns.Same(h1.finished[|h.finished|].cmd, h.queue[0])
           else |h1.queue| == 1 && QueueRuns.Same(h1.queue[0], h.queue[0]) && h1.finished == h.finished
      case _ => true
  {
    hide Judge, Capture, CmdOk;
    assert h.notices + [] == h.notices;
  }

  lemma StepKeepsExclusive(s: State, t: Step)
    requires Exclusive(s) && StepOk(t, |s.host.ram|) && Enabled(s, t) && Take(s, t).Some?
    ensures Exclusive(Take(s, t).value)
  {
    hide Irq, CmdOk, EventOk, Issue;
    match t
    case RpcSend(c) =>
    case RpcPoll(e) => HandlerOnOneCommand(s.host, e);
    case IrqHandle(e) => HandlerOnIdleHost(s.host, e);
    case _ =>
  }

  lemma HandlerOnIdleHost(h: Host, e: Event)
    requires HostOk(h) && h.queue == [] && EventOk(e, |h.ram|)
    ensures Irq(h, e) == Next(h.(log := h.log + [IntStatus(e.status)]))
  {
  }

  /** Over all interleavings, from an idle host with the mutex free, the queue is empty whenever the mutex
      is free or with the interrupt thread. */
  lemma {:induction false} InterleavingsKeepExclusive(s: State, steps: seq<Step>, r: State)
    requires Exclusive(s) && Reaches(s, steps, r)
    ensures Exclusive(r)
    decreases |steps|
  {
    hide Exclusive, Take, StepOk, Enabled;
    if steps != [] {
      StepKeepsExclusive(s, steps[0]);
      InterleavingsKeepExclusive(Take(s, steps[0]).value, steps[1..], r);
    }
  }

  /** So the interrupt thread never completes, dequeues or copies data for an RPC: all it ever does is
      acknowledge the status it read, and it never trips an assertion. */
  lemma IrqThreadOnlyAcknowledges(s: State, steps: seq<Step>, r: State, e: Event)
    requires Exclusive(s) && Reaches(s, steps, r) && r.holder.IrqReady? && EventOk(e, |r.host.ram|)
    ensures HostOk(r.host)
    ensures Take(r, IrqHandle(e)) == Some(State(IrqFinished, r.host.(log := r.host.log + [IntStatus(e.status)])))
  {
    InterleavingsKeepExclusive(s, steps, r);
    HandlerOnIdleHost(r.host, e);
  }

  /** And an RPC that finishes has the completion of its own command, whatever other threads did before. */
  lemma RpcFinishesItsOwn(s: State, steps: seq<Step>, r: State, e: Event)
    requires Exclusive(s) && Reaches(s, steps, r) && r.holder.RpcPolling? && EventOk(e, |r.host.ram|)
    ensures HostOk(r.host)
    ensures
      match Take(r, RpcPoll(e))
      case None => Irq(r.host, e) == Crash
      case Some(State(RpcFinished(c, code), h)) =>
        && c == r.holder.cmd && h.queue == [] && h.notices == r.host.notices
        && |h.finished| == r.holder.n + 1 && QueueRuns.Same(h.finished[r.holder.n].cmd, c)
          && h.finished[r.holder.n].code == code
      case Some(t) => t.holder == r.holder
  {
    hide Irq;
    InterleavingsKeepExclusive(s, steps, r);
    HandlerOnOneCommand(r.host, e);
  }

  // ---------------------------------------------------------------- the service's loops are such runs

  lemma {:induction false} ReachesOn(s: State, xs: seq<Step>, m: State, ys: seq<Step>, r: State)
    requires Reaches(s, xs, m) && Reaches(m, ys, r)
    ensures Reaches(s, xs + ys, r)
    decreases |xs|
  {
    hide Take, StepOk, Enabled, HostOk;
    if xs == [] {
      assert xs + ys == ys;
    } else {
      ReachesOn(Take(s, xs[0]).value, xs[1..], m, ys, r);
      assert (xs + ys)[1..] == xs[1..] + ys;
    }
  }

  lemma OneStep(s: State, t: Step)
    requires HostOk(s.host) && StepOk(t, |s.host.ram|) && Enabled(s, t) && Take(s, t).Some?
    ensures Reaches(s, [t], Take(s, t).value)
  {
    assert [t][1..] == [];
  }

  /** The turn of the interrupt thread: it takes the mutex for each call of the handler. */
  lemma {:induction false} IrqTurn(h: Host, irqs: seq<Event>) returns (steps: seq<Step>)
    requires HostOk(h) && h.queue == [] && ScriptOk(irqs, |h.ram|)
    ensures Reaches(State(Free, h), steps, State(Free, EndToEnd.AtLock(h, irqs)))
    decreases |irqs|
  {
    hide Irq, EventOk, QueueRuns.Handled;
    steps := [];
    if irqs == [] {
      QueueRuns.HandledNothing(h);
    } else {
      var e := irqs[0];
      QueueRuns.HandledUnrolled(h, irqs);
      HandlerOnIdleHost(h, e);
      var h1 := h.(log := h.log + [IntStatus(e.status)]);
      OneStep(State(Free, h), IrqLock);
      OneStep(State(IrqReady, h), IrqHandle(e));
      OneStep(State(IrqFinished, h1), Unlock(true));
      ReachesOn(State(Free, h), [IrqLock], State(IrqReady, h), [IrqHandle(e)], State(IrqFinished, h1));
      ReachesOn(State(Free, h), [IrqLock] + [IrqHandle(e)], State(IrqFinished, h1), [Unlock(true)], State(Free, h1));
      EndToEnd.IdleStaysIdle(h, irqs);
      EndToEnd.IdleStaysIdle(h1, irqs[1..]);
      var more := IrqTurn(h1, irqs[1..]);
      steps := [IrqLock] + [IrqHandle(e)] + [Unlock(true)] + more;
      ReachesOn(State(Free, h), [IrqLock] + [IrqHandle(e)] + [Unlock(true)], State(Free, h1), more,
                State(Free, EndToEnd.AtLock(h, irqs)));
    }
  }

  /** A polling loop, one step for each event it uses. */
  lemma {:induction false} PollTurn(h: Host, c: Cmd, n: nat, script: seq<Event>) returns (steps: seq<Step>)
    requires HostOk(h) && ScriptOk(script, |h.ram|) && |h.finished| <= n && Poll(h, n, script).Returned?
    ensures
      var w := Poll(h, n, script);
      Reaches(State(RpcPolling(c, n), h), steps, State(RpcFinished(c, w.code), w.host))
    decreases |script|
  {
    hide Irq, Poll, EventOk, HostOk;
    steps := [];
    if script == [] {
      PollOfNothing(h, n);
    } else {
      PollUnrolled(h, n, script);
      var h1 := Irq(h, script[0]).host;
      OneStep(State(RpcPolling(c, n), h), RpcPoll(script[0]));
      if n < |h1.finished| {
        PollDone(h1, n, script[1..]);
        steps := [RpcPoll(script[0])];
      } else {
        var more := PollTurn(h1, c, n, script[1..]);
        steps := [RpcPoll(script[0])] + more;
        var w := Poll(h, n, script);
        ReachesOn(State(RpcPolling(c, n), h), [RpcPoll(script[0])], State(RpcPolling(c, n), h1), more,
                  State(RpcFinished(c, w.code), w.host));
      }
    }
  }

  /** One block once the interrupt thread is done: lock, transfer, unlock. */
  lemma BlockTurn(h: Host, j: Job, i: nat, allocs: Allocs, unlock: bool, script: seq<Event>) returns (steps: seq<Step>)
    requires HostOk(h) && JobOk(j, |h.ram|) && i < j.n && ScriptOk(script, |h.ram|)
    requires OneBlock(h, j, i, allocs, script).Moved?
    ensures Reaches(State(Free, h), steps, State(if unlock then Free else Abandoned,
                                                 OneBlock(h, j, i, allocs, script).host))
  {
    hide Poll, Send, QueueOk;
    OneStep(State(Free, h), RpcLock);
    var h1, last := OneBlock(h, j, i, allocs, script).host, if unlock then Free else Abandoned;
    if !allocs.cmd || !allocs.data {
      OneStep(State(RpcReady, h), Unlock(unlock));
      steps := [RpcLock] + [Unlock(unlock)];
      ReachesOn(State(Free, h), [RpcLock], State(RpcReady, h), [Unlock(unlock)], State(last, h));
    } else {
      BlockFits(j, i, allocs.garbage, |h.ram|);
      var c, n := CmdOf(j, i, allocs.garbage), |h.submitted|;
      OneStep(State(RpcReady, h), RpcSend(c));
      ReachesOn(State(Free, h), [RpcLock], State(RpcReady, h), [RpcSend(c)], State(RpcPolling(c, n), Send(h, c)));
      var polls := PollTurn(Send(h, c), c, n, script);
      var finished := State(RpcFinished(c, Poll(Send(h, c), n, script).code), h1);
      OneStep(finished, Unlock(unlock));
      ReachesOn(State(Free, h), [RpcLock] + [RpcSend(c)], State(RpcPolling(c, n), Send(h, c)), polls, finished);
      ReachesOn(State(Free, h), [RpcLock] + [RpcSend(c)] + polls, finished, [Unlock(unlock)], State(last, h1));
      steps := [RpcLock] + [RpcSend(c)] + polls + [Unlock(unlock)];
    }
  }

  /** The block loop of a request, with the interrupt thread between its rounds, is an interleaving: it
      starts with the mutex free and ends with it free, or abandoned when the last unlocking failed. */
  lemma {:induction false} LoopIsAnInterleaving(h: Host, j: Job, i: nat, env: nat -> BlockEnv, script: seq<Event>)
    returns (steps: seq<Step>, holder: Holder)
    requires HostOk(h) && h.queue == [] && LoopOk(h, j, env, script) && i <= j.n
    requires BlockLoop(h, j, i, env, script).LoopEnd?
    ensures Reaches(State(Free, h), steps, State(holder, BlockLoop(h, j, i, env, script).host))
            && holder in {Free, Abandoned}
    decreases j.n - i
  {
    hide BlockLoop, OneBlock, Reaches, EndToEnd.AtLock, ScriptOk, JobOk;
    steps, holder := [], Free;
    EndToEnd.LoopCases(h, j, i, env, script);
    if i == j.n {
      ReachesItself(State(Free, h));
    } else {
      var h0 := EndToEnd.AtLock(h, env(i).irqs);
      steps := IrqTurn(h, env(i).irqs);
      if env(i).lock {
        var turn := BlockTurn(h0, j, i, env(i).allocs, env(i).unlock, script);
        var b := OneBlock(h0, j, i, env(i).allocs, script);
        holder := if env(i).unlock then Free else Abandoned;
        ReachesOn(State(Free, h), steps, State(Free, h0), turn, State(holder, b.host));
        steps := steps + turn;
        if b.result >= 0 && env(i).unlock {
          BlockLeavesIdle(h0, j, i, env(i).allocs, script);
          var more;
          more, holder := LoopIsAnInterleaving(b.host, j, i + 1, env, b.rest);
          ReachesOn(State(Free, h), steps, State(Free, b.host), more,
                    State(holder, BlockLoop(h, j, i, env, script).host));
          steps := steps + more;
        }
      }
    }
  }

  lemma ReachesItself(s: State)
    ensures Reaches(s, [], s)
  {
  }

  /** A block transfer on an idle host leaves it idle: its command is gone. */
  lemma BlockLeavesIdle(h: Host, j: Job, i: nat, allocs: Allocs, script: seq<Event>)
    requires HostOk(h) && h.queue == [] && JobOk(j, |h.ram|) && i < j.n && ScriptOk(script, |h.ram|)
    requires OneBlock(h, j, i, allocs, script).Moved?
    ensures OneBlock(h, j, i, allocs, script).host.queue == []
  {
    hide Reaches, Exclusive, OneBlock;
    var steps := BlockTurn(h, j, i, allocs, true, script);
    ItsHostIsIdle(State(Free, h), steps, State(Free, OneBlock(h, j, i, allocs, script).host));
  }

  lemma ItsHostIsIdle(s: State, steps: seq<Step>, r: State)
    requires HostOk(s.host) && s.host.queue == [] && s.holder.Free? && Reaches(s, steps, r) && r.holder.Free?
    ensures r.host.queue == []
  {
    InterleavingsKeepExclusive(s, steps, r);
  }
}
