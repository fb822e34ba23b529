/**
 Whole runs of the driver: any interleaving of submissions and handler calls. Commands reach the
 bus in submission order, each once and only on becoming head; completions and callbacks follow in
 the same order, callbacks that re-enter the driver and block in it included; a blocking send returns
 after everything submitted before it; and it does return when every head is settled in time.
 */
module QueueRuns {
  import opened Base
  import opened Registers
  import opened HostModel

  datatype Action = Submit(cmd: Cmd) | Interrupt(e: Event)

  predicate ActionOk(a: Action, ramSize: nat) {
    match a
    case Submit(c) => CmdOk(c, ramSize)
    case Interrupt(e) => EventOk(e, ramSize)
  }

  function Step(h: Host, a: Action): (r: Ending)
    requires HostOk(h) && ActionOk(a, |h.ram|)
    ensures r.Next? ==> HostOk(r.host) && |r.host.ram| == |h.ram|
  {
    match a
    case Submit(c) => Next(Send(h, c))
    case Interrupt(e) => Irq(h, e)
  }

  function Exec(h: Host, actions: seq<Action>): (r: Ending)
    requires HostOk(h) && forall i :: 0 <= i < |actions| ==> ActionOk(actions[i], |h.ram|)
    ensures r.Next? ==> HostOk(r.host) && |r.host.ram| == |h.ram|
    decreases |actions|
  {
    if actions == [] then Next(h)
    else
      match Step(h, actions[0])
      case Crash => Crash
      case Spin => Spin
      case Next(h1) => Exec(h1, actions[1..])
  }

  // ---------------------------------------------------------------- what the bus saw

  /** What the controller has latched when a command is started. */
  datatype Latches = Latches(enabled: bv32, arg: u32, sysCtrl: bv32, attributes: u32, address: u32)

  function Latch(l: Latches, w: BusWrite): Latches {
    match w
    case IntStatusEn(v) => l.(enabled := v)
    case CmdArg(arg) => l.(arg := arg)
    case SysCtrl(v) => l.(sysCtrl := v)
    case BlkAtt(v) => l.(attributes := v)
    case DsAddr(address) => l.(address := address)
    case _ => l
  }

  function LatchedAfter(log: seq<BusWrite>): Latches {
    if log == [] then Latches(0, 0, 0, 0, 0) else Latch(LatchedAfter(log[..|log| - 1]), log[|log| - 1])
  }

  /** How the data of a command is to be transferred: block size (bits 11:0 of the block attributes), block
      count (31:16), timeout (bits 23:16 of the system control register), and the address for DMA. */
  datatype Setup = Setup(blockSize: nat, count: nat, timeout: bv32, address: Option<u32>)

  /** A command on the bus: argument, the transfer type that started it, the interrupts enabled, and the
      set-up when it has data. */
  datatype Issued = Issued(arg: u32, xfrTyp: bv32, enabled: bv32, setup: Option<Setup>)

  /** What starts when transfer type `v` is written. */
  function Start(l: Latches, v: bv32): Issued {
    Issued(l.arg, v, l.enabled, if Has(v, DPSEL) then Some(SetupOf(l, v)) else None)
  }

  function SetupOf(l: Latches, v: bv32): Setup {
    Setup(l.attributes % 0x1000, l.attributes / 0x1_0000, (l.sysCtrl >> 16) & 0xff,
          if Has(v, DMAEN) then Some(l.address) else None)
  }

  /** The commands a sequence of register writes starts. */
  function OnBus(log: seq<BusWrite>): seq<Issued> {
    if log == [] then []
    else
      var init, last := log[..|log| - 1], log[|log| - 1];
      OnBus(init) + if last.CmdXfrTyp? then [Start(LatchedAfter(init), last.v)] else []
  }

  /** The bus form of a command: everything it asks for. */
  function Wire(c: Cmd): Issued {
    Issued(c.arg, XfrTyp(c.index, c.rsp, c.data), EnabledInterrupts(c.data),
           if c.data.None? then None else Some(SetupFor(c.data.value)))
  }

  function SetupFor(d: Data): Setup {
    Setup(d.blockSize % 0x1000, d.blocks % 0x1_0000, 0x0e,
          if d.pbuf != 0 then Some(d.pbuf % 0x1_0000_0000) else None)
  }

  function Wires(cs: seq<Cmd>): (ws: seq<Issued>)
    ensures |ws| == |cs| && forall i :: 0 <= i < |cs| ==> ws[i] == Wire(cs[i])
  {
    seq(|cs|, i requires 0 <= i < |cs| => Wire(cs[i]))
  }

  /** The number of commands that have been started. */
  function Started(h: Host): nat {
    |h.finished| + if h.queue == [] then 0 else 1
  }

  /** Two records of the same submission: only the saved response may differ. */
  predicate Same(c: Cmd, d: Cmd) {
    c == d.(response := c.response)
  }

  /** The reports of the completion callbacks, in order. */
  function Reports(fs: seq<Finished>): seq<Notice> {
    if fs == [] then [] else Reports(fs[..|fs| - 1]) + Report(fs[|fs| - 1].cmd)
  }

  /** A completion code is the error its status word reports, and 1 when it reports none; no more blocks have
      moved than the command has. */
  predicate Coded(f: Finished) {
    && f.code == (if ErrorCode(f.status) != 0 then ErrorCode(f.status) else 1)
    && (f.cmd.data.Some? ==> 0 <= f.moved <= f.cmd.data.value.blocks)
    && (f.cmd.cb.BlockOpCallback? ==>
          f.cmd.data.Some? && f.cmd.data.value.blockSize == BLOCK_SIZE && f.cmd.data.value.blocks < 0x40_0000)
  }

  /** Of the blocks of a running command some remain. */
  predicate Counted(h: Host) {
    h.queue != [] && h.queue[0].data.Some? ==> 0 <= h.blocksRemaining <= h.queue[0].data.value.blocks
  }

  /** Submission order is kept by the queue, by the bus, by completion and by the callbacks. */
  predicate InOrder(h: Host) {
    && |h.submitted| == |h.finished| + |h.queue|
    && (forall i :: 0 <= i < |h.finished| ==> Same(h.finished[i].cmd, h.submitted[i]) && Coded(h.finished[i]))
    && (forall i :: 0 <= i < |h.queue| ==> Same(h.queue[i], h.submitted[|h.finished| + i]))
    && OnBus(h.log) == Wires(h.submitted[..Started(h)])
    && h.notices == Reports(h.finished)
    && Counted(h)
  }

  /** The history of `h` is a beginning of that of `h1`. */
  predicate Grows(h: Host, h1: Host) {
    h.submitted <= h1.submitted && h.finished <= h1.finished
  }

  /** What is to be shown of every call into the driver. */
  predicate Onward(h: Host, r: Ending) {
    r.Next? ==> InOrder(r.host) && Grows(h, r.host)
  }

  // ---------------------------------------------------------------- the bus, write by write

  predicate StartsNothing(w: seq<BusWrite>) {
    forall i :: 0 <= i < |w| ==> !w[i].CmdXfrTyp?
  }

  lemma {:induction false} OnBusQuiet(log: seq<BusWrite>, w: seq<BusWrite>)
    requires StartsNothing(w)
    ensures OnBus(log + w) == OnBus(log)
    decreases |w|
  {
    if w == [] {
      assert log + w == log;
    } else {
      var init := w[..|w| - 1];
      assert (log + w)[..|log + w| - 1] == log + init;
      OnBusQuiet(log, init);
    }
  }

  lemma OnBusAppend(log: seq<BusWrite>, b: BusWrite)
    ensures OnBus(log + [b]) == OnBus(log) + if b.CmdXfrTyp? then [Start(LatchedAfter(log), b.v)] else []
    ensures LatchedAfter(log + [b]) == Latch(LatchedAfter(log), b)
  {
    hide Start;
    assert (log + [b])[..|log|] == log;
  }

  /** The register writes of one command start exactly that command, with all it asks for. */
  lemma IssueOnBus(log: seq<BusWrite>, c: Cmd, sysCtrl: bv32)
    ensures OnBus(log + IssueWrites(c, sysCtrl)) == OnBus(log) + [Wire(c)]
  {
    hide EnabledInterrupts, XfrTyp, WithDefaultTimeout, BlockAttributes, OnBus, LatchedAfter, Start, Wire;
    var w, v := IssueWrites(c, sysCtrl), XfrTyp(c.index, c.rsp, c.data);
    var a := log + [w[0]];
    OnBusAppend(log, w[0]);
    OnBusAppend(a, w[1]);
    var b := a + [w[1]];
    if c.data.None? {
      OnBusAppend(b, w[2]);
      assert log + w == b + [w[2]];
      StartsAsAsked(LatchedAfter(b), c, sysCtrl);
    } else {
      var b1 := b + [w[2]];
      OnBusAppend(b, w[2]);
      var b2 := b1 + [w[3]];
      OnBusAppend(b1, w[3]);
      if c.data.value.pbuf == 0 {
        OnBusAppend(b2, w[4]);
        assert log + w == b2 + [w[4]];
        StartsAsAsked(LatchedAfter(b2), c, sysCtrl);
      } else {
        var b3 := b2 + [w[4]];
        OnBusAppend(b2, w[4]);
        OnBusAppend(b3, w[5]);
        assert log + w == b3 + [w[5]];
        StartsAsAsked(LatchedAfter(b3), c, sysCtrl);
      }
    }
  }

  /** From these latches the command starts with all it asks for. */
  lemma StartsAsAsked(l: Latches, c: Cmd, sysCtrl: bv32)
    requires l.arg == c.arg && l.enabled == EnabledInterrupts(c.data)
    requires c.data.Some? ==>
               && l.sysCtrl == WithDefaultTimeout(sysCtrl) && l.attributes == BlockAttributes(c.data.value)
               && (c.data.value.pbuf != 0 ==> l.address == c.data.value.pbuf % 0x1_0000_0000)
    ensures Start(l, XfrTyp(c.index, c.rsp, c.data)) == Wire(c)
  {
    hide EnabledInterrupts, XfrTyp, WithDefaultTimeout, BlockAttributes, Has;
    TransferTypeIsDecodable(c.index, c.rsp, c.data);
    TimeoutIsDefault(sysCtrl);
    if c.data.Some? { AttributesAreDecodable(c.data.value); }
  }

  // ---------------------------------------------------------------- every step keeps the order

  lemma WiresSnoc(cs: seq<Cmd>, n: nat)
    requires n < |cs|
    ensures Wires(cs[..n + 1]) == Wires(cs[..n]) + [Wire(cs[n])]
  {
  }

  lemma SameWire(c: Cmd, d: Cmd)
    requires Same(c, d)
    ensures Wire(c) == Wire(d) && c.cb == d.cb
  {
  }

  /** Starting the head puts the next submission on the bus. */
  lemma IssueKeepsOrder(h: Host)
    requires h.queue != [] && |h.submitted| == |h.finished| + |h.queue|
    requires Same(h.queue[0], h.submitted[|h.finished|])
    requires OnBus(h.log) == Wires(h.submitted[..|h.finished|])
    ensures OnBus(Issue(h).log) == Wires(h.submitted[..Started(h)])
  {
    hide IssueWrites, Wire, OnBus;
    IssueOnBus(h.log, h.queue[0], h.sysCtrl);
    SameWire(h.queue[0], h.submitted[|h.finished|]);
    WiresSnoc(h.submitted, |h.finished|);
  }

  /** Starting a command touches nothing but registers and the block counter. */
  lemma IssueIsQuiet(h: Host)
    requires h.queue != []
    ensures Issue(h) == h.(blocksRemaining := Issue(h).blocksRemaining, sysCtrl := Issue(h).sysCtrl,
                           log := Issue(h).log)
    ensures Counted(Issue(h))
  {
  }

  lemma SendKeepsOrder(h: Host, c: Cmd)
    requires InOrder(h) && HostOk(h) && CmdOk(c, |h.ram|)
    ensures InOrder(Send(h, c))
  {
    hide Issue, OnBus, Wires, CmdOk, Reports, Coded;
    var h1 := h.(queue := h.queue + [c], submitted := h.submitted + [c]);
    assert h1.submitted[..Started(h)] == h.submitted[..Started(h)];
    if h.queue == [] {
      IssueKeepsOrder(h1);
      IssueIsQuiet(h1);
    }
  }

  /** Saving the response, moving data and acknowledging start nothing. */
  lemma ServeStartsNothing(h: Host, e: Event)
    requires HostOk(h) && h.queue != [] && !Judge(h.queue[0].data, e.status).Abort?
    ensures OnBus(Serve(h, e).log) == OnBus(h.log)
  {
    hide OnBus, Capture, Judge;
    assert CmdOk(h.queue[0], |h.ram|);
    if Has(e.status, BRR | BWR) { JudgeNeedsBuffer(h.queue[0].data, e.status); }
    var moved := MoveBlock(h, e);
    var w := moved.log[|h.log|..] + [IntStatus(e.status)];
    assert moved.log == h.log + moved.log[|h.log|..];
    assert Serve(h, e).log == h.log + w;
    OnBusQuiet(h.log, w);
  }

  lemma ServeKeepsOrder(h: Host, e: Event)
    requires InOrder(h) && HostOk(h) && h.queue != [] && !Judge(h.queue[0].data, e.status).Abort?
    ensures InOrder(Serve(h, e))
  {
    hide OnBus, Capture, Wire, Reports, Coded, Judge, Has;
    ServeStartsNothing(h, e);
    ServeKeepsCount(h, e);
  }

  lemma ServeKeepsCount(h: Host, e: Event)
    requires Counted(h) && HostOk(h) && h.queue != [] && !Judge(h.queue[0].data, e.status).Abort?
    ensures Counted(Serve(h, e))
  {
    hide Judge, Has, Capture, QueueOk, MoveBlock;
    if Has(e.status, BRR | BWR) { JudgeNeedsBuffer(h.queue[0].data, e.status); }
    MoveCountsOne(h, e);
  }

  lemma MoveCountsOne(h: Host, e: Event)
    requires HostOk(h) && h.queue != []
    requires Has(e.status, BRR | BWR) ==> h.queue[0].data.Some? && h.queue[0].data.value.vbuf != 0
    ensures Has(e.status, BRR | BWR) && h.blocksRemaining != 0 ==>
              MoveBlock(h, e).blocksRemaining == h.blocksRemaining - 1
    ensures !Has(e.status, BRR | BWR) || h.blocksRemaining == 0 ==> MoveBlock(h, e) == h
  {
    hide Has, Bytes, Words, PortWords, PortWrites, Splice, HostOk, CmdOk, QueueOk, WordCount, ByteOf, WordAt;
  }

  lemma ReportsSnoc(fs: seq<Finished>, f: Finished)
    ensures Reports(fs + [f]) == Reports(fs) + Report(f.cmd)
  {
    assert (fs + [f])[..|fs|] == fs;
  }

  /** Unlinking the head and starting its successor. */
  lemma RetireKeepsOrder(h: Host, f: Finished)
    requires InOrder(h) && HostOk(h) && h.queue != [] && f.cmd == h.queue[0] && Coded(f)
    ensures InOrder(Retire(h, f))
  {
    hide OnBus, Wires, Reports, Report, Issue, CmdOk, Coded;
    var h1 := h.(queue := h.queue[1..], finished := h.finished + [f]);
    if h1.queue != [] {
      IssueKeepsOrder(h1);
      IssueIsQuiet(h1);
    }
    ReportsSnoc(h.finished, f);
  }

  /** The code of a completion is that of its status word. */
  lemma CompletionIsCoded(h: Host, e: Event)
    requires HostOk(h) && Counted(h) && h.queue != [] && Judge(h.queue[0].data, e.status).Done?
    ensures Coded(Completion(h, e))
  {
    hide Judge, ErrorCode, Capture, Serve;
    assert CmdOk(h.queue[0], |h.ram|);
    JudgeCode(h.queue[0].data, e.status);
    ServeKeepsCount(h, e);
  }

  lemma JudgeCode(data: Option<Data>, s: bv32)
    ensures Judge(data, s).Done? ==> Judge(data, s).code == if ErrorCode(s) != 0 then ErrorCode(s) else 1
  {
    hide Has, ErrorCode;
  }

  lemma InOrderCounts(h: Host)
    requires InOrder(h)
    ensures Counted(h)
  {
  }

  lemma FinishKeepsOrder(h: Host, e: Event)
    requires InOrder(h) && HostOk(h) && h.queue != [] && Judge(h.queue[0].data, e.status).Done?
    ensures InOrder(Finish(h, e)) && Grows(h, Finish(h, e))
  {
    hide InOrder, Judge, Capture, Serve, Retire, Coded;
    ServeKeepsOrder(h, e);
    InOrderCounts(h);
    CompletionIsCoded(h, e);
    RetireKeepsOrder(Serve(h, e), Completion(h, e));
  }

  // The handler, the calls of callbacks and the polling loops call one another, and so do the proofs.

  lemma {:induction false} IrqKeepsOrder(h: Host, e: Event)
    requires InOrder(h) && HostOk(h) && EventOk(e, |h.ram|)
    ensures Onward(h, Irq(h, e))
    decreases e
  {
    hide InOrder, Judge, Serve, Finish, MakeCalls, QueueOk;
    if h.queue == [] {
      IdleKeepsOrder(h, e);
    } else {
      match Judge(h.queue[0].data, e.status)
      case Abort =>
      case Running => ServeKeepsOrder(h, e);
      case Done(_) =>
        FinishKeepsOrder(h, e);
        if !h.queue[0].cb.NoCallback? {
          CallsKeepOrder(Finish(h, e), e.calls);
        }
    }
  }

  lemma IdleKeepsOrder(h: Host, e: Event)
    requires InOrder(h)
    ensures InOrder(h.(log := h.log + [IntStatus(e.status)]))
  {
    hide OnBus, Wires, Reports, Wire, Start, LatchedAfter, Coded;
    OnBusAppend(h.log, IntStatus(e.status));
  }

  lemma {:induction false} CallsKeepOrder(h: Host, cs: seq<Call>)
    requires InOrder(h) && HostOk(h) && CallsOk(cs, |h.ram|)
    ensures Onward(h, MakeCalls(h, cs))
    decreases cs
  {
    hide InOrder, MakeCall, CallOk, QueueOk;
    if cs != [] {
      CallKeepsOrder(h, cs[0]);
      if MakeCall(h, cs[0]).Next? {
        CallsKeepOrder(MakeCall(h, cs[0]).host, cs[1..]);
      }
    }
  }

  lemma {:induction false} CallKeepsOrder(h: Host, c: Call)
    requires InOrder(h) && HostOk(h) && CallOk(c, |h.ram|)
    ensures Onward(h, MakeCall(h, c))
    decreases c
  {
    hide InOrder, Send, Poll, ScriptOk, CmdOk, QueueOk;
    if Sends(c).Some? {
      var h1 := Send(h, Sends(c).value);
      SendKeepsOrder(h, Sends(c).value);
      if Sends(c).value.cb.NoCallback? {
        PollKeepsOrder(h1, |h.submitted|, c.script);
      }
    }
  }

  lemma {:induction false} PollKeepsOrder(h: Host, n: nat, script: seq<Event>)
    requires InOrder(h) && HostOk(h) && ScriptOk(script, |h.ram|)
    ensures var w := Poll(h, n, script); w.Returned? ==> InOrder(w.host) && Grows(h, w.host)
    decreases script
  {
    hide InOrder, Irq, EventOk, QueueOk;
    if |h.finished| <= n && script != [] {
      PollUnrolled(h, n, script);
      IrqKeepsOrder(h, script[0]);
      if Irq(h, script[0]).Next? {
        PollKeepsOrder(Irq(h, script[0]).host, n, script[1..]);
      }
    }
  }

  lemma StepKeepsOrder(h: Host, a: Action)
    requires InOrder(h) && HostOk(h) && ActionOk(a, |h.ram|)
    ensures Onward(h, Step(h, a))
  {
    hide InOrder, Irq, Send, CmdOk, EventOk, QueueOk;
    match a
    case Submit(c) => SendKeepsOrder(h, c);
    case Interrupt(e) => IrqKeepsOrder(h, e);
  }

  /** In every run, from the state `sdhc_init` leaves, submission order is kept throughout. */
  lemma {:induction false} RunsKeepOrder(h: Host, actions: seq<Action>)
    requires InOrder(h) && HostOk(h) && forall i :: 0 <= i < |actions| ==> ActionOk(actions[i], |h.ram|)
    ensures Onward(h, Exec(h, actions))
    decreases |actions|
  {
    hide InOrder, ActionOk, Step, QueueOk;
    if actions != [] {
      StepKeepsOrder(h, actions[0]);
      if Step(h, actions[0]).Next? {
        RunsKeepOrder(Step(h, actions[0]).host, actions[1..]);
      }
    }
  }

  /** The state `sdhc_init` leaves. */
  function Initial(blocks: int, sysCtrl: bv32, ram: seq<byte>): (h: Host)
    ensures HostOk(h)
  {
    Host([], blocks, sysCtrl, ram, [], [], [], [])
  }

  lemma InitialIsInOrder(blocks: int, sysCtrl: bv32, ram: seq<byte>)
    ensures InOrder(Initial(blocks, sysCtrl, ram))
  {
  }

  /** The same, said of the bus: what has been started is exactly the first submissions, in order and
      each once; all of them but at most one have completed; completions and callback reports come in
      that order too. */
  lemma BusFollowsSubmissions(blocks: int, sysCtrl: bv32, ram: seq<byte>, actions: seq<Action>)
    requires forall i :: 0 <= i < |actions| ==> ActionOk(actions[i], |ram|)
    ensures
      var end := Exec(Initial(blocks, sysCtrl, ram), actions);
      end.Next? ==>
        var h := end.host;
        var bus := OnBus(h.log);
        && bus <= Wires(h.submitted)
        && |h.finished| <= |bus| <= |h.finished| + 1
        && (|bus| == |h.finished| ==> |h.finished| == |h.submitted|)
        && (forall i :: 0 <= i < |h.finished| ==> Same(h.finished[i].cmd, h.submitted[i]))
        && h.notices == Reports(h.finished)
  {
    hide OnBus, Wire, Exec;
    InitialIsInOrder(blocks, sysCtrl, ram);
    RunsKeepOrder(Initial(blocks, sysCtrl, ram), actions);
  }

  // ---------------------------------------------------------------- what callbacks are told

  /** Where the report on the `i`th completion stands. */
  function Position(fs: seq<Finished>, i: nat): nat
    requires i < |fs|
  {
    |Reports(fs[..i])|
  }

  lemma {:induction false} ReportStands(fs: seq<Finished>, i: nat)
    requires i < |fs| && |Report(fs[i].cmd)| == 1
    ensures Position(fs, i) < |Reports(fs)| && Reports(fs)[Position(fs, i)] == Report(fs[i].cmd)[0]
    decreases |fs|
  {
    hide Report;
    var init := fs[..|fs| - 1];
    if i == |fs| - 1 {
      assert fs[..i] == init;
    } else {
      assert init[..i] == fs[..i];
      ReportStands(init, i);
    }
  }

  /** Whatever the completion codes of a run, every callback is told of success. */
  lemma CallbacksHearSuccess(h: Host, actions: seq<Action>)
    requires h.notices == [] && h.finished == [] && InOrder(h) && HostOk(h)
    requires forall i :: 0 <= i < |actions| ==> ActionOk(actions[i], |h.ram|)
    ensures Exec(h, actions).Next? ==>
              forall i :: 0 <= i < |Exec(h, actions).host.notices| ==> Exec(h, actions).host.notices[i].stat == 0
  {
    hide Exec, Report;
    RunsKeepOrder(h, actions);
    if Exec(h, actions).Next? {
      ReportsSucceed(Exec(h, actions).host.finished);
    }
  }

  lemma {:induction false} ReportsSucceed(fs: seq<Finished>)
    ensures forall i :: 0 <= i < |Reports(fs)| ==> Reports(fs)[i].stat == 0
  {
    if fs != [] {
      ReportsSucceed(fs[..|fs| - 1]);
    }
  }

  /** The bytes of its buffer that a completed command has transferred. Every block the driver moves goes
      through the same place in memory; under DMA a controller that reports no error has moved all. */
  function BytesMoved(f: Finished): int
    requires f.cmd.data.Some?
  {
    var d := f.cmd.data.value;
    if d.pbuf != 0 then (if f.code == 1 then d.blockSize * d.blocks else 0)
    else if f.moved > 0 then d.blockSize else 0
  }

  /** The report says what happened: success iff the command succeeded, and for a block transfer the bytes
      of the client's buffer that were transferred. */
  predicate Truthful(n: Notice, f: Finished) {
    && (n.stat == 0 <==> f.code == 1)
    && (f.cmd.cb.BlockOpCallback? && f.cmd.data.Some? ==> n.bytes == BytesMoved(f))
  }

  /** The whole buffer has been transferred: by DMA, or as the one block it is. */
  predicate Delivered(f: Finished)
    requires f.cmd.data.Some?
  {
    var d := f.cmd.data.value;
    d.pbuf != 0 || d.blocks == 0 || (d.blocks == 1 && f.moved == 1)
  }

  /** Over all runs, the report on a completion is truthful exactly when the status word that completed the
      command had no error in it and, for a block transfer, the whole buffer was transferred. */
  lemma TruthfulIffDelivered(h: Host, actions: seq<Action>, i: nat)
    requires InOrder(h) && HostOk(h) && forall k :: 0 <= k < |actions| ==> ActionOk(actions[k], |h.ram|)
    requires Exec(h, actions).Next? && i < |Exec(h, actions).host.finished|
    requires !Exec(h, actions).host.finished[i].cmd.cb.NoCallback?
    ensures
      var h1, f := Exec(h, actions).host, Exec(h, actions).host.finished[i];
      && Position(h1.finished, i) < |h1.notices| && (f.cmd.cb.BlockOpCallback? ==> f.cmd.data.Some?)
      && h1.notices[Position(h1.finished, i)].cb == f.cmd.cb
      && (Truthful(h1.notices[Position(h1.finished, i)], f) <==>
            ErrorCode(f.status) == 0 && (f.cmd.cb.BlockOpCallback? ==> Delivered(f)))
  {
    hide Exec, ErrorCode, OnBus, Reports, Position, Truthful, Delivered;
    RunsKeepOrder(h, actions);
    var fs := Exec(h, actions).host.finished;
    assert Coded(fs[i]);
    ReportStands(fs, i);
    ReportTruthful(fs[i]);
  }

  lemma ReportTruthful(f: Finished)
    requires Coded(f) && !f.cmd.cb.NoCallback?
    ensures |Report(f.cmd)| == 1 && Report(f.cmd)[0].cb == f.cmd.cb
    ensures Truthful(Report(f.cmd)[0], f) <==> ErrorCode(f.status) == 0 && (f.cmd.cb.BlockOpCallback? ==> Delivered(f))
  {
    hide ErrorCode;
    ErrorIsNegative(f.status);
  }

  /** There is one report for each completed command that has a callback, and none for the others. */
  lemma {:induction false} OneReportEach(fs: seq<Finished>)
    requires forall i :: 0 <= i < |fs| ==> Coded(fs[i])
    ensures |Reports(fs)| == |WithCallback(fs)|
  {
    hide Coded;
    if fs != [] {
      OneReportEach(fs[..|fs| - 1]);
      ReportCount(fs[|fs| - 1]);
    }
  }

  function WithCallback(fs: seq<Finished>): seq<Finished> {
    if fs == [] then []
    else WithCallback(fs[..|fs| - 1]) + if fs[|fs| - 1].cmd.cb.NoCallback? then [] else [fs[|fs| - 1]]
  }

  lemma ReportCount(f: Finished)
    requires Coded(f)
    ensures |Report(f.cmd)| == if f.cmd.cb.NoCallback? then 0 else 1
  {
  }

  /** A handler call on a command without data writes back the status it read, and touches nothing else before
      it looks at completion; then only the start of the successor is written. */
  lemma PlainCommandsOnlyAcknowledge(h: Host, e: Event)
    requires HostOk(h) && h.queue != [] && h.queue[0].data.None? && !Judge(h.queue[0].data, e.status).Abort?
    ensures
      var r := Serve(h, e);
      r.log == h.log + [IntStatus(e.status)] && r.ram == h.ram && r.blocksRemaining == h.blocksRemaining
  {
    hide Has, Judge, Capture;
    if Has(e.status, BRR | BWR) { JudgeNeedsBuffer(h.queue[0].data, e.status); }
  }

  lemma FinishStartsSuccessor(h: Host, e: Event)
    requires HostOk(h) && h.queue != [] && Judge(h.queue[0].data, e.status).Done?
    ensures
      var r, s := Serve(h, e), Finish(h, e);
      && (|h.queue| == 1 ==> s.log == r.log)
      && (|h.queue| > 1 ==> s.log == r.log + IssueWrites(h.queue[1], r.sysCtrl))
      && s.ram == r.ram
  {
    hide Judge, Serve, IssueWrites;
  }

  /** The count of blocks is that of the copies: a handler call on a running command moves one block between
      buffer and port, when a buffer-ready bit shows and blocks remain, and then counts one; or it moves and
      counts nothing. */
  lemma CopiesAreCounted(h: Host, e: Event)
    requires HostOk(h) && h.queue != [] && h.queue[0].data.Some? && !Judge(h.queue[0].data, e.status).Abort?
    ensures
      var d, r := h.queue[0].data.value, Serve(h, e);
      var words := (d.blockSize + 3) / 4;
      var counted := BlocksMoved(Some(d), r.blocksRemaining) - BlocksMoved(Some(d), h.blocksRemaining);
      if e.status & 0x0000_0030 == 0 || h.blocksRemaining == 0 then
        counted == 0 && r.ram == h.ram && r.log == h.log + [IntStatus(e.status)]
      else
        && counted == 1 && d.vbuf + 4 * words <= |h.ram|
        && if e.status & 0x0000_0020 != 0 then
             && r.ram == Splice(h.ram, d.vbuf, Bytes(PortWords(e, words)))
             && r.log == h.log + [IntStatus(e.status)]
           else
             && r.ram == h.ram
             && r.log == h.log + PortWrites(Words(h.ram, d.vbuf, words)) + [IntStatus(e.status)]
  {
    hide Has, Judge, Capture, Splice, Bytes, PortWords, PortWrites, Words;
    assert CmdOk(h.queue[0], |h.ram|);
    BufferBits(e.status);
    if Has(e.status, BRR | BWR) { JudgeNeedsBuffer(h.queue[0].data, e.status); }
  }

  /** Bit 5 asks for a read from the data port, bit 4 for a write to it. */
  lemma BufferBits(s: bv32)
    ensures Has(s, BRR | BWR) == (s & 0x0000_0030 != 0) && Has(s, BRR) == (s & 0x0000_0020 != 0)
    ensures Has(s, BWR) == (s & 0x0000_0010 != 0)
  {
  }

  lemma JudgeNeedsBuffer(data: Option<Data>, s: bv32)
    requires !Judge(data, s).Abort? && Has(s, BRR | BWR)
    ensures data.Some? && data.value.vbuf != 0
  {
    hide Has;
  }

  lemma ErrorIsNegative(s: bv32)
    ensures ErrorCode(s) <= 0
  {
    hide Has;
  }

  /** A two-block read into memory is reported as 1024 bytes, and only 512 bytes of memory are written. */
  lemma TwoBlocksLandInOne(h: Host, c: Cmd, es: seq<Event>)
    requires HostOk(h) && h.queue == [] && CmdOk(c, |h.ram|) && c.cb.BlockOpCallback? && ScriptOk(es, |h.ram|)
    requires c.data.value.pbuf == 0 && c.data.value.vbuf != 0 && c.data.value.blocks == 2
    requires |es| == 3 && es[0].status == BRR && es[1].status == BRR && es[2].status == TC && es[2].calls == []
    ensures
      var r, v := Handled(Send(h, c), es), c.data.value.vbuf;
      && r.Next? && r.host.notices == h.notices + [Notice(BlockOpCallback, 0, 1024)]
      && v + 512 <= |h.ram| == |r.host.ram| && r.host.ram[v + 512..] == h.ram[v + 512..]
        && r.host.ram[..v] == h.ram[..v]
  {
    hide Has, Capture, ErrorCode, Serve, QueueOk, EventOk, Splice, Handled, Send, Unlink;
    PlainStatuses();
    SendStarts(h, c);
    var h0 := Send(h, c);
    var h1 := Serve(h0, es[0]);
    var h2 := Serve(h1, es[1]);
    HandledUnrolled(h0, es);
    HandledUnrolled(h1, es[1..]);
    HandledUnrolled(h2, es[2..]);
    assert es[1..][1..] == es[2..] && es[2..][1..] == [];
    CopiesAreCounted(h0, es[0]);
    CopiesAreCounted(h1, es[1]);
    CopiesAreCounted(h2, es[2]);
    NoCalls(Finish(h2, es[2]));
    HandledNothing(Finish(h2, es[2]));
    SpliceKeeps(h0.ram, c.data.value.vbuf, Bytes(PortWords(es[0], 128)));
    SpliceKeeps(h1.ram, c.data.value.vbuf, Bytes(PortWords(es[1], 128)));
  }

  /** A transfer that completes before its buffer was ever ready is reported as 512 bytes, and none moved. */
  lemma NothingMovesWithoutBufferReady(h: Host, c: Cmd, e: Event)
    requires HostOk(h) && h.queue == [] && CmdOk(c, |h.ram|) && c.cb.BlockOpCallback? && EventOk(e, |h.ram|)
    requires c.data.value.pbuf == 0 && c.data.value.vbuf != 0 && c.data.value.blocks == 1
    requires e.status == TC && e.calls == []
    ensures
      var r := Irq(Send(h, c), e);
      && r.Next? && r.host.notices == h.notices + [Notice(BlockOpCallback, 0, 512)] && r.host.ram == h.ram
      && |r.host.finished| == |h.finished| + 1 && r.host.finished[|h.finished|].moved == 0
  {
    hide Has, Capture, ErrorCode, Serve, QueueOk, EventOk, Splice, Send, Unlink;
    PlainStatuses();
    SendStarts(h, c);
    CopiesAreCounted(Send(h, c), e);
    NoCalls(Finish(Send(h, c), e));
  }

  lemma SendStarts(h: Host, c: Cmd)
    requires HostOk(h) && h.queue == [] && CmdOk(c, |h.ram|)
    ensures Send(h, c).queue == [c] && Send(h, c).notices == h.notices
    ensures c.data.Some? ==> Send(h, c).blocksRemaining == c.data.value.blocks
  {
  }

  lemma SpliceKeeps(m: seq<byte>, a: nat, b: seq<byte>)
    requires a + |b| <= |m|
    ensures Splice(m, a, b)[..a] == m[..a] && Splice(m, a, b)[a + |b|..] == m[a + |b|..]
  {
  }

  /** And a block transfer whose command timed out, code -2, is reported as 512 bytes moved. */
  lemma TimeoutIsReportedAsSuccess()
    ensures
      var c := Cmd(READ_SINGLE_BLOCK, 0, R1, Some(Data(1, 0, 0, 512, 1)), BlockOpCallback, [0, 0, 0, 0]);
      var h := Send(Initial(0, 0, seq(513, i => 0)), c);
      var r := Irq(h, Event(CTOE, [0, 0, 0, 0], [], []));
      && r.Next? && |r.host.finished| == 1 && r.host.finished[0].code == -2
      && r.host.notices == [Notice(BlockOpCallback, 0, 512)]
  {
    hide Issue, IssueWrites;
    var c := Cmd(READ_SINGLE_BLOCK, 0, R1, Some(Data(1, 0, 0, 512, 1)), BlockOpCallback, [0, 0, 0, 0]);
    var e := Event(CTOE, [0, 0, 0, 0], [], []);
    var h0 := Initial(0, 0, seq(513, i => 0));
    var h := Send(h0, c);
    TimeoutOnly();
    IssueIsQuiet(h0.(queue := [c], submitted := [c]));
    assert h.queue == [c] && CmdOk(c, |h.ram|);
    assert Judge(c.data, e.status) == Done(-2);
    assert Finish(h, e).queue == [] && Finish(h, e).notices == Report(Answered(c, e));
  }

  lemma TimeoutOnly()
    ensures ErrorCode(CTOE) == -2 && !Has(CTOE, BRR | BWR) && !Has(CTOE, TC) && !Has(CTOE, CC)
  {
  }

  // ---------------------------------------------------------------- a blocking send

  function Interrupts(es: seq<Event>): (actions: seq<Action>)
    ensures |actions| == |es| && forall i :: 0 <= i < |es| ==> actions[i] == Interrupt(es[i])
  {
    seq(|es|, i requires 0 <= i < |es| => Interrupt(es[i]))
  }

  /** The handler called once for each event. */
  function Handled(h: Host, es: seq<Event>): (r: Ending)
    requires HostOk(h) && ScriptOk(es, |h.ram|)
    ensures r.Next? ==> HostOk(r.host) && |r.host.ram| == |h.ram|
  {
    Exec(h, Interrupts(es))
  }

  lemma HandledUnrolled(h: Host, es: seq<Event>)
    requires HostOk(h) && ScriptOk(es, |h.ram|) && es != []
    ensures EventOk(es[0], |h.ram|)
    ensures
      match Irq(h, es[0])
      case Crash => Handled(h, es) == Crash
      case Spin => Handled(h, es) == Spin
      case Next(h1) => Handled(h, es) == Handled(h1, es[1..])
  {
    hide Irq, EventOk;
    assert Interrupts(es)[1..] == Interrupts(es[1..]);
  }

  /** The polling loop is the run of the handler over the events it used up. It ends with the first of them
      after which command `n` has completed, and not later. */
  lemma {:induction false} PollIsARun(h: Host, n: nat, script: seq<Event>)
    requires HostOk(h) && ScriptOk(script, |h.ram|)
    ensures
      var w := Poll(h, n, script);
      w.Returned? ==>
        var used := |script| - |w.rest|;
        && w.rest == script[used..] && Handled(h, script[..used]) == Next(w.host)
        && n < |w.host.finished|
        && w.code == w.host.finished[n].code && w.response == w.host.finished[n].cmd.response
        && forall m :: 0 <= m < used ==> NotYet(h, n, script[..m])
    decreases |script|
  {
    hide Irq, Handled, EventOk, QueueOk, NotYet, Poll, HostOk;
    var w := Poll(h, n, script);
    if n < |h.finished| {
      PollDone(h, n, script);
      assert script[..0] == [];
      HandledNothing(h);
    } else if script == [] {
      PollOfNothing(h, n);
    } else if w.Returned? {
      PollUnrolled(h, n, script);
      var h1, used := Irq(h, script[0]).host, |script| - |w.rest|;
      PollIsARun(h1, n, script[1..]);
      assert script[..used][1..] == script[1..][..used - 1];
      HandledUnrolled(h, script[..used]);
      forall m | 0 <= m < used
        ensures NotYet(h, n, script[..m])
      {
        if m > 0 { assert script[..m][1..] == script[1..][..m - 1]; }
        NotYetUnrolled(h, n, script[..m]);
      }
    }
  }

  /** After these events command `n` has not completed. */
  predicate NotYet(h: Host, n: nat, es: seq<Event>)
    requires HostOk(h) && ScriptOk(es, |h.ram|)
  {
    Handled(h, es).Next? && |Handled(h, es).host.finished| <= n
  }

  lemma NotYetUnrolled(h: Host, n: nat, es: seq<Event>)
    requires HostOk(h) && ScriptOk(es, |h.ram|)
    ensures es != [] ==> EventOk(es[0], |h.ram|)
    ensures es == [] ==> NotYet(h, n, es) == (|h.finished| <= n)
    ensures es != [] && Irq(h, es[0]).Next? ==> NotYet(h, n, es) == NotYet(Irq(h, es[0]).host, n, es[1..])
  {
    hide Irq, EventOk, Handled;
    if es == [] { HandledNothing(h); } else { HandledUnrolled(h, es); }
  }

  lemma HandledNothing(h: Host)
    requires HostOk(h)
    ensures Handled(h, []) == Next(h)
  {
  }

  /** A blocking send returns exactly when its own command has completed: everything submitted before
      it has completed, in order, and code and response are its own. */
  lemma BlockingSendCompletes(h: Host, c: Cmd, script: seq<Event>)
    requires InOrder(h) && HostOk(h) && CmdOk(c, |h.ram|) && ScriptOk(script, |h.ram|)
    ensures
      var w, n := BlockingSend(h, c, script), |h.submitted|;
      w.Returned? ==>
        var used := |script| - |w.rest|;
        && InOrder(w.host) && h.submitted + [c] <= w.host.submitted && h.finished <= w.host.finished
        && n < |w.host.finished|
        && (forall i :: 0 <= i < n ==> Same(w.host.finished[i].cmd, h.submitted[i]))
        && Same(w.host.finished[n].cmd, c)
        && w.code == w.host.finished[n].code && w.response == w.host.finished[n].cmd.response
        && Handled(Send(h, c), script[..used]) == Next(w.host)
        && forall m :: 0 <= m < used ==> NotYet(Send(h, c), n, script[..m])
  {
    hide InOrder, Send, Poll, Handled, NotYet, CmdOk, ScriptOk, QueueOk;
    SendKeepsOrder(h, c);
    PollKeepsOrder(Send(h, c), |h.submitted|, script);
    PollIsARun(Send(h, c), |h.submitted|, script);
    var w := BlockingSend(h, c, script);
    if w.Returned? {
      InOrderSame(w.host);
    }
  }

  lemma InOrderSame(h: Host)
    requires InOrder(h)
    ensures |h.finished| <= |h.submitted|
    ensures forall i :: 0 <= i < |h.finished| ==> Same(h.finished[i].cmd, h.submitted[i])
  {
  }

  // ---------------------------------------------------------------- what callbacks do

  /** The commands a call asks for: its own, or that of a transfer for which there is memory. */
  function Asked(c: Call): seq<Cmd>
    requires c.Block? ==> c.transfer.nblocks < 0x40_0000
  {
    match c
    case Own(cmd, _) => [cmd]
    case Block(highCapacity, t, cb, a, _) =>
      if a.cmd && a.data && (cb.NoCallback? || a.token) then [TransferCmd(t, highCapacity, cb, a.garbage)] else []
  }

  function AskedBy(cs: seq<Call>): seq<Cmd>
    requires forall i :: 0 <= i < |cs| ==> cs[i].Block? ==> cs[i].transfer.nblocks < 0x40_0000
  {
    if cs == [] then [] else Asked(cs[0]) + AskedBy(cs[1..])
  }

  predicate Blocks(c: Call) {
    match c
    case Own(cmd, _) => cmd.cb.NoCallback?
    case Block(_, _, cb, _, _) => cb.NoCallback?
  }

  /** A call that came back has submitted its command, after all others; and when it blocked its command has
      completed. */
  lemma CallIsMade(h: Host, c: Call)
    requires InOrder(h) && HostOk(h) && CallOk(c, |h.ram|) && MakeCall(h, c).Next?
    ensures
      var r := MakeCall(h, c).host;
      && h.submitted + Asked(c) <= r.submitted
      && (!Blocks(c) ==>
            r.submitted == h.submitted + Asked(c) && r.queue == h.queue + Asked(c) && r.finished == h.finished)
      && (Blocks(c) && Asked(c) != [] ==>
            |h.submitted| < |r.finished| && Same(r.finished[|h.submitted|].cmd, Asked(c)[0]))
  {
    hide InOrder, Send, BlockingSend, CmdOk, ScriptOk, QueueOk, Handled;
    if Blocks(c) && Asked(c) != [] {
      BlockingSendCompletes(h, Asked(c)[0], c.script);
    }
  }

  /** A callback that does not block submits all it asks for, in order, and waits for nothing. */
  lemma {:induction false} CallsAreMade(h: Host, cs: seq<Call>)
    requires InOrder(h) && HostOk(h) && CallsOk(cs, |h.ram|) && forall i :: 0 <= i < |cs| ==> !Blocks(cs[i])
    ensures
      var r := MakeCalls(h, cs);
      && (forall i :: 0 <= i < |cs| ==> cs[i].Block? ==> cs[i].transfer.nblocks < 0x40_0000)
      && r.Next? && r.host.submitted == h.submitted + AskedBy(cs) && r.host.queue == h.queue + AskedBy(cs)
      && r.host.finished == h.finished
    decreases |cs|
  {
    hide InOrder, Send, CmdOk, ScriptOk, QueueOk, BlockingSend;
    if cs != [] {
      assert CallOk(cs[0], |h.ram|) && !Blocks(cs[0]);
      CallIsMade(h, cs[0]);
      CallKeepsOrder(h, cs[0]);
      CallsAreMade(MakeCall(h, cs[0]).host, cs[1..]);
    }
  }

  /** When the head completes its callback is called: it may submit, behind all that is queued; without a
      callback nothing is submitted. */
  lemma CompletionCallsBack(h: Host, e: Event)
    requires InOrder(h) && HostOk(h) && EventOk(e, |h.ram|) && h.queue != [] && Judge(h.queue[0].data, e.status).Done?
    requires forall i :: 0 <= i < |e.calls| ==> !Blocks(e.calls[i])
    ensures
      var r := Irq(h, e);
      && (forall i :: 0 <= i < |e.calls| ==> e.calls[i].Block? ==> e.calls[i].transfer.nblocks < 0x40_0000)
      && r.Next? && |r.host.finished| == |h.finished| + 1
      && r.host.queue == h.queue[1..] + (if h.queue[0].cb.NoCallback? then [] else AskedBy(e.calls))
  {
    hide InOrder, Judge, QueueOk, MakeCalls, Serve, Blocks, CallOk;
    FinishKeepsOrder(h, e);
    CallsAreMade(Finish(h, e), e.calls);
  }

  // ---------------------------------------------------------------- termination

  /** The controller keeps up with a polling loop that waits for command `n`: the present head completes
      within `left` more of the events observed, and each later head within `bound` events of becoming
      head. Nothing is asked of an event but what it does to the head it meets. */
  predicate Prompt(h: Host, n: nat, script: seq<Event>, bound: nat, left: nat)
    requires HostOk(h) && ScriptOk(script, |h.ram|)
    decreases script, 0
  {
    |h.finished| <= n ==>
      && left > 0
      && (script != [] ==>
            && PromptIrq(h, script[0], bound)
            && match Irq(h, script[0])
               case Next(h1) => Prompt(h1, n, script[1..], bound,
                                       if |h1.finished| == |h.finished| then left - 1 else bound)
               case _ => true)
  }

  /** So it does with the polling loops that callbacks enter from this handler call. */
  predicate PromptIrq(h: Host, e: Event, bound: nat)
    requires HostOk(h) && EventOk(e, |h.ram|)
    decreases e
  {
    h.queue != [] && Judge(h.queue[0].data, e.status).Done? && !h.queue[0].cb.NoCallback? ==>
      PromptCalls(Finish(h, e), e.calls, bound)
  }

  predicate PromptCalls(h: Host, cs: seq<Call>, bound: nat)
    requires HostOk(h) && CallsOk(cs, |h.ram|)
    decreases cs
  {
    cs != [] ==>
      && PromptCall(h, cs[0], bound)
      && match MakeCall(h, cs[0])
         case Next(h1) => PromptCalls(h1, cs[1..], bound)
         case _ => true
  }

  /** Such a loop is observed for long enough. */
  predicate PromptCall(h: Host, c: Call, bound: nat)
    requires HostOk(h) && CallOk(c, |h.ram|)
    decreases c
  {
    Sends(c).Some? && Sends(c).value.cb.NoCallback? ==>
      PromptSend(h, Sends(c).value, c.script, bound)
  }

  predicate PromptSend(h: Host, c: Cmd, script: seq<Event>, bound: nat)
    requires HostOk(h) && CmdOk(c, |h.ram|) && ScriptOk(script, |h.ram|)
    decreases script, 1
  {
    bound * (|h.queue| + 1) <= |script| && Prompt(Send(h, c), |h.submitted|, script, bound, bound)
  }

  /** The polls allowed when the head has `left` events and `k` more commands are waited for. */
  function Budget(bound: nat, k: nat, left: nat): nat {
    left + bound * k
  }

  lemma BudgetSpent(bound: nat, k: nat, left: nat)
    requires left > 0
    ensures Budget(bound, k, left) == Budget(bound, k, left - 1) + 1
  {
  }

  lemma BudgetKept(bound: nat, k: nat, k1: nat, left: nat)
    requires left > 0 && k1 < k
    ensures Budget(bound, k1, bound) < Budget(bound, k, left)
  {
    MulUp(bound, k1 + 1, k);
    assert bound * (k1 + 1) == bound * k1 + bound;
  }

  lemma MulUp(b: nat, i: nat, j: nat)
    requires i <= j
    ensures b * i <= b * j
  {
    assert b * j == b * i + b * (j - i);
  }

  /** Each polling round decreases (commands ahead, events left for the head), and so the loop ends within
      `left + bound * k` rounds, whatever callbacks submit and wait for in the meantime. */
  lemma {:induction false} PollEnds(h: Host, n: nat, script: seq<Event>, bound: nat, left: nat)
    requires HostOk(h) && InOrder(h) && ScriptOk(script, |h.ram|) && |h.finished| <= n
    requires Prompt(h, n, script, bound, left) && Budget(bound, n - |h.finished|, left) <= |script|
    ensures Poll(h, n, script) != Waiting
    ensures
      var w := Poll(h, n, script);
      w.Returned? ==> |script| - |w.rest| <= Budget(bound, n - |h.finished|, left)
    decreases script, 0
  {
    hide Irq, Poll, PromptIrq, Budget, EventOk, QueueOk, InOrder;
    BudgetSpent(bound, n - |h.finished|, left);
    if script != [] {
      PollUnrolled(h, n, script);
      IrqKeepsOrder(h, script[0]);
      IrqEnds(h, script[0], bound);
      if Irq(h, script[0]).Next? {
        var h1 := Irq(h, script[0]).host;
        if n < |h1.finished| {
          PollDone(h1, n, script[1..]);
        } else if |h1.finished| == |h.finished| {
          PollEnds(h1, n, script[1..], bound, left - 1);
        } else {
          BudgetKept(bound, n - |h.finished|, n - |h1.finished|, left);
          PollEnds(h1, n, script[1..], bound, bound);
        }
      }
    }
  }

  /** The polling loops inside a handler call end too. */
  lemma {:induction false} IrqEnds(h: Host, e: Event, bound: nat)
    requires HostOk(h) && InOrder(h) && EventOk(e, |h.ram|) && PromptIrq(h, e, bound)
    ensures Irq(h, e) != Spin
    decreases e
  {
    hide InOrder, Judge, Serve, Finish, MakeCalls, QueueOk, PromptCalls;
    if h.queue != [] && Judge(h.queue[0].data, e.status).Done? && !h.queue[0].cb.NoCallback? {
      FinishKeepsOrder(h, e);
      CallsEnd(Finish(h, e), e.calls, bound);
    }
  }

  lemma {:induction false} CallsEnd(h: Host, cs: seq<Call>, bound: nat)
    requires HostOk(h) && InOrder(h) && CallsOk(cs, |h.ram|) && PromptCalls(h, cs, bound)
    ensures MakeCalls(h, cs) != Spin
    decreases cs
  {
    hide InOrder, MakeCall, CallOk, QueueOk, PromptCall;
    if cs != [] {
      CallEnds(h, cs[0], bound);
      CallKeepsOrder(h, cs[0]);
      if MakeCall(h, cs[0]).Next? {
        CallsEnd(MakeCall(h, cs[0]).host, cs[1..], bound);
      }
    }
  }

  lemma {:induction false} CallEnds(h: Host, c: Call, bound: nat)
    requires HostOk(h) && InOrder(h) && CallOk(c, |h.ram|) && PromptCall(h, c, bound)
    ensures MakeCall(h, c) != Spin
    decreases c
  {
    hide InOrder, BlockingSend, PromptSend, CmdOk, QueueOk;
    if Sends(c).Some? && Sends(c).value.cb.NoCallback? {
      BlockingSendEnds(h, Sends(c).value, c.script, bound);
    }
  }

  /** A blocking send terminates: when each head completes within `bound` events of becoming head, a
      command behind `|queue|` others returns, or the component stops on an assertion, within
      `bound * (|queue| + 1)` polls. */
  lemma {:induction false} BlockingSendEnds(h: Host, c: Cmd, script: seq<Event>, bound: nat)
    requires HostOk(h) && InOrder(h) && CmdOk(c, |h.ram|) && ScriptOk(script, |h.ram|)
    requires PromptSend(h, c, script, bound)
    ensures BlockingSend(h, c, script) != Waiting
    ensures var w := BlockingSend(h, c, script); w.Returned? ==> |script| - |w.rest| <= bound * (|h.queue| + 1)
    decreases script, 1
  {
    hide InOrder, Prompt, Poll, QueueOk, CmdOk, ScriptOk;
    SendKeepsOrder(h, c);
    assert Budget(bound, |h.queue|, bound) == bound * (|h.queue| + 1);
    PollEnds(Send(h, c), |h.submitted|, script, bound, bound);
  }

  /** For instance a command without data and a block read behind it: the first completes with its response,
      the second in three events, and though no event completes both kinds the loop ends. */
  lemma UnlikeCommandsArePrompt(h: Host, script: seq<Event>)
    requires HostOk(h) && |h.queue| == 2 && ScriptOk(script, |h.ram|)
    requires h.queue[0].data.None? && h.queue[0].cb.NoCallback? && h.queue[1].cb.NoCallback?
    requires h.queue[1].data.Some? && h.queue[1].data.value.vbuf != 0
    requires |script| == 4 && script[0].status == CC && script[1].status == CC
    requires script[2].status == BRR && script[3].status == TC
    ensures Prompt(h, |h.finished| + 1, script, 3, 3)
  {
    hide Has, Serve, Unlink, Capture, ErrorCode, PromptCalls, QueueOk, CallsOk;
    PlainStatuses();
    var h1 := Finish(h, script[0]);
    var h2 := Serve(h1, script[1]);
    var h3 := Serve(h2, script[2]);
    var h4 := Finish(h3, script[3]);
    var n, s1, s2, s3 := |h.finished| + 1, script[1..], script[2..], script[3..];
    assert s1[0] == script[1] && s2[0] == script[2] && s3[0] == script[3];
    assert s1[1..] == s2 && s2[1..] == s3 && s3[1..] == [];
    assert Prompt(h4, n, [], 3, 3);
    assert Prompt(h3, n, s3, 3, 1);
    assert Prompt(h2, n, s2, 3, 2);
    assert Prompt(h1, n, s1, 3, 3);
  }

  lemma PlainStatuses()
    ensures Has(CC, CC) && !Has(CC, TC) && !Has(CC, BRR | BWR) && ErrorCode(CC) == 0
    ensures !Has(BRR, CC) && !Has(BRR, TC) && Has(BRR, BRR | BWR) && ErrorCode(BRR) == 0
    ensures !Has(TC, CC) && Has(TC, TC) && !Has(TC, BRR | BWR) && ErrorCode(TC) == 0
  {
  }
}
