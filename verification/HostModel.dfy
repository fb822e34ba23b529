/**
 The host controller driver as a state machine over values: the specification the linked structure
 in HostController.dfy is proved against, and the place where whole runs are reasoned about.

 A call of the interrupt handler is driven by an `Event`: what the controller shows to that one call
 (the status word, the response registers, the words its data port delivers), together with the calls
 that the callback of a command completed by it makes into the driver when it re-enters. Such a call
 may start a transfer of the block layer, and it may block: then it polls the handler itself, on events
 of its own. Every result quantifies over all events.
 */
module HostModel {
  import opened Base
  import opened Registers

  // ---------------------------------------------------------------- commands

  type Response = s: seq<u32> | |s| == 4 witness [0, 0, 0, 0]

  /** Who is called back on completion: nobody (the sender blocks), a client, the block layer. */
  datatype Callback = NoCallback | ClientCallback | BlockOpCallback

  datatype Cmd = Cmd(index: bv32, arg: u32, rsp: RspType, data: Option<Data>, cb: Callback, response: Response)

  function WordCount(d: Data): nat {
    (d.blockSize + 3) / 4
  }

  /** What the driver demands of a submitted command: its buffer has room for a block. The block layer's
      completion is called back for the block layer's transfers only. */
  predicate CmdOk(c: Cmd, ramSize: nat) {
    && (c.data.Some? && c.data.value.vbuf != 0 ==> c.data.value.vbuf + 4 * WordCount(c.data.value) <= ramSize)
    && (c.cb.BlockOpCallback? ==>
          c.data.Some? && c.data.value.blockSize == BLOCK_SIZE && c.data.value.blocks < 0x40_0000)
  }

  // ---------------------------------------------------------------- transfers of the block layer

  const BLOCK_SIZE := 512

  /** The command argument: the block number, or for a card of standard capacity the byte address, cut
      to 32 bits. */
  function TransferArg(highCapacity: bool, start: nat): u32 {
    if highCapacity then start % 0x1_0000_0000 else start * BLOCK_SIZE % 0x1_0000_0000
  }

  /** What the allocator does for a transfer: which requests it can satisfy, and what it leaves in a
      command's response array. */
  datatype Allocs = Allocs(cmd: bool, data: bool, token: bool, garbage: Response)

  /** A transfer of `nblocks` blocks. */
  datatype Transfer = Transfer(command: bv32, start: u64, nblocks: nat, vbuf: nat, pbuf: u64)

  function TransferData(t: Transfer): Data
    requires t.nblocks < 0x40_0000
  {
    Data(t.vbuf, t.pbuf, t.start % 0x1_0000_0000, BLOCK_SIZE, t.nblocks)
  }

  function TransferCmd(t: Transfer, highCapacity: bool, cb: Callback, garbage: Response): Cmd
    requires t.nblocks < 0x40_0000
  {
    Cmd(t.command, TransferArg(highCapacity, t.start), R1, Some(TransferData(t)), cb, garbage)
  }

  // ---------------------------------------------------------------- registers

  datatype BusWrite =
    | IntStatusEn(v: bv32)
    | CmdArg(arg: u32)
    | SysCtrl(v: bv32)
    | BlkAtt(attributes: u32)
    | DsAddr(addr: u32)
    | CmdXfrTyp(v: bv32)
    | DataPort(word: u32)
    | IntStatus(v: bv32)

  /** The register writes that put command `c` on the bus; the write of the transfer type starts it. */
  function IssueWrites(c: Cmd, sysCtrl: bv32): seq<BusWrite> {
    [IntStatusEn(EnabledInterrupts(c.data)), CmdArg(c.arg)]
    + (if c.data.Some? then DataWrites(c.data.value, sysCtrl) else [])
    + [CmdXfrTyp(XfrTyp(c.index, c.rsp, c.data))]
  }

  function DataWrites(d: Data, sysCtrl: bv32): seq<BusWrite> {
    [SysCtrl(WithDefaultTimeout(sysCtrl)), BlkAtt(BlockAttributes(d))]
    + (if d.pbuf != 0 then [DsAddr(d.pbuf % 0x1_0000_0000)] else [])
  }

  // ---------------------------------------------------------------- one handler call, judged

  datatype Event = Event(status: bv32, rsp: Response, port: seq<u32>, calls: seq<Call>)

  /** A call that a callback makes into the driver: a command of its own, or a block transfer. Without a
      callback the call blocks, and `script` is what its polling loop observes. */
  datatype Call =
    | Own(cmd: Cmd, script: seq<Event>)
    | Block(highCapacity: bool, transfer: Transfer, cb: Callback, allocs: Allocs, script: seq<Event>)

  predicate CallOk(c: Call, ramSize: nat) {
    && ScriptOk(c.script, ramSize)
    && match c
       case Own(cmd, _) => CmdOk(cmd, ramSize) && !cmd.cb.BlockOpCallback?
       case Block(highCapacity, t, cb, a, _) =>
         && t.nblocks < 0x40_0000 && !cb.ClientCallback?
         && CmdOk(TransferCmd(t, highCapacity, cb, a.garbage), ramSize)
  }

  predicate CallsOk(cs: seq<Call>, ramSize: nat) {
    forall i :: 0 <= i < |cs| ==> CallOk(cs[i], ramSize)
  }

  predicate EventOk(e: Event, ramSize: nat) {
    CallsOk(e.calls, ramSize)
  }

  predicate ScriptOk(script: seq<Event>, ramSize: nat) {
    forall i :: 0 <= i < |script| ==> EventOk(script[i], ramSize)
  }

  /** The error code a status word stands for, by precedence; 0 when it reports no error. */
  function ErrorCode(s: bv32): int {
    if Has(s, CRM) then -1
    else if Has(s, CTOE) then -2
    else if Has(s, CCE) then -3
    else if Has(s, CEBE) then -4
    else if Has(s, CIE) then -5
    else if Has(s, DTOE) then -6
    else if Has(s, DCE) then -7
    else if Has(s, DEBE) then -8
    else if Has(s, ADMAE) then -11
    else if Has(s, DMAE) then -1
    else if Has(s, AC12E) then -10
    else if Has(s, ERR) then -1
    else 0
  }

  /** What a code says about the bits of the status word: each error bit has its code, unless a bit that
      goes before it is set; bit 7 goes before all. */
  ghost predicate CodeSays(s: bv32, code: int) {
    && (code == -2 <==> s & 0x0001_0000 != 0 && s & 0x0000_0080 == 0)
    && (code == -3 <==> s & 0x0002_0000 != 0 && s & 0x0001_0080 == 0)
    && (code == -4 <==> s & 0x0004_0000 != 0 && s & 0x0003_0080 == 0)
    && (code == -5 <==> s & 0x0008_0000 != 0 && s & 0x0007_0080 == 0)
    && (code == -6 <==> s & 0x0010_0000 != 0 && s & 0x000f_0080 == 0)
    && (code == -7 <==> s & 0x0020_0000 != 0 && s & 0x001f_0080 == 0)
    && (code == -8 <==> s & 0x0040_0000 != 0 && s & 0x003f_0080 == 0)
    && (code == -11 <==> s & 0x0200_0000 != 0 && s & 0x007f_0080 == 0)
    && (code == -10 <==> s & 0x0100_0000 != 0 && s & 0x127f_0080 == 0)
    && (code == -1 <==>
          || s & 0x0000_0080 != 0
          || (s & 0x1000_0000 != 0 && s & 0x027f_0000 == 0)
          || (s & 0x0000_8000 != 0 && s & 0x137f_0000 == 0))
    && (code >= 0 <==> s & 0x137f_8080 == 0)
  }

  lemma CodeByBits(s: bv32)
    ensures CodeSays(s, ErrorCode(s)) && CodeSays(s, if ErrorCode(s) != 0 then ErrorCode(s) else 1)
  {
    CodeRange(s);
  }

  lemma CodeRange(s: bv32)
    ensures -11 <= ErrorCode(s) <= 0
  {
    hide Has;
  }

  datatype Verdict = Abort | Running | Done(code: int)

  /** What a status word means for the command at the head: it trips one of the handler's
      assertions, leaves the command running, or completes it. */
  function Judge(data: Option<Data>, s: bv32): Verdict {
    var pio := Has(s, BRR | BWR);
    var responded := Has(s, CC) && data.None?;
    var noBuffer := data.None? || data.value.vbuf == 0;
    if pio && noBuffer then Abort
    else if ErrorCode(s) != 0 && (responded || pio || Has(s, TC)) then Abort
    else if responded && Has(s, TC) then Abort
    else if ErrorCode(s) != 0 then Done(ErrorCode(s))
    else if responded || Has(s, TC) then Done(1)
    else Running
  }

  lemma DoneIsNonzero(data: Option<Data>, s: bv32)
    ensures Judge(data, s).Done? ==> Judge(data, s).code != 0
  {
    hide Has;
  }

  /** The code after the error bits and command-complete were looked at. */
  function CodeBeforeData(data: Option<Data>, s: bv32): int {
    if ErrorCode(s) != 0 then ErrorCode(s) else if Has(s, CC) && data.None? then 1 else 0
  }

  /** The verdict is what the handler's tests, made one after the other, arrive at. */
  lemma JudgeInOrder(data: Option<Data>, s: bv32)
    ensures
      var code := CodeBeforeData(data, s);
      var crash1 := Has(s, CC) && data.None? && ErrorCode(s) != 0;
      var crash2 := Has(s, BRR | BWR) && (data.None? || data.value.vbuf == 0 || code != 0);
      var crash3 := Has(s, TC) && code != 0;
      Judge(data, s) == if crash1 || crash2 || crash3 then Abort
                        else if Has(s, TC) then Done(1)
                        else if code != 0 then Done(code)
                        else Running
  {
    hide Has, ErrorCode;
  }

  /** The errors that are enabled and for which the handler has a code of their own. */
  predicate HasOwnCode(s: bv32) {
    || Has(s, CTOE) || Has(s, CCE) || Has(s, CEBE) || Has(s, CIE) || Has(s, DTOE) || Has(s, DCE) || Has(s, DEBE)
    || Has(s, ADMAE)
  }

  /** What the register can show while a command runs limits the codes: -10 is never reported; -1 means that
      the card was removed, or over-current and no error with a code of its own, which the handler, though
      it only logs over-current, sees through the summary bit. All other codes are those of the conditions
      themselves. A command that uses DMA is never asked to move data. */
  lemma VerdictUnderMask(data: Option<Data>, s: bv32)
    ensures
      var shown := Shown(EnabledInterrupts(data), s);
      && ErrorCode(shown) != -10
      && (ErrorCode(shown) == -1 <==> Has(s, CRM) || (Has(s, OVRCURE) && !HasOwnCode(s)))
      && (ErrorCode(shown) == 0 <==> !Has(s, CRM) && !Has(s, OVRCURE) && !HasOwnCode(s))
      && (Has(s, CRM) || HasOwnCode(s) ==> ErrorCode(shown) == ErrorCode(s))
      && (UsesDma(data) ==> !Has(shown, BRR | BWR))
      && (!UsesDma(data) && ErrorCode(shown) == ErrorCode(s) ==> Judge(data, shown) == Judge(data, s))
  {
    hide Has, Shown;
    ShownBits(data, s);
  }

  /** Over-current alone ends a transfer with the code of a card removal. */
  lemma OverCurrentLooksLikeRemoval(d: Data)
    ensures Judge(Some(d), Shown(EnabledInterrupts(Some(d)), OVRCURE)) == Done(-1)
            && !Has(Shown(EnabledInterrupts(Some(d)), OVRCURE), CRM)
  {
    hide Shown, Has;
    ShownBits(Some(d), OVRCURE);
    VerdictUnderMask(Some(d), OVRCURE);
    OverCurrentOnly();
  }

  lemma OverCurrentOnly()
    ensures Has(OVRCURE, OVRCURE) && !Has(OVRCURE, BRR | BWR)
    ensures forall bits :: bits in {ADMAE, DEBE, DCE, DTOE, CIE, CEBE, CCE, CTOE, CRM, TC, CC} ==> !Has(OVRCURE, bits)
  {
  }

  /** The response fields that command-complete fills in. */
  function Capture(c: Cmd, e: Event): Response {
    if !Has(e.status, CC) || c.rsp.NONE? then c.response
    else if c.rsp.R2? then e.rsp
    else if c.rsp.R1b? && c.index == STOP_TRANSMISSION then c.response[3 := e.rsp[3]]
    else c.response[0 := e.rsp[0]]
  }

  /** The `n` words read from the data port. */
  function PortWords(e: Event, n: nat): (ws: seq<u32>)
    ensures |ws| == n
  {
    seq(n, i requires 0 <= i < n => if i < |e.port| then e.port[i] else 0)
  }

  function PortWrites(ws: seq<u32>): (log: seq<BusWrite>)
    ensures |log| == |ws|
  {
    seq(|ws|, i requires 0 <= i < |ws| => DataPort(ws[i]))
  }

  // ---------------------------------------------------------------- the host

  /** What a callback reports to its client. */
  datatype Notice = Notice(cb: Callback, stat: int, bytes: nat)

  /** A command that has completed, with its code, the status word that completed it and the number of
      blocks that went through the data port while it ran. */
  datatype Finished = Finished(cmd: Cmd, code: int, status: bv32, moved: int)

  /** The blocks moved for a command that has started, when `remaining` are left. */
  function BlocksMoved(data: Option<Data>, remaining: int): int {
    if data.None? then 0 else data.value.blocks - remaining
  }

  /** The driver and what it shares with the outside, with the history of its commands: all those ever
      submitted and all those completed, in order. */
  datatype Host = Host(queue: seq<Cmd>, blocksRemaining: int, sysCtrl: bv32, ram: seq<byte>,
                       log: seq<BusWrite>, notices: seq<Notice>, submitted: seq<Cmd>, finished: seq<Finished>)

  predicate QueueOk(queue: seq<Cmd>, ramSize: nat) {
    forall i :: 0 <= i < |queue| ==> CmdOk(queue[i], ramSize)
  }

  predicate HostOk(h: Host) {
    QueueOk(h.queue, |h.ram|) && |h.submitted| == |h.finished| + |h.queue|
  }

  lemma QueueOkAppend(queue: seq<Cmd>, c: Cmd, ramSize: nat)
    requires QueueOk(queue, ramSize) && CmdOk(c, ramSize)
    ensures QueueOk(queue + [c], ramSize)
  {
  }

  /** Start the command at the head of the queue. */
  function Issue(h: Host): Host
    requires h.queue != []
  {
    var c := h.queue[0];
    h.(blocksRemaining := if c.data.Some? then c.data.value.blocks else h.blocksRemaining,
       sysCtrl := if c.data.Some? then WithDefaultTimeout(h.sysCtrl) else h.sysCtrl,
       log := h.log + IssueWrites(c, h.sysCtrl))
  }

  /** Append a command; start it when the controller is idle. */
  function Send(h: Host, c: Cmd): (r: Host)
    requires HostOk(h) && CmdOk(c, |h.ram|)
    ensures HostOk(r) && r.queue == h.queue + [c] && r.ram == h.ram
    ensures r.submitted == h.submitted + [c] && r.finished == h.finished
  {
    var h1 := h.(queue := h.queue + [c], submitted := h.submitted + [c]);
    if h.queue == [] then Issue(h1) else h1
  }

  /** The effect of buffer-ready bits: one block is moved while blocks remain. */
  function MoveBlock(h: Host, e: Event): (r: Host)
    requires HostOk(h) && h.queue != []
    requires Has(e.status, BRR | BWR) ==> h.queue[0].data.Some? && h.queue[0].data.value.vbuf != 0
    ensures HostOk(r) && r.queue == h.queue && |r.ram| == |h.ram| && r.notices == h.notices
    ensures r.submitted == h.submitted && r.finished == h.finished
  {
    if !Has(e.status, BRR | BWR) || h.blocksRemaining == 0 then h
    else
      var d := h.queue[0].data.value;
      assert CmdOk(h.queue[0], |h.ram|);
      var moved := h.(blocksRemaining := h.blocksRemaining - 1);
      if Has(e.status, BRR) then moved.(ram := Splice(h.ram, d.vbuf, Bytes(PortWords(e, WordCount(d)))))
      else moved.(log := h.log + PortWrites(Words(h.ram, d.vbuf, WordCount(d))))
  }

  /** The report of a completion callback. The handler always passes status 0. */
  function Report(c: Cmd): seq<Notice> {
    match c.cb
    case NoCallback => []
    case ClientCallback => [Notice(c.cb, 0, 0)]
    case BlockOpCallback =>
      if c.data.None? then [] else [Notice(c.cb, 0, c.data.value.blockSize * c.data.value.blocks % 0x1_0000_0000)]
  }

  /** Unlink the head, which completed as `f` says, and start the next command. */
  function Unlink(h: Host, f: Finished): (r: Host)
    requires HostOk(h) && h.queue != []
    ensures HostOk(r) && r.ram == h.ram && r.queue == h.queue[1..] && r.notices == h.notices
    ensures r.submitted == h.submitted && r.finished == h.finished + [f]
  {
    var h1 := h.(queue := h.queue[1..], finished := h.finished + [f]);
    if h1.queue == [] then h1 else Issue(h1)
  }

  /** Unlink the head and report. */
  function Retire(h: Host, f: Finished): (r: Host)
    requires HostOk(h) && h.queue != []
    ensures HostOk(r) && r.ram == h.ram && r.queue == h.queue[1..]
    ensures r.submitted == h.submitted && r.finished == h.finished + [f]
  {
    Unlink(h, f).(notices := h.notices + Report(h.queue[0]))
  }

  /** The head after the handler saved its response. */
  function Answered(c: Cmd, e: Event): Cmd {
    c.(response := Capture(c, e))
  }

  lemma HeadAnsweredOk(h: Host, e: Event)
    requires HostOk(h) && h.queue != []
    ensures HostOk(h.(queue := h.queue[0 := Answered(h.queue[0], e)]))
  {
    assert CmdOk(h.queue[0], |h.ram|);
  }

  /** Response, data and acknowledgement: everything the handler does before it unlinks. */
  function Serve(h: Host, e: Event): (r: Host)
    requires HostOk(h) && h.queue != [] && !Judge(h.queue[0].data, e.status).Abort?
    ensures HostOk(r) && |r.ram| == |h.ram| && r.queue == h.queue[0 := Answered(h.queue[0], e)]
    ensures r.submitted == h.submitted && r.finished == h.finished && r.notices == h.notices
  {
    var h1 := MoveBlock(h, e);
    assert CmdOk(h.queue[0], |h.ram|);
    h1.(queue := h.queue[0 := Answered(h.queue[0], e)], log := h1.log + [IntStatus(e.status)])
  }

  /** Moving data does not look at the saved response, so it may be saved first. */
  lemma ServeInOrder(h: Host, e: Event)
    requires HostOk(h) && h.queue != [] && !Judge(h.queue[0].data, e.status).Abort?
    ensures
      var h1 := h.(queue := h.queue[0 := Answered(h.queue[0], e)]);
      HostOk(h1) && Serve(h, e) == MoveBlock(h1, e).(log := MoveBlock(h1, e).log + [IntStatus(e.status)])
  {
    assert CmdOk(h.queue[0], |h.ram|);
  }

  // ---------------------------------------------------------------- handler, callbacks, blocking sends

  /** How a call into the driver ends: by a failed assertion, not within the events its polling loops
      observe, or with a state. */
  datatype Ending = Crash | Spin | Next(host: Host)

  /** The head served and retired, when the status word completes it. */
  function Finish(h: Host, e: Event): (r: Host)
    requires HostOk(h) && h.queue != [] && Judge(h.queue[0].data, e.status).Done?
    ensures HostOk(r) && |r.ram| == |h.ram| && r.queue == h.queue[1..] && r.submitted == h.submitted
    ensures r.finished == h.finished + [Completion(h, e)]
  {
    Retire(Serve(h, e), Completion(h, e))
  }

  /** How the head completes. */
  function Completion(h: Host, e: Event): Finished
    requires HostOk(h) && h.queue != [] && Judge(h.queue[0].data, e.status).Done?
  {
    Finished(Answered(h.queue[0], e), Judge(h.queue[0].data, e.status).code, e.status,
             BlocksMoved(h.queue[0].data, Serve(h, e).blocksRemaining))
  }

  /** What the callback of a completed command does. */
  function Calls(c: Cmd, e: Event): (cs: seq<Call>)
    ensures cs == [] || cs == e.calls
  {
    if c.cb.NoCallback? then [] else e.calls
  }

  /** One call of the interrupt handler. */
  function Irq(h: Host, e: Event): (r: Ending)
    requires HostOk(h) && EventOk(e, |h.ram|)
    ensures r.Next? ==> HostOk(r.host) && |r.host.ram| == |h.ram|
    decreases e
  {
    if h.queue == [] then Next(h.(log := h.log + [IntStatus(e.status)]))
    else
      match Judge(h.queue[0].data, e.status)
      case Abort => Crash
      case Running => Next(Serve(h, e))
      case Done(_) => if h.queue[0].cb.NoCallback? then Next(Finish(h, e)) else MakeCalls(Finish(h, e), e.calls)
  }

  /** The calls a callback makes, one after the other. */
  function MakeCalls(h: Host, cs: seq<Call>): (r: Ending)
    requires HostOk(h) && CallsOk(cs, |h.ram|)
    ensures r.Next? ==> HostOk(r.host) && |r.host.ram| == |h.ram|
    decreases cs
  {
    if cs == [] then Next(h)
    else
      match MakeCall(h, cs[0])
      case Crash => Crash
      case Spin => Spin
      case Next(h1) => MakeCalls(h1, cs[1..])
  }

  lemma NoCalls(h: Host)
    requires HostOk(h)
    ensures MakeCalls(h, []) == Next(h)
  {
  }

  /** One call: a transfer that lacks memory sends nothing. */
  function MakeCall(h: Host, c: Call): (r: Ending)
    requires HostOk(h) && CallOk(c, |h.ram|)
    ensures r.Next? ==> HostOk(r.host) && |r.host.ram| == |h.ram|
    decreases c
  {
    if Sends(c).None? then Next(h)
    else if !Sends(c).value.cb.NoCallback? then Next(Send(h, Sends(c).value))
    else
      match BlockingSend(h, Sends(c).value, c.script)
      case Crashed => Crash
      case Waiting => Spin
      case Returned(_, _, h1, _) => Next(h1)
  }

  /** The command a call submits, if it gets that far. */
  function Sends(c: Call): (r: Option<Cmd>)
    requires c.Block? ==> c.transfer.nblocks < 0x40_0000
  {
    match c
    case Own(cmd, _) => Some(cmd)
    case Block(highCapacity, t, cb, a, _) =>
      if Allocated(a, cb) then Some(TransferCmd(t, highCapacity, cb, a.garbage)) else None
  }

  /** A transfer needs a command and a data segment, and a token when it is asynchronous. */
  predicate Allocated(a: Allocs, cb: Callback) {
    a.cmd && a.data && (cb.NoCallback? || a.token)
  }

  datatype Wait = Crashed | Waiting | Returned(code: int, response: Response, host: Host, rest: seq<Event>)

  /** Poll the handler until the command submitted as number `n` has completed. `Waiting` means that the
      events observed so far did not complete it. */
  function Poll(h: Host, n: nat, script: seq<Event>): (w: Wait)
    requires HostOk(h) && ScriptOk(script, |h.ram|)
    ensures w.Returned? ==> HostOk(w.host) && |w.host.ram| == |h.ram| && |w.rest| <= |script|
    ensures w.Returned? ==> w.rest == script[|script| - |w.rest|..]
    decreases script, 0
  {
    if n < |h.finished| then Returned(h.finished[n].code, h.finished[n].cmd.response, h, script)
    else if script == [] then Waiting
    else
      match Irq(h, script[0])
      case Crash => Crashed
      case Spin => Waiting
      case Next(h1) => Poll(h1, n, script[1..])
  }

  function BlockingSend(h: Host, c: Cmd, script: seq<Event>): (w: Wait)
    requires HostOk(h) && CmdOk(c, |h.ram|) && ScriptOk(script, |h.ram|)
    ensures w.Returned? ==> HostOk(w.host) && |w.host.ram| == |h.ram| && ScriptOk(w.rest, |h.ram|)
    decreases script, 1
  {
    Poll(Send(h, c), |h.submitted|, script)
  }

  lemma PollDone(h: Host, n: nat, script: seq<Event>)
    requires HostOk(h) && ScriptOk(script, |h.ram|) && n < |h.finished|
    ensures Poll(h, n, script) == Returned(h.finished[n].code, h.finished[n].cmd.response, h, script)
  {
  }

  lemma PollOfNothing(h: Host, n: nat)
    requires HostOk(h) && |h.finished| <= n
    ensures Poll(h, n, []) == Waiting
  {
  }

  /** The polling loop, one round unrolled. */
  lemma PollUnrolled(h: Host, n: nat, script: seq<Event>)
    requires HostOk(h) && |h.finished| <= n && script != [] && ScriptOk(script, |h.ram|)
    ensures EventOk(script[0], |h.ram|)
    ensures
      match Irq(h, script[0])
      case Crash => Poll(h, n, script) == Crashed
      case Spin => Poll(h, n, script) == Waiting
      case Next(h1) => Poll(h, n, script) == Poll(h1, n, script[1..])
  {
    hide Irq;
  }

  /** A loop that waits uses an event. */
  lemma PollUsesEvents(h: Host, n: nat, script: seq<Event>)
    requires HostOk(h) && |h.finished| <= n && script != [] && ScriptOk(script, |h.ram|)
    ensures Poll(h, n, script).Returned? ==> |Poll(h, n, script).rest| < |script|
  {
    hide Irq, Poll, HostOk;
    PollUnrolled(h, n, script);
  }
}
