/**
 The host controller driver in its own form: an intrusive singly linked queue whose tail is the
 address of a slot, device registers, and the interrupt handler that drains the queue; with it the
 block layer's transfers, which completion callbacks may start when they re-enter the driver. Each
 method is proved against the state machine of HostModel. A method that touches a command requires
 it intact: no part of it has been freed.
 */
module HostController {
  import opened Base
  import opened Commands
  import opened HostModel
  import Memory
  import opened Registers

  /** The address of a link: the head field of the device or the `next` field of a command. */
  datatype Slot = HeadSlot | NextOf(cmd: Command)

  /** What a call may change of memory and queue: the heap, what hangs on the queue, what has completed,
      and the objects created for commands so far. */
  datatype Scene = Scene(live: set<object>, freed: set<object>, ties: seq<Tie>, queue: seq<Command>,
                         finished: seq<Finished>, born: set<object>)

  /** From `a` to `b` memory is kept: all that was on the heap and not in flight is there still, and what
      else is on it is in flight; freed was only what was in flight, and what has been created since;
      and whatever joined the queue is new. */
  ghost predicate Keeps(a: Scene, b: Scene) {
    && a.born <= b.born
    && b.live - InFlight(b.ties) == a.live - InFlight(a.ties)
    && b.freed <= a.freed + InFlight(a.ties) + (b.born - a.born)
    && (forall k :: 0 <= k < |b.ties| ==> b.ties[k] in a.ties || Uses(b.ties[k]) <= b.born - a.born)
    && (forall k :: 0 <= k < |b.queue| ==> b.queue[k] in a.queue || b.queue[k] in b.born - a.born)
  }

  /** The command submitted as number `n` is queued in scene `b`, or has completed, as recorded, and left
      the queue. */
  ghost predicate Progressed(cmd: Command, n: nat, b: Scene)
    reads cmd
  {
    if n < |b.finished| then cmd.Records(b.finished[n]) && cmd !in b.queue
    else n - |b.finished| < |b.queue| && b.queue[n - |b.finished|] == cmd
  }

  /** From `a` to `b` the first commands of the queue have completed and the others have moved up. */
  ghost predicate Drained(a: Scene, b: Scene)
    reads a.queue
  {
    a.finished <= b.finished && forall i :: 0 <= i < |a.queue| ==> Progressed(a.queue[i], |a.finished| + i, b)
  }

  lemma DrainedOn(a: Scene, b: Scene, c: Scene)
    requires Drained(a, b) && Drained(b, c) && Keeps(b, c)
    requires forall i :: 0 <= i < |a.queue| ==> a.queue[i] !in c.born - b.born
    ensures Drained(a, c)
  {
    hide Command.Records, InFlight, Uses;
    forall i | 0 <= i < |a.queue|
      ensures Progressed(a.queue[i], |a.finished| + i, c)
    {
      var n := |a.finished| + i;
      assert Progressed(a.queue[i], n, b);
      if n >= |b.finished| { assert Progressed(b.queue[n - |b.finished|], n, c); }
    }
  }

  /** It does not depend on memory. */
  lemma DrainedAlike(a: Scene, b: Scene)
    ensures forall ties, live, freed {:trigger Drained(a.(ties := ties), b.(live := live, freed := freed))} ::
              Drained(a, b) == Drained(a.(ties := ties), b.(live := live, freed := freed))
  {
  }

  lemma NothingKept(a: Scene)
    ensures Keeps(a, a) && Drained(a, a)
  {
  }

  lemma KeepsOn(a: Scene, b: Scene, c: Scene)
    requires Keeps(a, b) && Keeps(b, c)
    ensures Keeps(a, c)
  {
    hide InFlight, Uses;
    forall o | o in InFlight(b.ties)
      ensures o in InFlight(a.ties) + (b.born - a.born)
    {
      var k := InFlightOfOne(b.ties, o);
      if b.ties[k] in a.ties { InFlightFromOne(a.ties, b.ties[k], o); }
    }
  }

  /** Then the memory of a command that was unlinked before can be freed. */
  lemma KeepsReleased(a: Scene, b: Scene, t: Tie)
    requires Keeps(a, b) && Footprint(t) <= a.live && Footprint(t) !! InFlight(a.ties)
    requires (forall k :: 0 <= k < |a.ties| ==> Uses(a.ties[k]) !! Footprint(t)) && Footprint(t) !! b.born - a.born
    ensures Footprint(t) <= b.live && forall k :: 0 <= k < |b.ties| ==> Uses(b.ties[k]) !! Footprint(t)
    ensures Keeps(a.(ties := [t] + a.ties), b.(live := b.live - Footprint(t), freed := b.freed + Footprint(t)))
  {
    hide InFlight, Uses, Footprint;
    InFlightCons(t, a.ties);
    forall o | o in Footprint(t)
      ensures o in b.live - InFlight(b.ties)
    {
      assert o in a.live - InFlight(a.ties);
    }
    assert b.live - Footprint(t) - InFlight(b.ties) == a.live - InFlight(a.ties) - Footprint(t);
    assert a.live - InFlight(a.ties) - Footprint(t) == a.live - InFlight([t] + a.ties);
  }

  /** One more command is queued. */
  function Appended(a: Scene, t: Tie): Scene {
    a.(ties := a.ties + [t], queue := a.queue + [t.cmd])
  }

  /** Objects allocated for a command, and freed again. */
  lemma KeepsTransient(a: Scene, own: set<object>, b: Scene)
    requires Keeps(a.(live := a.live + own, born := a.born + own), b) && own !! a.live && own !! a.born
    ensures Keeps(a, b.(live := b.live - own, freed := b.freed + own))
  {
    hide InFlight, Uses;
    assert b.live - own - InFlight(b.ties) == a.live + own - InFlight(a.ties) - own;
    assert a.live + own - InFlight(a.ties) - own == a.live - InFlight(a.ties);
  }

  /** A command and its data segment. */
  ghost function Storage(c: Command): set<object>
    reads c`data
  {
    {c} + if c.data == null then {} else {c.data}
  }

  /** How a call into the driver ends. */
  datatype Outcome = Return(ret: int) | Died | StillPolling

  class SdhcDev {
    const heap: Memory.Heap
    const ram: array<byte>
    var head: Command?
    var tail: Slot
    var blocksRemaining: int
    var sysCtrl: bv32
    var log: seq<BusWrite>
    var notices: seq<Notice>
    // The queued commands, with what they stand for and the memory that hangs on them, and the history.
    ghost var queue: seq<Command>
    ghost var values: seq<Cmd>
    ghost var ties: seq<Tie>
    ghost var submitted: seq<Cmd>
    ghost var finished: seq<Finished>
    ghost var born: set<object>

    /** `head` leads through the queued commands, in order, to the null link that `tail` addresses. */
    ghost predicate Linked()
      reads this`queue, this`head, this`tail, queue`next
    {
      match tail
      case HeadSlot => queue == [] && head == null
      case NextOf(last) =>
        && queue != [] && head == queue[0] && last == queue[|queue| - 1] && last.next == null
        && (forall i, j :: 0 <= i < j < |queue| ==> queue[i] != queue[j])
        && (forall i {:trigger queue[i].next} :: 0 <= i < |queue| - 1 ==> queue[i].next == queue[i + 1])
    }

    ghost predicate Mirrored()
      reads this`queue, this`values, this`ties
      reads queue`index, queue`arg, queue`rsp, queue`data, queue`cb, queue`response
    {
      && |values| == |ties| == |queue|
      && (forall i :: 0 <= i < |queue| ==>
            values[i] == CmdValue(queue[i].index, queue[i].arg, queue[i].rsp, queue[i].data, queue[i].cb,
                                  queue[i].response))
      && (forall i :: 0 <= i < |queue| ==> ties[i] == Tie(queue[i], queue[i].data, queue[i].cb))
    }

    ghost predicate Pending()
      reads this`queue, queue`complete
    {
      forall i :: 0 <= i < |queue| ==> queue[i].complete == 0
    }

    /** The queue is in shape and mirrors the host, and no command in it has completed. */
    ghost predicate Steady()
      reads this, ram, queue
    {
      Linked() && Mirrored() && |values| == |queue| && HostOk(Abs()) && Pending()
    }

    ghost predicate Valid()
      reads this, heap, ram, queue
    {
      Steady() && heap.Valid() && Owned(ties, heap.live, heap.freed)
    }

    ghost function Abs(): Host
      reads this, ram
    {
      Host(values, blocksRemaining, sysCtrl, ram[..], log, notices, submitted, finished)
    }

    /** No part of the command has been freed. */
    ghost predicate Intact(cmd: Command)
      reads heap`freed, cmd`data
    {
      cmd !in heap.freed && (cmd.data != null ==> cmd.data !in heap.freed)
    }

    ghost predicate AllIntact()
      reads this`queue, heap`freed, queue`data
    {
      forall i :: 0 <= i < |queue| ==> Intact(queue[i])
    }

    lemma QueuedAreIntact()
      requires Mirrored() && Owned(ties, heap.live, heap.freed)
      ensures AllIntact()
    {
      forall i | 0 <= i < |queue|
        ensures Intact(queue[i])
      {
        assert OwnsMemory(ties[i], heap.live, heap.freed);
        assert ties[i] == Tie(queue[i], queue[i].data, queue[i].cb);
      }
    }

    /** No callback will free what a blocked sender waits for. */
    lemma SenderIsSafe(k: nat)
      requires Mirrored() && Owned(ties, heap.live, heap.freed) && k < |queue| && queue[k].cb.NoHandler?
      ensures Intact(queue[k]) && queue[k] !in InFlight(ties)
      ensures queue[k].data != null ==> queue[k].data !in InFlight(ties)
    {
      hide InFlight, Owned;
      QueuedAreIntact();
      NotInFlight(ties, k, heap.live, heap.freed);
    }

    /** And so it is there as long as the sender waits. */
    lemma SenderIsKept(cmd: Command, a: Scene)
      ensures CameBack(a) && Storage(cmd) !! a.freed && Storage(cmd) !! InFlight(a.ties)
              && Storage(cmd) !! born - a.born ==>
                Intact(cmd)
    {
    }

    constructor (heap: Memory.Heap, ram: array<byte>, sysCtrl: bv32)
      requires heap.Valid()
      ensures Valid() && queue == [] && this.heap == heap && this.ram == ram
      ensures Abs() == Host([], 0, sysCtrl, ram[..], [], [], [], [])
    {
      this.heap, this.ram, this.sysCtrl := heap, ram, sysCtrl;
      head, tail, blocksRemaining, log, notices := null, HeadSlot, 0, [], [];
      queue, values, ties, submitted, finished := [], [], [], [], [];
    }

    // -------------------------------------------------------------- what calls leave behind

    /** The call came back with the state `end` describes, or did not come back. */
    ghost predicate Reaches(end: Ending, out: Outcome)
      reads this, ram
    {
      match end
      case Crash => out == Died
      case Spin => out == StillPolling
      case Next(h) => out == Return(0) && Abs() == h
    }

    ghost function Now(): Scene
      reads this`ties, this`queue, this`finished, this`born, heap
    {
      Scene(heap.live, heap.freed, ties, queue, finished, born)
    }

    /** A call made in scene `a` came back: everything is in shape, memory is kept, and of the commands
        queued then the first ones have completed. */
    ghost predicate CameBack(a: Scene)
      reads this, heap, ram, queue, a.queue
    {
      Valid() && Keeps(a, Now()) && Drained(a, Now())
    }

    // -------------------------------------------------------------- issuing

    /** Put the command at the head on the bus. */
    method NextCmd()
      requires head != null && queue != [] && head == queue[0] && Mirrored() && Intact(head)
      modifies this`blocksRemaining, this`sysCtrl, this`log
      ensures Abs() == Issue(old(Abs()))
    {
      var cmd := head;
      var data := if cmd.data == null then None else Some(cmd.data.v);
      var enable := InterruptMask(data);
      log := log + [IntStatusEn(enable), CmdArg(cmd.arg)];
      if cmd.data != null {
        SetUpData(cmd.data);
      }
      var val := TransferType(cmd.index, cmd.rsp, data);
      log := log + [CmdXfrTyp(val)];
    }

    method SetUpData(data: DataSegment)
      requires data !in heap.freed
      modifies this`blocksRemaining, this`sysCtrl, this`log
      ensures log == old(log) + DataWrites(data.v, old(sysCtrl))
      ensures sysCtrl == WithDefaultTimeout(old(sysCtrl)) && blocksRemaining == data.v.blocks
    {
      hide WithDefaultTimeout, BlockAttributes;
      sysCtrl := SetDefaultTimeout(sysCtrl);
      log := log + [SysCtrl(sysCtrl)];
      var val := ComposeBlockAttributes(data.v);
      log := log + [BlkAtt(val)];
      if data.v.pbuf != 0 {
        log := log + [DsAddr(data.v.pbuf % 0x1_0000_0000)];
      }
      blocksRemaining := data.v.blocks;
    }

    // -------------------------------------------------------------- submitting

    /** What a submission needs: the command is not queued already, its buffer has room, nothing of it has
        been freed, and what its callback will free belongs to it alone. */
    ghost predicate Submittable(cmd: Command, cb: Handler)
      reads this, heap, cmd
    {
      && cmd !in queue && CmdOk(cmd.ValueWith(cb), ram.Length)
      && Joins(Tie(cmd, cmd.data, cb), ties, heap.live, heap.freed)
    }

    /** Append through the tail slot. */
    method Link(cmd: Command)
      requires Linked() && Mirrored() && AllIntact() && Intact(cmd) && cmd !in queue && cmd.next == null
      modifies this`head, this`tail, this`queue, this`values, this`ties, this`submitted, queue`next
      ensures Linked() && Mirrored() && queue == old(queue) + [cmd]
      ensures values == old(values) + [cmd.Value()] && ties == old(ties) + [Tie(cmd, cmd.data, cmd.cb)]
      ensures submitted == old(submitted) + [cmd.Value()]
    {
      hide CmdValue, Linked;
      Hook(cmd);
      values, ties := values + [cmd.Value()], ties + [Tie(cmd, cmd.data, cmd.cb)];
      submitted := submitted + [cmd.Value()];
    }

    /** The stores of an append. */
    method Hook(cmd: Command)
      requires Linked() && AllIntact() && Intact(cmd) && cmd !in queue && cmd.next == null
      modifies this`head, this`tail, this`queue, queue`next
      ensures Linked() && queue == old(queue) + [cmd]
    {
      match tail {
        case HeadSlot => head := cmd;
        case NextOf(c) => c.next := cmd;
      }
      tail := NextOf(cmd);
      queue := queue + [cmd];
    }

    method Enqueue(cmd: Command, cb: Handler)
      requires Valid() && Submittable(cmd, cb)
      modifies this`head, this`tail, this`queue, this`values, this`ties, this`submitted,
               cmd`complete, cmd`next, cmd`cb, queue`next
      ensures Valid() && queue == old(queue) + [cmd] && cmd.cb == cb && cmd.complete == 0
      ensures head == queue[0] && Intact(head) && (head == cmd <==> old(queue) == [])
      ensures ties == old(ties) + [Tie(cmd, cmd.data, cb)]
      ensures values == old(values) + [old(cmd.ValueWith(cb))]
      ensures submitted == old(submitted) + [old(cmd.ValueWith(cb))]
    {
      hide CmdValue, CmdOk, QueueOk, Owned, Linked, Mirrored, InFlight;
      ghost var c, t := cmd.ValueWith(cb), Tie(cmd, cmd.data, cb);
      OwnedAppend(ties, t, heap.live, heap.freed);
      QueueOkAppend(values, c, ram.Length);
      QueuedAreIntact();
      Initialise(cmd, cb);
      Link(cmd);
      forall i | 0 <= i < |queue|
        ensures queue[i].complete == 0
      {
        assert i < |old(queue)| ==> queue[i] == old(queue)[i];
      }
      QueuedAreIntact();
      FrontOfQueue();
      assert Intact(queue[0]);
      assert HostOk(Abs());
    }

    /** The head stands for the first value and tie. */
    lemma Front()
      requires Linked() && Mirrored() && |values| == |queue| && queue != [] && Owned(ties, heap.live, heap.freed)
      ensures AllIntact() && head == queue[0] && |ties| == |queue|
      ensures values[0] == queue[0].Value() && ties[0] == Tie(queue[0], queue[0].data, queue[0].cb)
    {
      QueuedAreIntact();
    }

    lemma HeadAlone()
      requires Steady() && queue != []
      ensures head == queue[0] && head.complete == 0 && forall i :: 1 <= i < |queue| ==> queue[i] != head
      ensures |values| == |queue| && values[0] == head.Value()
    {
    }

    lemma HeadIsFirst()
      requires Valid()
      ensures |values| == |queue| && (head == null <==> queue == [])
      ensures queue != [] ==> head == queue[0] && Intact(head)
      ensures forall i :: 1 <= i < |queue| ==> queue[i] != head && queue[i].complete == 0
    {
      QueuedAreIntact();
    }

    lemma FrontOfQueue()
      requires Linked() && queue != []
      ensures head == queue[0] && (queue[|queue| - 1] == head <==> |queue| == 1)
    {
    }

    method Initialise(cmd: Command, cb: Handler)
      requires Intact(cmd)
      modifies cmd`complete, cmd`next, cmd`cb
      ensures cmd.complete == 0 && cmd.next == null && cmd.cb == cb
    {
      cmd.complete := 0;
      cmd.next := null;
      cmd.cb := cb;
    }

    /** Append a command and start it when the controller is idle. */
    method Submit(cmd: Command, cb: Handler)
      requires Valid() && Submittable(cmd, cb)
      modifies this`head, this`tail, this`queue, this`values, this`ties, this`submitted,
               this`blocksRemaining, this`sysCtrl, this`log, cmd`complete, cmd`next, cmd`cb, queue`next
      ensures Valid() && queue == old(queue) + [cmd] && cmd.cb == cb && cmd.complete == 0
      ensures ties == old(ties) + [Tie(cmd, cmd.data, cb)]
      ensures InFlight(ties) == old(InFlight(ties)) + Footprint(Tie(cmd, cmd.data, cb))
      ensures Abs() == Send(old(Abs()), old(cmd.ValueWith(cb)))
    {
      hide CmdValue, CmdOk, QueueOk, Owned, Issue, InFlight, Linked, Mirrored;
      OwnedAppend(ties, Tie(cmd, cmd.data, cb), heap.live, heap.freed);
      Enqueue(cmd, cb);
      if head == cmd {
        NextCmd();
      }
    }

    // -------------------------------------------------------------- interrupt handler

    /** The error bits, tested in the handler's order; a later match overrides an earlier one. */
    method RecordErrors(cmd: Command, s: bv32)
      requires Intact(cmd)
      modifies cmd`complete
      ensures cmd.complete == if ErrorCode(s) != 0 then ErrorCode(s) else old(cmd.complete)
    {
      hide Has;
      if Has(s, ERR) { cmd.complete := -1; }
      if Has(s, AC12E) { cmd.complete := -10; }
      if Has(s, DMAE) { cmd.complete := -1; }
      if Has(s, ADMAE) { cmd.complete := -11; }
      if Has(s, DEBE) { cmd.complete := -8; }
      if Has(s, DCE) { cmd.complete := -7; }
      if Has(s, DTOE) { cmd.complete := -6; }
      if Has(s, CIE) { cmd.complete := -5; }
      if Has(s, CEBE) { cmd.complete := -4; }
      if Has(s, CCE) { cmd.complete := -3; }
      if Has(s, CTOE) { cmd.complete := -2; }
      if Has(s, CRM) { cmd.complete := -1; }
    }

    /** Command complete: save the response registers the response type uses. */
    method SaveResponse(cmd: Command, e: Event)
      requires Has(e.status, CC) && Intact(cmd)
      modifies cmd`response
      ensures cmd.response == Capture(old(cmd.Value()), e)
    {
      match cmd.rsp {
        case R2 =>
          cmd.response := cmd.response[0 := e.rsp[0]];
          cmd.response := cmd.response[1 := e.rsp[1]];
          cmd.response := cmd.response[2 := e.rsp[2]];
          cmd.response := cmd.response[3 := e.rsp[3]];
          assert cmd.response == e.rsp;
        case R1b =>
          if cmd.index == STOP_TRANSMISSION {
            cmd.response := cmd.response[3 := e.rsp[3]];
          } else {
            cmd.response := cmd.response[0 := e.rsp[0]];
          }
        case NONE =>
        case _ =>
          cmd.response := cmd.response[0 := e.rsp[0]];
      }
    }

    /** Buffer read ready: copy one block from the data port into memory, word by word. */
    method ReadBlock(d: Data, e: Event)
      requires d.vbuf + 4 * WordCount(d) <= ram.Length
      modifies ram
      ensures ram[..] == Splice(old(ram[..]), d.vbuf, Bytes(PortWords(e, WordCount(d))))
    {
      hide Bytes, Splice, ByteOf;
      ghost var before, ws, n := ram[..], PortWords(e, WordCount(d)), 0;
      var i := 0;
      while i < d.blockSize
        invariant i == 4 * n && n <= WordCount(d)
        invariant ram[..] == Splice(before, d.vbuf, Bytes(ws[..n]))
      {
        var w: u32 := if i / 4 < |e.port| then e.port[i / 4] else 0;
        assert ws[n] == w;
        StoreWord(d.vbuf + i, w);
        BytesSnoc(ws, n);
        SpliceAdjacent(before, d.vbuf, Bytes(ws[..n]), Bytes([w]));
        i, n := i + 4, n + 1;
      }
      assert ws[..n] == ws;
    }

    method StoreWord(a: nat, w: u32)
      requires a + 4 <= ram.Length
      modifies ram
      ensures ram[..] == Splice(old(ram[..]), a, Bytes([w]))
    {
      ram[a], ram[a + 1], ram[a + 2], ram[a + 3] := ByteOf(w, 0), ByteOf(w, 1), ByteOf(w, 2), ByteOf(w, 3);
    }

    /** Buffer write ready: copy one block from memory to the data port, word by word. */
    method WriteBlock(d: Data)
      requires d.vbuf + 4 * WordCount(d) <= ram.Length
      modifies this`log
      ensures log == old(log) + PortWrites(Words(ram[..], d.vbuf, WordCount(d)))
    {
      ghost var all := PortWrites(Words(ram[..], d.vbuf, WordCount(d)));
      var i := 0;
      while i < d.blockSize
        invariant i % 4 == 0 && 0 <= i <= 4 * WordCount(d)
        invariant log == old(log) + all[..i / 4]
      {
        assert ram[..][d.vbuf + i..d.vbuf + i + 4] == ram[d.vbuf + i..d.vbuf + i + 4];
        var a := d.vbuf + i;
        var b0: int, b1: int, b2: int, b3: int := ram[a], ram[a + 1], ram[a + 2], ram[a + 3];
        log := log + [DataPort(b0 + 0x100 * (b1 + 0x100 * (b2 + 0x100 * b3)))];
        assert all[i / 4] == DataPort(WordAt(ram[..], a));
        i := i + 4;
      }
      assert i / 4 == WordCount(d) == |all|;
    }

    /** Programmed I/O: move one block while blocks remain. */
    method MoveData(cmd: Command, e: Event) returns (crashed: bool)
      requires Mirrored() && HostOk(Abs()) && queue != [] && cmd == queue[0] && Intact(cmd)
      modifies this`blocksRemaining, this`log, ram
      ensures crashed <==> Has(e.status, BRR | BWR)
                           && (values[0].data.None? || values[0].data.value.vbuf == 0 || cmd.complete != 0)
      ensures !crashed ==> Abs() == MoveBlock(old(Abs()), e)
    {
      hide Has, Bytes, Words, Splice, PortWords, PortWrites, WordCount;
      crashed := false;
      assert CmdOk(Abs().queue[0], |Abs().ram|);
      if Has(e.status, BRR | BWR) {
        if cmd.data == null || cmd.data.v.vbuf == 0 || cmd.complete != 0 { return true; }
        if blocksRemaining != 0 {
          if Has(e.status, BRR) {
            ReadBlock(cmd.data.v, e);
          } else {
            WriteBlock(cmd.data.v);
          }
          blocksRemaining := blocksRemaining - 1;
        }
      }
    }

    /** Errors and command-complete. */
    method Respond(cmd: Command, e: Event) returns (crashed: bool)
      requires Mirrored() && |values| == |queue| && queue != [] && cmd == queue[0]
      requires cmd.complete == 0 && Intact(cmd)
      requires forall i :: 1 <= i < |queue| ==> queue[i] != cmd
      modifies this`values, cmd`complete, cmd`response
      ensures crashed <==> Has(e.status, CC) && old(values)[0].data.None? && ErrorCode(e.status) != 0
      ensures !crashed ==> cmd.complete == CodeBeforeData(old(values)[0].data, e.status)
      ensures !crashed ==> Mirrored() && values == old(values)[0 := Answered(old(values)[0], e)]
      ensures !crashed ==> values[0].response == cmd.response
    {
      hide Has, ErrorCode;
      crashed := false;
      RecordErrors(cmd, e.status);
      if Has(e.status, CC) {
        SaveResponse(cmd, e);
        if cmd.data == null {
          if cmd.complete != 0 { return true; }
          cmd.complete := 1;
        }
      }
      values := values[0 := Answered(values[0], e)];
    }

    /** Transfer complete, and the write that clears the status bits. */
    method Acknowledge(cmd: Command, s: bv32) returns (crashed: bool)
      requires Intact(cmd)
      modifies this`log, cmd`complete
      ensures crashed <==> Has(s, TC) && old(cmd.complete) != 0
      ensures !crashed ==> cmd.complete == if Has(s, TC) then 1 else old(cmd.complete)
      ensures !crashed ==> Abs() == old(Abs()).(log := old(log) + [IntStatus(s)])
    {
      hide Has;
      crashed := false;
      if Has(s, TC) {
        if cmd.complete != 0 { return true; }
        cmd.complete := 1;
      }
      log := log + [IntStatus(s)];
    }

    /** The command's verdict, response and data, and the acknowledgement. A failed assertion stops the
        component: `crashed`. */
    method Evaluate(cmd: Command, e: Event) returns (crashed: bool)
      requires Steady() && queue != [] && cmd == head && Intact(cmd)
      modifies this`blocksRemaining, this`log, this`values, ram, cmd`complete, cmd`response
      ensures crashed <==> Judge(old(values)[0].data, e.status).Abort?
      ensures !crashed ==> cmd.complete == match Judge(old(values)[0].data, e.status)
                                           case Done(code) => code case _ => 0
      ensures !crashed ==> Mirrored() && Abs() == Serve(old(Abs()), e) && values[0].response == cmd.response
    {
      hide Has, QueueOk, ErrorCode, Capture, MoveBlock, Judge, CodeBeforeData, Serve, CmdValue, HostOk, Linked,
           Mirrored,
           Pending;
      ghost var h := Abs();
      JudgeInOrder(h.queue[0].data, e.status);
      HeadAlone();
      crashed := Respond(cmd, e);
      if crashed { return; }
      assert HostOk(Abs()) by { HeadAnsweredOk(h, e); }
      crashed := MoveData(cmd, e);
      if crashed { return; }
      crashed := Acknowledge(cmd, e.status);
      if crashed { return; }
      ServeInOrder(h, e);
    }

    // -------------------------------------------------------------- completion

    /** Take the head off the queue. */
    method Advance(cmd: Command)
      requires Linked() && Mirrored() && queue != [] && cmd == head && Intact(cmd)
      modifies this`head, this`tail, this`queue, this`values, this`ties
      ensures Linked() && Mirrored() && cmd !in queue
      ensures if queue == [] then cmd.next == null else cmd.next != null && head == queue[0]
      ensures queue == old(queue)[1..] && values == old(values)[1..] && ties == old(ties)[1..]
    {
      hide CmdValue;
      if cmd.next == null {
        head := null;
        tail := HeadSlot;
      } else {
        head := cmd.next;
      }
      queue, values, ties := queue[1..], values[1..], ties[1..];
    }

    /** Start the command that followed, if any, and cut the old head off. */
    method StartNext(cmd: Command)
      requires Mirrored() && cmd !in queue && Intact(cmd)
      requires if queue == [] then cmd.next == null else cmd.next != null && head == queue[0] && Intact(head)
      modifies this`blocksRemaining, this`sysCtrl, this`log, cmd`next
      ensures Mirrored() && cmd.next == null
      ensures Abs() == if old(values) == [] then old(Abs()) else Issue(old(Abs()))
    {
      assert queue == [] <==> values == [];
      hide Issue, Mirrored;
      if cmd.next != null {
        NextCmd();
      }
      cmd.next := null;
    }

    /** Take the head off the queue and start the command that follows. */
    method Unhook(cmd: Command, ghost f: Finished)
      requires Linked() && Mirrored() && AllIntact() && HostOk(Abs()) && queue != [] && cmd == head
      requires |values| == |queue| && forall i :: 1 <= i < |queue| ==> queue[i].complete == 0
      modifies this`head, this`tail, this`blocksRemaining, this`sysCtrl, this`log,
               this`queue, this`values, this`ties, this`finished, cmd`next
      ensures Steady() && cmd.next == null && cmd !in queue
      ensures queue == old(queue)[1..] && ties == old(ties)[1..]
      ensures Abs() == Unlink(old(Abs()), f)
    {
      hide CmdValue, Issue, Linked, Mirrored, HostOk;
      FrontOfQueue();
      assert Intact(queue[0]);
      assert |queue| > 1 ==> Intact(queue[1]);
      ghost var q, h := queue, Abs();
      Advance(cmd);
      finished := finished + [f];
      StartNext(cmd);
      assert HostOk(Unlink(h, f));
      forall i | 0 <= i < |queue|
        ensures queue[i].complete == 0
      {
        assert queue[i] == q[i + 1];
      }
    }

    /** A call that a callback makes. */
    method MakeCall(c: Call) returns (out: Outcome)
      requires Valid() && CallOk(c, ram.Length)
      modifies this, heap, ram, queue`complete, queue`response, queue`next
      ensures Reaches(HostModel.MakeCall(old(Abs()), c), out)
      ensures out.Return? ==> CameBack(old(Now())) && fresh(born - old(born))
      decreases c
    {
      hide CmdOk, Owned, Send, QueueOk, Linked, Mirrored, InFlight, BlockingSend, TransferData;
      var rest: seq<Event>;
      match c {
        case Own(v, script) =>
          out := SendOwn(v, script);
        case Block(highCapacity, t, cb, a, script) =>
          if cb.NoCallback? {
            out, rest := TransferBlocks(this, highCapacity, t, a, script);
          } else {
            var ret := StartTransfer(this, highCapacity, t, a, script);
            out := Return(ret);
          }
      }
      if out.Return? { out := Return(0); }
    }

    /** A client's own command, sent from a callback. */
    method SendOwn(v: Cmd, script: seq<Event>) returns (out: Outcome)
      requires Valid() && CallOk(Own(v, script), ram.Length)
      modifies this, heap, ram, queue`complete, queue`response, queue`next
      ensures Reaches(HostModel.MakeCall(old(Abs()), Own(v, script)), out)
      ensures out.Return? ==> CameBack(old(Now())) && fresh(born - old(born))
      decreases script, 5
    {
      hide CmdOk, Owned, Send, QueueOk, Linked, Mirrored, InFlight, BlockingSend, Keeps, Drained, CameBack, Joins,
           HostOk, ScriptOk;
      ghost var a := Now();
      var cmd, cb := PrepareOwn(v);
      ghost var t := Tie(cmd, cmd.data, cb);
      var rest;
      out, rest := SendCmd(cmd, cb, script);
      if out.Return? {
        if cb == ClientHandler { ClientQueued(a, t); } else { BornBack(a, Uses(t)); }
        out := Return(0);
      }
    }

    /** A client's new command, which shares nothing with the queued ones. */
    method PrepareOwn(v: Cmd) returns (cmd: Command, cb: Handler)
      requires Valid() && CmdOk(v, ram.Length) && !v.cb.BlockOpCallback?
      modifies this`born
      ensures Valid() && fresh(cmd) && cmd.ValueWith(cb) == v && Submittable(cmd, cb)
      ensures cb == if v.cb.NoCallback? then NoHandler else ClientHandler
      ensures
        var t := Tie(cmd, cmd.data, cb);
        Now() == old(Now()).(born := old(born) + Uses(t)) && fresh(Uses(t))
    {
      hide CmdOk, Owned, QueueOk, Linked, Mirrored, InFlight, Joins, HostOk;
      cmd := NewClientCommand(v);
      cb := if v.cb.NoCallback? then NoHandler else ClientHandler;
      NewJoins(Tie(cmd, cmd.data, cb));
      born := born + Uses(Tie(cmd, cmd.data, cb));
    }

    /** Objects created for a command do not matter once it has gone. */
    lemma BornBack(a: Scene, objects: set<object>)
      requires CameBack(a.(born := a.born + objects))
      ensures CameBack(a)
    {
      hide InFlight, Owned, Command.Records, Linked, Mirrored;
      var b := a.(born := a.born + objects);
      forall i | 0 <= i < |a.queue|
        ensures Progressed(a.queue[i], |a.finished| + i, Now())
      {
        assert Progressed(b.queue[i], |b.finished| + i, Now());
      }
    }

    lemma ClientQueued(a: Scene, t: Tie)
      requires Valid() && Now() == Appended(a.(born := a.born + Uses(t)), t) && t.cb.ClientHandler? && Uses(t) !! a.born
      ensures CameBack(a)
    {
      hide InFlight, Owned, Linked, Mirrored;
      InFlightSnoc(a.ties, t);
    }

    /** A client's command of which nothing is used by a queued one can be sent. */
    lemma NewJoins(t: Tie)
      requires !t.cb.BlockOpHandler? && Uses(t) !! heap.freed
      requires forall i :: 0 <= i < |ties| ==> Uses(ties[i]) !! Uses(t)
      ensures Joins(t, ties, heap.live, heap.freed)
    {
      hide Uses;
    }

    method NewClientCommand(v: Cmd) returns (c: Command)
      requires !v.cb.BlockOpCallback?
      ensures fresh(c) && c.cb == NoHandler
      ensures c.ValueWith(if v.cb.NoCallback? then NoHandler else ClientHandler) == v
      ensures c.data != null ==> fresh(c.data)
    {
      var d: DataSegment? := null;
      if v.data.Some? {
        d := new DataSegment(v.data.value);
      }
      c := new Command(v.index, v.arg, v.rsp, d);
      c.response := v.response;
    }

    /** The calls of a callback. */
    method MakeCalls(cs: seq<Call>) returns (out: Outcome)
      requires Valid() && CallsOk(cs, ram.Length)
      modifies this, heap, ram, queue`complete, queue`response, queue`next
      ensures Reaches(HostModel.MakeCalls(old(Abs()), cs), out)
      ensures out.Return? ==> CameBack(old(Now())) && fresh(born - old(born))
      decreases cs, 0
    {
      hide CallOk, Owned, QueueOk, Linked, Mirrored, InFlight, HostModel.MakeCall, Steady, Keeps, Drained, CameBack;
      if cs == [] {
        NothingHappened();
        return Return(0);
      }
      assert CallOk(cs[0], ram.Length);
      ghost var a := Now();
      out := MakeCall(cs[0]);
      if out.Return? {
        InQueue(a);
        out := MakeRest(cs[1..], a);
      }
    }

    /** Further calls, seen from the scene `a` in which the first was made. */
    method MakeRest(cs: seq<Call>, ghost a: Scene) returns (out: Outcome)
      requires CameBack(a) && HostOk(Abs()) && CallsOk(cs, ram.Length)
      modifies this, heap, ram, queue`complete, queue`response, queue`next
      ensures Reaches(HostModel.MakeCalls(old(Abs()), cs), out)
      ensures out.Return? ==> CameBack(a) && fresh(born - old(born))
      decreases cs, 1
    {
      hide CallsOk, HostOk, InFlight, HostModel.MakeCalls, Keeps, Command.Records, CameBack, Valid;
      InShape(a);
      ghost var b := Now();
      out := MakeCalls(cs);
      if out.Return? {
        forall i | 0 <= i < |a.queue|
          ensures Progressed(a.queue[i], |a.finished| + i, b)
        {
          assert old(Progressed(a.queue[i], |a.finished| + i, b));
        }
        BackAgain(a, b);
      }
    }

    lemma InShape(a: Scene)
      requires CameBack(a)
      ensures Valid() && Keeps(a, Now()) && Drained(a, Now())
    {
    }

    lemma NothingHappened()
      requires Valid()
      ensures CameBack(Now())
    {
      NothingKept(Now());
    }

    /** Call the client, who may re-enter. `t` belongs to the command whose callback this is. */
    method Notify(n: Notice, cs: seq<Call>)
      returns (out: Outcome)
      requires Valid() && CallsOk(cs, ram.Length)
      modifies this, heap, ram, queue`complete, queue`response, queue`next
      ensures Reaches(HostModel.MakeCalls(old(Abs()).(notices := old(notices) + [n]), cs), out)
      ensures out.Return? ==> CameBack(old(Now())) && fresh(born - old(born))
      decreases cs, 2
    {
      hide CallOk, Owned, QueueOk, Linked, Mirrored, InFlight, HostModel.MakeCalls, Drained;
      notices := notices + [n];
      out := MakeCalls(cs);
    }

    /** The block layer's completion: report to the client, then free the command, its data segment
        and the token. */
    method BlockopCompletion(token: Token, stat: int, cmd: Command, cs: seq<Call>, ghost t: Tie) returns (out: Outcome)
      requires Steady() && heap.Valid()
      requires t == Tie(cmd, cmd.data, BlockOpHandler(token)) && Owned([t] + ties, heap.live, heap.freed)
      requires cmd.data != null && cmd !in queue && Intact(cmd) && CallsOk(cs, ram.Length)
      modifies this, heap, ram, queue`complete, queue`response, queue`next
      ensures
        var bytes := if stat == 0 then cmd.data.v.blockSize * cmd.data.v.blocks % 0x1_0000_0000 else 0;
        Reaches(HostModel.MakeCalls(old(Abs()).(notices := old(notices) + [Notice(BlockOpCallback, stat, bytes)]),
                                    cs), out)
      ensures out.Return? ==> CameBack(old(Now()).(ties := [t] + old(ties))) && fresh(born - old(born))
      decreases cs, 3
    {
      hide QueueOk, Owned, InFlight, Mirrored, Linked, HostModel.MakeCalls, Drained;
      var bytes := if stat == 0 then cmd.data.v.blockSize * cmd.data.v.blocks % 0x1_0000_0000 else 0;
      OwnedTail(t, ties, heap.live, heap.freed);
      ghost var a := Now();
      out := Notify(Notice(BlockOpCallback, stat, bytes), cs);
      if out.Return? {
        KeepsReleased(a, Now(), t);
        DrainedAlike(a, Now());
        OwnedWithout(ties, heap.live, heap.freed, Footprint(t));
        ReleaseTransfer(cmd, token, t);
      }
    }

    /** Free a command with its data segment, and the completion token. */
    method ReleaseTransfer(cmd: Command, token: Token, ghost t: Tie)
      requires t == Tie(cmd, cmd.data, BlockOpHandler(token)) && cmd.data != null
      requires heap.Valid() && Footprint(t) <= heap.live && Intact(cmd)
      modifies heap
      ensures heap.Valid() && heap.live == old(heap.live) - Footprint(t) && heap.freed == old(heap.freed) + Footprint(t)
    {
      heap.Free(cmd.data);
      heap.Free(cmd);
      heap.Free(token);
    }

    /** The call of the completion callback. */
    method CallBack(cmd: Command, e: Event, ghost t: Tie) returns (out: Outcome)
      requires Steady() && heap.Valid() && EventOk(e, ram.Length)
      requires t == Tie(cmd, cmd.data, cmd.cb) && Owned([t] + ties, heap.live, heap.freed)
      requires cmd !in queue && Intact(cmd)
      modifies this, heap, ram, queue`complete, queue`response, queue`next
      ensures
        var h := old(Abs()).(notices := old(notices) + Report(cmd.Value()));
        Reaches(HostModel.MakeCalls(h, Calls(cmd.Value(), e)), out)
      ensures out.Return? ==> CameBack(old(Now()).(ties := [t] + old(ties))) && fresh(born - old(born))
      decreases e, 2
    {
      hide QueueOk, Owned, InFlight, HostModel.MakeCall, Drained, Linked, Mirrored;
      OwnedTail(t, ties, heap.live, heap.freed);
      match cmd.cb {
        case NoHandler =>
          assert old(notices) + [] == old(notices);
          NothingHappened();
          CameBackWith(Now(), t);
          out := Return(0);
        case ClientHandler =>
          ghost var a := Now();
          out := Notify(Notice(ClientCallback, 0, 0), e.calls);
          if out.Return? { CameBackWith(a, t); }
        case BlockOpHandler(token) =>
          out := BlockopCompletion(token, 0, cmd, e.calls, t);
      }
    }

    /** Unlink the completed head, start its successor, call back. */
    method Complete(cmd: Command, e: Event) returns (out: Outcome)
      requires Linked() && Mirrored() && HostOk(Abs()) && |values| == |queue| && EventOk(e, ram.Length)
      requires heap.Valid() && Owned(ties, heap.live, heap.freed)
      requires queue != [] && cmd == head && cmd.complete != 0 && values[0].response == cmd.response
      requires forall i :: 1 <= i < |queue| ==> queue[i].complete == 0
      modifies this, heap, ram, queue`complete, queue`response, queue`next
      ensures
        var moved := BlocksMoved(old(values)[0].data, old(blocksRemaining));
        var h := Retire(old(Abs()), Finished(old(values)[0], old(cmd.complete), e.status, moved));
        Reaches(HostModel.MakeCalls(h, Calls(old(values)[0], e)), out)
      ensures out.Return? ==> CameBack(old(Now())) && fresh(born - old(born))
      decreases e, 3
    {
      hide Owned, InFlight, HostModel.MakeCalls, Report, Calls, Unlink, CmdOk, CmdValue, Linked, Mirrored, QueueOk,
           CameBack, Keeps;
      Front();
      ghost var a, t, moved := Now(), ties[0], BlocksMoved(values[0].data, blocksRemaining);
      ghost var f := Finished(values[0], cmd.complete, e.status, moved);
      assert ties == [t] + ties[1..];
      Unhook(cmd, f);
      out := CallBack(cmd, e, t);
      if out.Return? {
        NotQueuedAgain(a.(queue := a.queue[1..], finished := a.finished + [f]), cmd);
        CameBackFirst(a, cmd, f);
      }
    }

    /** A command whose callback frees nothing. */
    lemma CameBackWith(a: Scene, t: Tie)
      requires CameBack(a) && Footprint(t) == {}
      ensures CameBack(a.(ties := [t] + a.ties))
    {
      hide Owned, InFlight, Linked, Mirrored, HostOk, Command.Records;
      InFlightCons(t, a.ties);
      var b := a.(ties := [t] + a.ties);
      forall i | 0 <= i < |b.queue|
        ensures Progressed(b.queue[i], |b.finished| + i, Now())
      {
        assert Progressed(a.queue[i], |a.finished| + i, Now());
      }
    }

    /** What was not queued and is not new is not queued. */
    lemma NotQueuedAgain(a: Scene, cmd: Command)
      ensures CameBack(a) && cmd !in a.queue && cmd !in born - a.born ==> cmd !in queue
    {
    }

    lemma CameBackFirst(a: Scene, cmd: Command, f: Finished)
      requires a.queue != [] && a.queue[0] == cmd
      requires CameBack(a.(queue := a.queue[1..], finished := a.finished + [f])) && cmd.Records(f) && cmd !in queue
      ensures CameBack(a)
    {
      hide Command.Records, Owned, InFlight, Linked, Mirrored;
      var b := a.(queue := a.queue[1..], finished := a.finished + [f]);
      forall i | 0 <= i < |a.queue|
        ensures Progressed(a.queue[i], |a.finished| + i, Now())
      {
        if i > 0 { assert Progressed(b.queue[i - 1], |a.finished| + i, Now()); }
      }
    }

    // -------------------------------------------------------------- the handler and the blocking send

    /** The interrupt handler. */
    method HandleIrq(e: Event) returns (out: Outcome)
      requires Valid() && EventOk(e, ram.Length)
      modifies this, heap, ram, queue`complete, queue`response, queue`next
      ensures Reaches(Irq(old(Abs()), e), out)
      ensures out.Return? ==> CameBack(old(Now())) && fresh(born - old(born))
      decreases e, 4
    {
      hide Owned, InFlight, QueueOk, Judge, Serve, Retire, EventOk, CmdValue, HostModel.MakeCalls, Drained, Keeps,
           CameBack, Linked, Mirrored;
      var cmd := head;
      ghost var h := Abs();
      HeadIsFirst();
      if cmd == null {
        log := log + [IntStatus(e.status)];
        NothingHappened();
        return Return(0);
      }
      var crashed := Evaluate(cmd, e);
      if crashed { return Died; }
      DoneIsNonzero(h.queue[0].data, e.status);
      if cmd.complete != 0 {
        NoCalls(Finish(h, e));
        out := Complete(cmd, e);
      } else {
        NothingHappened();
        out := Return(0);
      }
    }

    /** What a blocking send that is described by `w` leaves: on return the command has completed with
        its own code and response and nothing refers to it any more. */
    ghost predicate Awaited(cmd: Command, w: Wait, out: Outcome, rest: seq<Event>)
      reads this, ram, cmd
    {
      match w
      case Crashed => out == Died
      case Waiting => out == StillPolling
      case Returned(code, response, h, left) =>
        && out == Return(if code < 0 then code else 0) && rest == left && Abs() == h
        && cmd.complete == code && cmd.response == response
        && cmd !in queue && cmd.next == null && tail != NextOf(cmd)
    }

    /** One round of the polling loop. */
    method PollOnce(ghost n: nat, rest: seq<Event>) returns (out: Outcome)
      requires Valid() && |finished| <= n && rest != [] && ScriptOk(rest, ram.Length)
      modifies this, heap, ram, queue`complete, queue`response, queue`next
      ensures
        match out
        case Died => Poll(old(Abs()), n, rest) == Crashed
        case StillPolling => Poll(old(Abs()), n, rest) == Waiting
        case Return(ret) => ret == 0 && HostOk(Abs()) && Poll(old(Abs()), n, rest) == Poll(Abs(), n, rest[1..])
      ensures out.Return? ==> CameBack(old(Now())) && fresh(born - old(born))
      decreases rest, 0
    {
      hide QueueOk, InFlight, Irq, Owned, EventOk, Linked, Mirrored, Poll, Keeps, Drained;
      PollUnrolled(Abs(), n, rest);
      out := HandleIrq(rest[0]);
    }

    /** The same, seen from the scene `a` in which the loop began. */
    method Round(cmd: Command, ghost n: nat, ghost a: Scene, rest: seq<Event>) returns (out: Outcome)
      requires CameBack(a) && cmd.complete == 0 && Intact(cmd)
      requires |a.finished| <= n < |a.finished| + |a.queue| && a.queue[n - |a.finished|] == cmd
      requires rest != [] && ScriptOk(rest, ram.Length) && HostOk(Abs())
      modifies this, heap, ram, queue`complete, queue`response, queue`next
      ensures
        match out
        case Died => Poll(old(Abs()), n, rest) == Crashed
        case StillPolling => Poll(old(Abs()), n, rest) == Waiting
        case Return(ret) => ret == 0 && HostOk(Abs()) && Poll(old(Abs()), n, rest) == Poll(Abs(), n, rest[1..])
      ensures out.Return? ==> CameBack(a) && fresh(born - old(born))
      decreases rest, 1
    {
      hide HostOk, InFlight, Irq, ScriptOk, Poll, Keeps, Command.Records, CameBack, Valid;
      Resume(cmd, n, a);
      ghost var b := Now();
      out := PollOnce(n, rest);
      if out.Return? {
        forall i | 0 <= i < |a.queue|
          ensures Progressed(a.queue[i], |a.finished| + i, b)
        {
          assert old(Progressed(a.queue[i], |a.finished| + i, b));
        }
        BackAgain(a, b);
      }
    }

    /** The polling loop of a blocking send, for the command submitted as number `n`. `StillPolling` is the
        loop after the events observed so far. */
    method Await(cmd: Command, ghost n: nat, script: seq<Event>) returns (out: Outcome, rest: seq<Event>)
      requires Valid() && ScriptOk(script, ram.Length) && cmd.cb == NoHandler
      requires |finished| <= n < |finished| + |queue| && queue[n - |finished|] == cmd
      modifies this, heap, ram, queue`complete, queue`response, queue`next
      ensures Awaited(cmd, Poll(old(Abs()), n, script), out, rest)
      ensures out.Return? ==> CameBack(old(Now())) && fresh(born - old(born))
      decreases script, 2
    {
      hide HostOk, InFlight, Irq, Poll, Keeps, CameBack, Valid, Steady, EventOk, Drained, Intact, AllIntact, Linked,
           Mirrored;
      Enter(cmd, n);
      ghost var w, a := Poll(Abs(), n, script), Now();
      rest := script;
      while cmd.complete == 0 && rest != []
        invariant CameBack(a) && HostOk(Abs()) && fresh(born - a.born) && Intact(cmd)
        invariant ScriptOk(rest, ram.Length) && rest == script[|script| - |rest|..] && w == Poll(Abs(), n, rest)
        decreases |rest|
      {
        InQueue(a);
        var r := Round(cmd, n, a, rest);
        if !r.Return? {
          return r, rest;
        }
        SenderIsKept(cmd, a);
        rest := rest[1..];
      }
      if cmd.complete == 0 {
        Resume(cmd, n, a);
        PollOfNothing(Abs(), n);
        return StillPolling, rest;
      }
      Awaken(cmd, n, a, rest);
      out := Return(if cmd.complete < 0 then cmd.complete else 0);
    }

    lemma InQueue(a: Scene)
      ensures CameBack(a) ==> forall k :: 0 <= k < |queue| ==> queue[k] in a.queue || queue[k] in born - a.born
    {
    }

    /** What a polling loop that began in scene `a` knows when it goes on. */
    lemma Resume(cmd: Command, n: nat, a: Scene)
      requires CameBack(a) && cmd.complete == 0
      requires |a.finished| <= n < |a.finished| + |a.queue| && a.queue[n - |a.finished|] == cmd
      ensures Valid() && |finished| <= n && Drained(a, Now()) && Keeps(a, Now())
    {
      hide Owned, InFlight, Linked, Mirrored;
      assert Progressed(a.queue[n - |a.finished|], n, Now());
    }

    /** How it begins. */
    lemma Enter(cmd: Command, n: nat)
      requires Valid() && |finished| <= n < |finished| + |queue| && queue[n - |finished|] == cmd && cmd.cb.NoHandler?
      ensures CameBack(Now()) && HostOk(Abs()) && Intact(cmd) && Storage(cmd) !! heap.freed + InFlight(ties)
    {
      hide InFlight, Owned, Linked, Keeps, CameBack, HostOk;
      NothingHappened();
      SenderIsSafe(n - |finished|);
    }

    /** And when its command has completed. */
    lemma Awaken(cmd: Command, n: nat, a: Scene, rest: seq<Event>)
      requires CameBack(a) && cmd.complete != 0 && ScriptOk(rest, ram.Length)
      requires |a.finished| <= n < |a.finished| + |a.queue| && a.queue[n - |a.finished|] == cmd
      ensures Poll(Abs(), n, rest) == Returned(cmd.complete, cmd.response, Abs(), rest)
      ensures cmd !in queue && cmd.next == null && tail != NextOf(cmd)
    {
      hide Owned, InFlight, Mirrored, Keeps;
      assert Progressed(a.queue[n - |a.finished|], n, Now());
    }

    /** One call after another. */
    lemma BackAgain(a: Scene, b: Scene)
      requires Keeps(a, b) && Drained(a, b) && CameBack(b)
      requires forall i :: 0 <= i < |a.queue| ==> a.queue[i] !in born - b.born
      ensures CameBack(a)
    {
      hide Keeps, Drained;
      KeepsOn(a, b, Now());
      DrainedOn(a, b, Now());
    }

    /** Submit a command; without a callback, wait until it has completed. */
    method SendCmd(cmd: Command, cb: Handler, script: seq<Event>) returns (out: Outcome, rest: seq<Event>)
      requires Valid() && Submittable(cmd, cb) && ScriptOk(script, ram.Length)
      modifies this, heap, ram, cmd`complete, cmd`next, cmd`cb, cmd`response, queue`complete, queue`response, queue`next
      ensures cmd.cb == cb
      ensures cb != NoHandler ==>
                && out == Return(0) && rest == script && Valid()
                && Abs() == Send(old(Abs()), old(cmd.ValueWith(cb)))
                && Now() == Appended(old(Now()), Tie(cmd, cmd.data, cb))
      ensures cb == NoHandler ==>
                && Awaited(cmd, BlockingSend(old(Abs()), old(cmd.ValueWith(cb)), script), out, rest)
                && (out.Return? ==> CameBack(old(Now())) && fresh(born - old(born)))
      decreases script, 3
    {
      hide QueueOk, InFlight, Irq, Send, Joins, CmdValue, CmdOk, Poll, Linked, Mirrored, Owned, ScriptOk, CameBack,
           Keeps,
           Drained, Steady, HostOk;
      ghost var n, a, t := |submitted|, Now(), Tie(cmd, cmd.data, cb);
      ValidIsOk(cmd, cb);
      Submit(cmd, cb);
      assert Now() == Appended(a, t);
      if cb != NoHandler {
        return Return(0), script;
      }
      out, rest := Await(cmd, n, script);
      if out.Return? {
        AppendedBack(a, t);
      }
    }

    lemma ValidIsOk(cmd: Command, cb: Handler)
      requires Valid() && Submittable(cmd, cb)
      ensures HostOk(Abs()) && |submitted| == |finished| + |queue| && CmdOk(cmd.ValueWith(cb), |Abs().ram|)
    {
    }

    /** A blocked sender whose command has completed has left the queue as if it had not been there. */
    lemma AppendedBack(a: Scene, t: Tie)
      requires CameBack(Appended(a, t)) && t.cmd !in queue && t.cb.NoHandler?
      ensures CameBack(a)
    {
      hide Owned, InFlight, Linked, Progressed, HostOk;
      InFlightSnoc(a.ties, t);
      forall i | 0 <= i < |a.queue|
        ensures Progressed(a.queue[i], |a.finished| + i, Now())
      {
        assert Appended(a, t).queue[i] == a.queue[i];
      }
    }
  }

  // ---------------------------------------------------------------- transfers of the block layer

  /** Heap memory that no callback still to come will free. */
  ghost function AtRest(dev: SdhcDev): set<object>
    reads dev, dev.heap
  {
    dev.heap.live - InFlight(dev.ties)
  }

  /** None of these objects is used by a queued command. */
  ghost predicate Unused(dev: SdhcDev, objects: set<object>)
    reads dev`ties
  {
    forall i :: 0 <= i < |dev.ties| ==> Uses(dev.ties[i]) !! objects
  }

  /** The scene with these objects allocated for commands. */
  function With(a: Scene, objects: set<object>): Scene {
    a.(live := a.live + objects, born := a.born + objects)
  }

  /** A new object goes on the heap. */
  method Track(dev: SdhcDev, o: object)
    requires dev.Valid() && o !in dev.heap.live && o !in dev.heap.freed
    modifies dev.heap, dev`born
    ensures dev.Valid() && dev.Now() == With(old(dev.Now()), {o}) && dev.Abs() == old(dev.Abs())
  {
    hide Owned, InFlight, QueueOk, SdhcDev.Linked, SdhcDev.Mirrored;
    OwnedMore(dev.ties, dev.heap.live, dev.heap.freed, o);
    dev.heap.Allocated(o);
    dev.born := dev.born + {o};
  }

  /** A command that is not linked into any queue. */
  method NewCommand(dev: SdhcDev, a: Allocs, index: bv32, arg: u32, rsp: RspType) returns (c: Command?)
    requires dev.Valid()
    modifies dev.heap, dev`born
    ensures dev.Valid() && (c != null <==> a.cmd)
    ensures dev.Now() == With(old(dev.Now()), if c == null then {} else {c})
    ensures c != null ==> fresh(c) && Unused(dev, {c}) && c !in dev.queue
    ensures c != null ==> c.index == index && c.arg == arg && c.rsp == rsp && c.data == null && c.response == a.garbage
  {
    hide Owned, InFlight, QueueOk, SdhcDev.Linked, SdhcDev.Mirrored;
    c := null;
    if a.cmd {
      c := new Command(index, arg, rsp, null);
      c.response := a.garbage;
      Track(dev, c);
    }
  }

  method NewDataSegment(dev: SdhcDev, a: Allocs, v: Data) returns (d: DataSegment?)
    requires dev.Valid()
    modifies dev.heap, dev`born
    ensures dev.Valid() && (d != null <==> a.data)
    ensures dev.Now() == With(old(dev.Now()), if d == null then {} else {d})
    ensures d != null ==> fresh(d) && Unused(dev, {d}) && d.v == v
  {
    hide Owned, InFlight, QueueOk, SdhcDev.Linked, SdhcDev.Mirrored;
    d := null;
    if a.data {
      d := new DataSegment(v);
      Track(dev, d);
    }
  }

  method NewToken(dev: SdhcDev, a: Allocs) returns (t: Token?)
    requires dev.Valid()
    modifies dev.heap, dev`born
    ensures dev.Valid() && (t != null <==> a.token)
    ensures dev.Now() == With(old(dev.Now()), if t == null then {} else {t})
    ensures t != null ==> fresh(t) && Unused(dev, {t})
  {
    hide Owned, InFlight, QueueOk, SdhcDev.Linked, SdhcDev.Mirrored;
    t := null;
    if a.token {
      t := new Token();
      Track(dev, t);
    }
  }

  /** Free a command and its data segment, if it has one. */
  method Destroy(heap: Memory.Heap, c: Command)
    requires heap.Valid() && Storage(c) <= heap.live
    modifies heap
    ensures heap.Valid() && heap.live == old(heap.live) - Storage(c) && heap.freed == old(heap.freed) + Storage(c)
  {
    if c.data != null {
      heap.Free(c.data);
    }
    heap.Free(c);
  }

  /** Free a command that is not queued and shares nothing with those that are. */
  method Release(dev: SdhcDev, cmd: Command)
    requires dev.Valid() && Storage(cmd) <= dev.heap.live && Unused(dev, Storage(cmd)) && cmd !in dev.queue
    modifies dev.heap
    ensures dev.Valid() && dev.heap.live == old(dev.heap.live) - Storage(cmd)
    ensures dev.heap.freed == old(dev.heap.freed) + Storage(cmd)
  {
    hide Owned, InFlight, QueueOk, SdhcDev.Linked, SdhcDev.Mirrored;
    OwnedWithout(dev.ties, dev.heap.live, dev.heap.freed, Storage(cmd));
    Destroy(dev.heap, cmd);
  }

  /** Allocate the command and its data segment. */
  method BuildCommand(dev: SdhcDev, highCapacity: bool, t: Transfer, a: Allocs) returns (cmd: Command?)
    requires dev.Valid() && t.nblocks < 0x40_0000
    modifies dev.heap, dev`born
    ensures dev.Valid() && (cmd != null <==> a.cmd && a.data) && fresh(dev.born - old(dev.born))
    ensures cmd == null ==> dev.CameBack(old(dev.Now()))
    ensures cmd != null ==>
              && fresh(cmd) && cmd.data != null && fresh(cmd.data)
              && dev.Now() == With(old(dev.Now()), Storage(cmd)) && Unused(dev, Storage(cmd)) && cmd !in dev.queue
    ensures cmd != null ==>
              && cmd.index == t.command && cmd.arg == TransferArg(highCapacity, t.start) && cmd.rsp == R1
              && cmd.data.v == TransferData(t) && cmd.response == a.garbage
  {
    hide Owned, InFlight, QueueOk, SdhcDev.Linked, SdhcDev.Mirrored, Keeps, Drained, SdhcDev.CameBack,
         SdhcDev.Steady, Joins;
    ghost var scene := dev.Now();
    cmd := NewCommand(dev, a, t.command, TransferArg(highCapacity, t.start), R1);
    if cmd != null {
      var built := AddData(dev, cmd, TransferData(t), a, scene);
      if !built {
        cmd := null;
      }
    } else {
      assert dev.Now() == scene;
      dev.NothingHappened();
    }
  }

  /** Give a new command its data segment, or free the command. */
  method AddData(dev: SdhcDev, cmd: Command, v: Data, a: Allocs, ghost scene: Scene) returns (built: bool)
    requires dev.Valid() && cmd.data == null && Unused(dev, {cmd}) && cmd !in dev.queue
    requires dev.Now() == With(scene, {cmd}) && cmd !in scene.live && cmd !in scene.born
    modifies dev.heap, dev`born, cmd`data
    ensures dev.Valid() && built == a.data && fresh(dev.born - old(dev.born))
    ensures !built ==> dev.CameBack(scene)
    ensures built ==>
              && cmd.data != null && fresh(cmd.data) && cmd.data.v == v
              && dev.Now() == With(scene, Storage(cmd)) && Unused(dev, Storage(cmd))
  {
    hide Owned, InFlight, QueueOk, SdhcDev.Linked, SdhcDev.Mirrored, Keeps, Drained, SdhcDev.CameBack,
         SdhcDev.Steady, Joins;
    var d := NewDataSegment(dev, a, v);
    built := d != null;
    if built {
      cmd.data := d;
    } else {
      ghost var b, own := dev.Now(), Storage(cmd);
      assert b == With(scene, own);
      NothingKept(b);
      Release(dev, cmd);
      GoneBack(dev, scene, own, b);
    }
  }

  /** A blocking send of an allocated command, and its clean-up: seen from before the allocation, nothing
      has happened to the memory. */
  method SendAndRelease(dev: SdhcDev, cmd: Command, script: seq<Event>, ghost scene: Scene)
    returns (out: Outcome, rest: seq<Event>)
    requires dev.Valid() && dev.Submittable(cmd, NoHandler) && ScriptOk(script, dev.ram.Length)
    requires dev.Now() == With(scene, Storage(cmd)) && Storage(cmd) !! scene.live && Storage(cmd) !! scene.born
    requires Unused(dev, Storage(cmd))
    modifies dev, dev.heap, dev.ram, cmd`complete, cmd`next, cmd`cb, cmd`response,
             dev.queue`complete, dev.queue`response, dev.queue`next
    ensures
      match BlockingSend(old(dev.Abs()), old(cmd.ValueWith(NoHandler)), script)
      case Crashed => out == Died
      case Waiting => out == StillPolling
      case Returned(code, _, h, left) =>
        out == Return(if code < 0 then code else 0) && rest == left && dev.Abs() == h
    ensures out.Return? ==> dev.CameBack(scene) && fresh(dev.born - old(dev.born))
    decreases script, 4
  {
    hide Owned, InFlight, QueueOk, Irq, Send, Poll, CmdOk, SdhcDev.Linked, SdhcDev.Mirrored, Keeps, Drained,
         SdhcDev.CameBack, SdhcDev.Steady, Joins;
    ghost var own := Storage(cmd);
    out, rest := dev.SendCmd(cmd, NoHandler, script);
    if out.Return? {
      ghost var b := dev.Now();
      ReadyToGo(dev, scene, own);
      Release(dev, cmd);
      GoneBack(dev, scene, own, b);
    }
  }

  lemma AtRestKept(dev: SdhcDev, a: Scene)
    requires dev.CameBack(a)
    ensures AtRest(dev) == a.live - InFlight(a.ties)
  {
  }

  /** Nobody uses what was allocated for a command that has come back. */
  lemma ReadyToGo(dev: SdhcDev, a: Scene, own: set<object>)
    requires dev.CameBack(With(a, own)) && forall k :: 0 <= k < |a.ties| ==> Uses(a.ties[k]) !! own
    ensures dev.Valid() && own <= dev.heap.live && Unused(dev, own)
    ensures Keeps(With(a, own), dev.Now()) && Drained(With(a, own), dev.Now())
  {
    hide InFlight, Owned, SdhcDev.Linked, SdhcDev.Mirrored, Uses, Command.Records, Drained, Keeps;
    StillUnused(With(a, own), dev.Now(), own);
  }

  /** And when it has been freed it is as if it had never been. */
  lemma GoneBack(dev: SdhcDev, a: Scene, own: set<object>, b: Scene)
    requires dev.Valid() && dev.Now() == b.(live := b.live - own, freed := b.freed + own)
    requires Keeps(With(a, own), b) && Drained(With(a, own), b) && own !! a.live && own !! a.born
    ensures dev.CameBack(a)
  {
    hide InFlight, Owned, SdhcDev.Linked, SdhcDev.Mirrored, Uses, Command.Records, Keeps;
    KeepsTransient(a, own, b);
    forall i | 0 <= i < |a.queue|
      ensures Progressed(a.queue[i], |a.finished| + i, dev.Now())
    {
      assert Progressed(With(a, own).queue[i], |a.finished| + i, b);
    }
  }

  /** What no queued command used before, and what is known already, is on the heap and unused still. */
  lemma StillUnused(a: Scene, b: Scene, own: set<object>)
    requires Keeps(a, b) && own <= a.live && own <= a.born
    requires forall k :: 0 <= k < |a.ties| ==> Uses(a.ties[k]) !! own
    ensures own <= b.live && forall k :: 0 <= k < |b.ties| ==> Uses(b.ties[k]) !! own
  {
    hide InFlight, Uses;
    forall o | o in own
      ensures o in b.live
    {
      if o in InFlight(a.ties) { var k := InFlightOfOne(a.ties, o); }
      assert o in a.live - InFlight(a.ties);
    }
  }

  /** A blocking transfer: nothing is sent when an allocation fails; otherwise the command is sent and
      its completion awaited. Whatever the path, the memory at rest afterwards is the memory at rest
      before: what the transfer allocated it has freed. */
  method TransferBlocks(dev: SdhcDev, highCapacity: bool, t: Transfer, a: Allocs, script: seq<Event>)
    returns (out: Outcome, rest: seq<Event>)
    requires dev.Valid() && ScriptOk(script, dev.ram.Length)
    requires t.nblocks < 0x40_0000 && CmdOk(TransferCmd(t, highCapacity, NoCallback, a.garbage), dev.ram.Length)
    modifies dev, dev.heap, dev.ram, dev.queue`complete, dev.queue`response, dev.queue`next
    ensures out.Return? ==> dev.CameBack(old(dev.Now())) && fresh(dev.born - old(dev.born))
    ensures out.Return? ==> AtRest(dev) == old(AtRest(dev))
    ensures
      if !a.cmd || !a.data then out == Return(-1) && rest == script && dev.Abs() == old(dev.Abs())
      else
        match BlockingSend(old(dev.Abs()), TransferCmd(t, highCapacity, NoCallback, a.garbage), script)
        case Crashed => out == Died
        case Waiting => out == StillPolling
        case Returned(code, _, h, left) =>
          out == Return(if code < 0 then code else BLOCK_SIZE * t.nblocks) && rest == left && dev.Abs() == h
    decreases script, 5
  {
    hide Owned, InFlight, QueueOk, Irq, Send, Poll, CmdOk, SdhcDev.Linked, SdhcDev.Mirrored, Keeps, Drained,
         SdhcDev.CameBack, SdhcDev.Steady, Joins;
    ghost var scene := dev.Now();
    var cmd := BuildCommand(dev, highCapacity, t, a);
    if cmd == null {
      AtRestKept(dev, scene);
      return Return(-1), script;
    }
    assert cmd.ValueWith(NoHandler) == TransferCmd(t, highCapacity, NoCallback, a.garbage);
    NewTransferJoins(dev, cmd, NoHandler);
    out, rest := SendAndRelease(dev, cmd, script, scene);
    if out.Return? {
      AtRestKept(dev, scene);
      if out.ret == 0 {
        out := Return(BLOCK_SIZE * t.nblocks);
      }
    }
  }

  lemma NewTransferJoins(dev: SdhcDev, cmd: Command, cb: Handler)
    requires dev.Valid() && cmd.data != null && Storage(cmd) <= dev.heap.live && Unused(dev, Storage(cmd))
    requires !cb.ClientHandler? && (cb.BlockOpHandler? ==> cb.token in dev.heap.live && Unused(dev, {cb.token}))
    ensures Joins(Tie(cmd, cmd.data, cb), dev.ties, dev.heap.live, dev.heap.freed)
  {
    var t := Tie(cmd, cmd.data, cb);
    forall i | 0 <= i < |dev.ties|
      ensures Apart(t, dev.ties[i]) && Apart(dev.ties[i], t)
    {
      assert Uses(dev.ties[i]) !! Storage(cmd);
    }
  }

  /** A transfer with a callback: as above when an allocation fails; otherwise the command is queued, and
      all it allocated is in flight until the completion callback frees it. */
  method StartTransfer(dev: SdhcDev, highCapacity: bool, t: Transfer, a: Allocs, script: seq<Event>)
    returns (ret: int)
    requires dev.Valid() && ScriptOk(script, dev.ram.Length)
    requires t.nblocks < 0x40_0000 && CmdOk(TransferCmd(t, highCapacity, BlockOpCallback, a.garbage), dev.ram.Length)
    modifies dev, dev.heap, dev.ram, dev.queue`complete, dev.queue`response, dev.queue`next
    ensures dev.CameBack(old(dev.Now())) && fresh(dev.born - old(dev.born)) && AtRest(dev) == old(AtRest(dev))
    ensures ret == if a.cmd && a.data && a.token then 0 else -1
    ensures dev.Abs() == if ret == 0 then Send(old(dev.Abs()), TransferCmd(t, highCapacity, BlockOpCallback, a.garbage))
                         else old(dev.Abs())
    decreases script, 5
  {
    hide Owned, InFlight, QueueOk, Irq, Send, Poll, CmdOk, SdhcDev.Linked, SdhcDev.Mirrored, Keeps, Drained,
         SdhcDev.CameBack, SdhcDev.Steady, Joins;
    ghost var scene := dev.Now();
    var cmd := BuildCommand(dev, highCapacity, t, a);
    if cmd == null {
      AtRestKept(dev, scene);
      return -1;
    }
    var token := NewToken(dev, a);
    if token == null {
      ghost var b, own := dev.Now(), Storage(cmd);
      assert b == With(scene, own);
      NothingKept(b);
      Release(dev, cmd);
      GoneBack(dev, scene, own, b);
      AtRestKept(dev, scene);
      return -1;
    }
    assert cmd.ValueWith(BlockOpHandler(token)) == TransferCmd(t, highCapacity, BlockOpCallback, a.garbage);
    Launch(dev, cmd, token, script, scene);
    AtRestKept(dev, scene);
    ret := 0;
  }

  /** The send of an allocated command that leaves the clean-up to the callback. */
  method Launch(dev: SdhcDev, cmd: Command, token: Token, script: seq<Event>, ghost scene: Scene)
    requires dev.Valid() && ScriptOk(script, dev.ram.Length) && cmd !in dev.queue && cmd.data != null
    requires CmdOk(cmd.ValueWith(BlockOpHandler(token)), dev.ram.Length)
    requires dev.Now() == With(scene, Storage(cmd) + {token}) && Unused(dev, Storage(cmd)) && Unused(dev, {token})
    requires Storage(cmd) + {token} !! scene.live && Storage(cmd) + {token} !! scene.born
    modifies dev, dev.heap, dev.ram, cmd`complete, cmd`next, cmd`cb, cmd`response,
             dev.queue`complete, dev.queue`response, dev.queue`next
    ensures dev.CameBack(scene) && dev.born == old(dev.born)
    ensures dev.Abs() == Send(old(dev.Abs()), old(cmd.ValueWith(BlockOpHandler(token))))
    decreases script, 4
  {
    hide Owned, InFlight, QueueOk, Irq, Send, Poll, CmdOk, SdhcDev.Linked, SdhcDev.Mirrored, Keeps, Drained,
         SdhcDev.CameBack, SdhcDev.Steady, Joins;
    NewTransferJoins(dev, cmd, BlockOpHandler(token));
    var out, rest := dev.SendCmd(cmd, BlockOpHandler(token), script);
    Launched(dev, scene, Tie(cmd, cmd.data, BlockOpHandler(token)));
  }

  /** A queued transfer: all that was allocated for it is in flight. */
  lemma Launched(dev: SdhcDev, a: Scene, t: Tie)
    requires dev.Valid() && dev.Now() == Appended(With(a, Footprint(t)), t)
    requires Footprint(t) !! a.live && Footprint(t) !! a.born && t.cb.BlockOpHandler?
    ensures dev.CameBack(a)
  {
    hide InFlight, Owned, SdhcDev.Linked, SdhcDev.Mirrored, Command.Records;
    InFlightSnoc(a.ties, t);
  }
}
