/**
 The far side of the bus: a card with byte memory behind a controller that obeys the protocol, and
 what one blocking single-block transfer does to card and memory.
 */
module CardModel {
  import opened Base
  import opened HostModel
  import opened QueueRuns
  import opened Registers

  datatype Card = Card(mem: seq<byte>, highCapacity: bool)

  /** The byte address a command argument means to the card. */
  function AddressOf(card: Card, arg: u32): nat {
    if card.highCapacity then BLOCK_SIZE * arg else arg
  }

  predicate InCard(card: Card, arg: u32) {
    AddressOf(card, arg) + BLOCK_SIZE <= |card.mem|
  }

  /** What the card takes a command on the bus for: data present, direction, command index. */
  predicate IsRead(b: Issued) {
    Has(b.xfrTyp, DPSEL) && Has(b.xfrTyp, DTDSEL) && IndexOf(b.xfrTyp) == READ_SINGLE_BLOCK && IsOneBlock(b)
  }

  predicate IsWrite(b: Issued) {
    Has(b.xfrTyp, DPSEL) && !Has(b.xfrTyp, DTDSEL) && IndexOf(b.xfrTyp) == WRITE_BLOCK && IsOneBlock(b)
  }

  /** One block of 512 bytes, moved by the driver. */
  predicate IsOneBlock(b: Issued) {
    b.setup.Some? && b.setup.value.blockSize == 512 && b.setup.value.count == 1 && b.setup.value.address.None?
  }

  /** The words a sequence of register accesses pushes into the data port. */
  function Pushed(log: seq<BusWrite>): seq<u32> {
    if log == [] then []
    else Pushed(log[..|log| - 1]) + if log[|log| - 1].DataPort? then [log[|log| - 1].word] else []
  }

  /** The events during one command come from a controller and card that obey the protocol: the buffer
      becomes ready at most once and in the command's direction, a read delivers the addressed block, and
      the transfer completes only after its data has moved. `moved` says that it has. */
  predicate Obeys(card: Card, b: Issued, moved: bool, events: seq<Event>)
    requires InCard(card, b.arg)
    decreases |events|
  {
    if events == [] then true
    else
      var e := events[0];
      var now := moved || Has(e.status, BRR | BWR);
      && (Has(e.status, BRR) ==> IsRead(b) && !moved && e.port == Words(card.mem, AddressOf(card, b.arg),
                                                                        BLOCK_SIZE / 4))
      && (Has(e.status, BWR) ==> IsWrite(b) && !moved)
      && (Has(e.status, TC) ==> if IsWrite(b) then moved else now)
      && Obeys(card, b, now, events[1..])
  }

  /** The card after a command: a write that succeeded stored the words pushed; one that failed may have
      left anything in its block; everything else is as it was. */
  function CardAfter(card: Card, b: Issued, pushed: seq<u32>, succeeded: bool, garbage: seq<byte>): Card
    requires InCard(card, b.arg) && |garbage| == BLOCK_SIZE
  {
    if !IsWrite(b) then card
    else if succeeded && 4 * |pushed| == BLOCK_SIZE then card.(mem := Splice(card.mem, AddressOf(card, b.arg),
                                                                             Bytes(pushed)))
    else card.(mem := Splice(card.mem, AddressOf(card, b.arg), garbage))
  }

  // ---------------------------------------------------------------- the bus form of a transfer

  /** On the bus a single-block read is a read, and a single-block write is a write. */
  lemma DirectionOnBus(c: Cmd)
    requires c.data.Some? && c.data.value.blockSize == BLOCK_SIZE && c.data.value.blocks == 1 && c.data.value.pbuf == 0
    ensures c.index == READ_SINGLE_BLOCK ==> IsRead(Wire(c)) && !IsWrite(Wire(c))
    ensures c.index == WRITE_BLOCK ==> IsWrite(Wire(c)) && !IsRead(Wire(c))
  {
    hide IndexOf, XfrTyp, Has;
    TransferTypeIsDecodable(c.index, c.rsp, c.data);
    assert READ_SINGLE_BLOCK & CMDINX_MASK == READ_SINGLE_BLOCK && WRITE_BLOCK & CMDINX_MASK == WRITE_BLOCK;
  }

  /** A transfer of the block layer on the bus: the address in the card's unit, cut to 32 bits, the command, a
      checked short response, and data of so many blocks of 512 bytes, by DMA exactly when it has a physical
      address, which is then the one latched. The driver copies from and to the buffer that was given. */
  lemma TransferOnBus(t: Transfer, highCapacity: bool, cb: Callback, garbage: Response)
    requires t.nblocks < 0x1_0000
    ensures
      var c := TransferCmd(t, highCapacity, cb, garbage);
      var b := Wire(c);
      && b.arg == (if highCapacity then t.start else t.start * 512) % 0x1_0000_0000
      && IndexOf(b.xfrTyp) == t.command & 0x3f && LengthOf(b.xfrTyp) == Short
      && Has(b.xfrTyp, CCCEN) && Has(b.xfrTyp, CICEN) && (Has(b.xfrTyp, DTDSEL) <==> t.command == 17)
      && (Has(b.xfrTyp, MSBSEL) <==> t.nblocks > 1)
      && b.setup == Some(Setup(512, t.nblocks, 0x0e, if t.pbuf != 0 then Some(t.pbuf % 0x1_0000_0000) else None))
      && c.data.Some? && c.data.value.vbuf == t.vbuf && c.cb == cb && c.response == garbage
  {
    hide XfrTyp, IndexOf, LengthOf, Has;
    var c := TransferCmd(t, highCapacity, cb, garbage);
    TransferTypeIsDecodable(c.index, c.rsp, c.data);
  }

  // ---------------------------------------------------------------- what is pushed

  lemma PushedAppend(log: seq<BusWrite>, b: BusWrite)
    ensures Pushed(log + [b]) == Pushed(log) + if b.DataPort? then [b.word] else []
  {
    assert (log + [b])[..|log|] == log;
  }

  lemma {:induction false} PushedWords(log: seq<BusWrite>, ws: seq<u32>)
    ensures Pushed(log + PortWrites(ws)) == Pushed(log) + ws
    decreases |ws|
  {
    if ws == [] {
      assert log + PortWrites(ws) == log;
    } else {
      var init, last := ws[..|ws| - 1], ws[|ws| - 1];
      PushedWords(log, init);
      assert log + PortWrites(ws) == (log + PortWrites(init)) + [DataPort(last)];
      PushedAppend(log + PortWrites(init), DataPort(last));
    }
  }

  lemma {:induction false} PushedQuiet(log: seq<BusWrite>, w: seq<BusWrite>)
    requires forall i :: 0 <= i < |w| ==> !w[i].DataPort?
    ensures Pushed(log + w) == Pushed(log)
    decreases |w|
  {
    if w == [] {
      assert log + w == log;
    } else {
      var init, last := w[..|w| - 1], w[|w| - 1];
      PushedQuiet(log, init);
      assert log + w == (log + init) + [last];
      PushedAppend(log + init, last);
    }
  }

  // ---------------------------------------------------------------- one transfer

  /** A blocking single-block transfer through memory. */
  predicate IsTransfer(c: Cmd) {
    && c.rsp == R1 && c.cb.NoCallback? && c.data.Some? && c.index in {READ_SINGLE_BLOCK, WRITE_BLOCK}
    && var d := c.data.value;
       d.pbuf == 0 && d.blocks == 1 && d.blockSize == BLOCK_SIZE && d.vbuf != 0
  }

  /** The transfer of `c` is the only command of the host, and its block has moved or is still to move. */
  predicate InTransfer(h: Host, c: Cmd, moved: bool) {
    HostOk(h) && |h.queue| == 1 && Same(h.queue[0], c) && h.blocksRemaining == (if moved then 0 else 1)
  }

  /** What the memory and the data port hold when the block of `c` has, or has not, moved. */
  predicate BlockMoved(c: Cmd, card: Card, before: Host, after: Host, moved: bool)
    requires IsTransfer(c) && InCard(card, c.arg) && CmdOk(c, |before.ram|)
  {
    var d := c.data.value;
    if c.index == READ_SINGLE_BLOCK then
      && Pushed(after.log) == Pushed(before.log)
      && after.ram == if moved then Splice(before.ram, d.vbuf, BlockAt(card, c.arg)) else before.ram
    else
      && after.ram == before.ram
      && Pushed(after.log) == Pushed(before.log) + if moved then Words(before.ram, d.vbuf, BLOCK_SIZE / 4) else []
  }

  function BlockAt(card: Card, arg: u32): (b: seq<byte>)
    requires InCard(card, arg)
    ensures |b| == BLOCK_SIZE
  {
    card.mem[AddressOf(card, arg)..AddressOf(card, arg) + BLOCK_SIZE]
  }

  /** One handler call during a transfer moves the block exactly when a buffer-ready bit is seen. */
  lemma ServeMoves(h: Host, c: Cmd, card: Card, moved: bool, e: Event)
    requires IsTransfer(c) && InTransfer(h, c, moved) && InCard(card, c.arg) && CmdOk(c, |h.ram|)
    requires !Judge(c.data, e.status).Abort? && Obeys(card, Wire(c), moved, [e])
    ensures
      var now := moved || Has(e.status, BRR | BWR);
      && InTransfer(Serve(h, e), c, now)
      && BlockMoved(c, card, h, Serve(h, e), now && !moved)
  {
    hide Judge, Has, Capture, XfrTyp, IsRead, IsWrite, Words, Splice, Bytes;
    DirectionOnBus(c);
    var d, words := c.data.value, Words(card.mem, AddressOf(card, c.arg), BLOCK_SIZE / 4);
    var h1 := MoveBlock(h, e);
    assert WordCount(d) == BLOCK_SIZE / 4;
    BrrOrBwr(e.status);
    PushedAppend(h1.log, IntStatus(e.status));
    if Has(e.status, BRR) {
      assert forall i :: 0 <= i < WordCount(d) ==> PortWords(e, WordCount(d))[i] == words[i];
      assert PortWords(e, WordCount(d)) == words;
      BytesOfWords(card.mem, AddressOf(card, c.arg), BLOCK_SIZE / 4);
    } else if Has(e.status, BWR) {
      PushedWords(h.log, Words(h.ram, d.vbuf, BLOCK_SIZE / 4));
    }
  }

  lemma BrrOrBwr(s: bv32)
    ensures Has(s, BRR | BWR) <==> Has(s, BRR) || Has(s, BWR)
  {
  }

  lemma ObeysHead(card: Card, b: Issued, moved: bool, events: seq<Event>)
    requires InCard(card, b.arg) && events != [] && Obeys(card, b, moved, events)
    ensures Obeys(card, b, moved, [events[0]])
    ensures Obeys(card, b, moved || Has(events[0].status, BRR | BWR), events[1..])
  {
    assert [events[0]][1..] == [];
  }

  /** A command nobody is called back for, alone in the queue, leaves an idle host. */
  lemma FinishAlone(h: Host, e: Event)
    requires HostOk(h) && |h.queue| == 1 && h.queue[0].cb.NoCallback? && Judge(h.queue[0].data, e.status).Done?
    ensures Finish(h, e) == Serve(h, e).(queue := [], finished := h.finished + [Completion(h, e)])
  {
    hide Judge, Serve, Capture;
    assert h.notices + [] == h.notices;
    assert h.queue[1..] == [];
  }

  /** A verdict of success on a data command needs transfer-complete. */
  lemma SuccessNeedsTransferComplete(data: Option<Data>, s: bv32)
    requires data.Some? && Judge(data, s).Done?
    ensures Judge(data, s).code == 1 <==> Has(s, TC)
    ensures Judge(data, s).code == 1 || Judge(data, s).code < 0
  {
    hide Has;
  }

  lemma CompleteMeansMoved(c: Cmd, card: Card, moved: bool, e: Event)
    requires IsTransfer(c) && InCard(card, c.arg) && Obeys(card, Wire(c), moved, [e]) && Has(e.status, TC)
    ensures moved || Has(e.status, BRR | BWR)
  {
    hide Has, XfrTyp, IsRead, IsWrite;
    DirectionOnBus(c);
  }

  /** The polling of a single-block transfer against an obedient card: when it returns the host is idle,
      and the block has moved, once; on success it has moved for certain. */
  lemma {:induction false} PollTransfers(h: Host, c: Cmd, card: Card, moved: bool,
                                         script: seq<Event>) returns (now: bool)
    requires IsTransfer(c) && InTransfer(h, c, moved) && InCard(card, c.arg) && CmdOk(c, |h.ram|)
    requires ScriptOk(script, |h.ram|) && Poll(h, |h.finished|, script).Returned?
    requires Obeys(card, Wire(c), moved, script[..|script| - |Poll(h, |h.finished|, script).rest|])
    ensures
      var w := Poll(h, |h.finished|, script);
      && w.host.queue == [] && (w.code == 1 || w.code < 0)
      && (moved ==> now) && (w.code == 1 ==> now)
      && BlockMoved(c, card, h, w.host, now && !moved)
    decreases |script|
  {
    hide Judge, Has, Wire, Serve, CmdOk, Obeys, QueueOk, Poll, BlockMoved, HostOk, EventOk;
    WireArg(c);
    PollOneCommand(h, c, script);
    PollUsesEvents(h, |h.finished|, script);
    var w, e := Poll(h, |h.finished|, script), script[0];
    var used := script[..|script| - |w.rest|];
    assert used[0] == e;
    ObeysHead(card, Wire(c), moved, used);
    now := moved || Has(e.status, BRR | BWR);
    ServeMoves(h, c, card, moved, e);
    var h1 := Serve(h, e);
    if Judge(c.data, e.status).Done? {
      SuccessNeedsTransferComplete(c.data, e.status);
      if Has(e.status, TC) { CompleteMeansMoved(c, card, moved, e); }
      QueueDoesNotMatter(c, card, h, h1, w.host, now && !moved);
    } else {
      assert used[1..] == script[1..][..|script[1..]| - |w.rest|];
      var before := now;
      now := PollTransfers(h1, c, card, before, script[1..]);
      BlockMovedOnce(c, card, h, h1, w.host, moved, before, now);
    }
  }

  /** The polling loop, one round unrolled, for a command that is alone and has no callback. */
  lemma PollOneCommand(h: Host, c: Cmd, script: seq<Event>)
    requires HostOk(h) && |h.queue| == 1 && Same(h.queue[0], c) && c.cb.NoCallback? && ScriptOk(script, |h.ram|)
    ensures Poll(h, |h.finished|, script).Returned? ==> script != []
    ensures script != [] ==> EventOk(script[0], |h.ram|)
    ensures script != [] ==>
      match Judge(c.data, script[0].status)
      case Abort => Poll(h, |h.finished|, script) == Crashed
      case Running => Poll(h, |h.finished|, script) == Poll(Serve(h, script[0]), |h.finished|, script[1..])
      case Done(code) =>
        var w := Poll(h, |h.finished|, script);
        && w.Returned? && w.code == code && w.rest == script[1..] && w.host.queue == []
        && w.response == Serve(h, script[0]).queue[0].response
        && w.host.log == Serve(h, script[0]).log && w.host.ram == Serve(h, script[0]).ram
  {
    hide Judge, Serve, Finish, QueueOk, EventOk, Poll;
    SameData(h.queue[0], c);
    if script == [] {
      PollOfNothing(h, |h.finished|);
    } else {
      PollUnrolled(h, |h.finished|, script);
      if Judge(c.data, script[0].status).Done? {
        FinishAlone(h, script[0]);
        PollDone(Finish(h, script[0]), |h.finished|, script[1..]);
      }
    }
  }

  lemma QueueDoesNotMatter(c: Cmd, card: Card, h0: Host, h1: Host, h2: Host, moved: bool)
    requires IsTransfer(c) && InCard(card, c.arg) && CmdOk(c, |h0.ram|) && h1.log == h2.log && h1.ram == h2.ram
    ensures BlockMoved(c, card, h0, h1, moved) == BlockMoved(c, card, h0, h2, moved)
  {
  }

  lemma WireArg(c: Cmd)
    ensures Wire(c).arg == c.arg
  {
  }

  lemma SameData(c: Cmd, d: Cmd)
    requires Same(c, d)
    ensures c.data == d.data && c.cb == d.cb
  {
  }

  /** A block that has moved in two stretches of a transfer has moved in one of them. */
  lemma BlockMovedOnce(c: Cmd, card: Card, h0: Host, h1: Host, h2: Host, m0: bool, m1: bool, m2: bool)
    requires IsTransfer(c) && InCard(card, c.arg) && CmdOk(c, |h0.ram|) && |h1.ram| == |h0.ram|
    requires (m0 ==> m1) && (m1 ==> m2)
    requires BlockMoved(c, card, h0, h1, m1 && !m0) && BlockMoved(c, card, h1, h2, m2 && !m1)
    ensures BlockMoved(c, card, h0, h2, m2 && !m0)
  {
    hide Words, Splice, Pushed;
    assert forall s: seq<u32> :: s + [] == s;
  }

  // ---------------------------------------------------------------- from an idle host

  /** The events a blocking send used up. */
  function Used(script: seq<Event>, rest: seq<Event>): seq<Event>
    requires |rest| <= |script|
  {
    script[..|script| - |rest|]
  }

  /** A blocking send on an idle host puts its command, and nothing else, on the bus. */
  lemma SendReachesBus(h: Host, c: Cmd)
    requires HostOk(h) && h.queue == [] && CmdOk(c, |h.ram|)
    ensures OnBus(Send(h, c).log) == OnBus(h.log) + [Wire(c)] && Pushed(Send(h, c).log) == Pushed(h.log)
  {
    hide EnabledInterrupts, XfrTyp, WithDefaultTimeout, BlockAttributes, OnBus, Wire, Pushed;
    assert [] + [c] == [c];
    IssueOnBus(h.log, c, h.sysCtrl);
    PushedQuiet(h.log, IssueWrites(c, h.sysCtrl));
  }

  /** What has been pushed into the data port between two states of a run. */
  function NewlyPushed(before: Host, after: Host): seq<u32> {
    var earlier, all := Pushed(before.log), Pushed(after.log);
    if |earlier| <= |all| then all[|earlier|..] else []
  }

  /** A blocking single-block transfer against an obedient card leaves an idle host; a write that returned
      success stored the memory block at the command's address, a read that returned success put the
      card's block into memory; nothing outside the addressed block and the buffer changes, whether it
      succeeds or fails. */
  lemma TransferEffect(h: Host, c: Cmd, card: Card, script: seq<Event>, garbage: seq<byte>)
    requires HostOk(h) && h.queue == [] && IsTransfer(c) && CmdOk(c, |h.ram|) && InCard(card, c.arg)
    requires ScriptOk(script, |h.ram|) && BlockingSend(h, c, script).Returned? && |garbage| == BLOCK_SIZE
    requires Obeys(card, Wire(c), false, Used(script, BlockingSend(h, c, script).rest))
    ensures
      var w, vbuf := BlockingSend(h, c, script), c.data.value.vbuf;
      var after := CardAfter(card, Wire(c), NewlyPushed(h, w.host), w.code == 1, garbage);
      && w.host.queue == [] && (w.code == 1 || w.code < 0)
      && (c.index == WRITE_BLOCK ==>
            && w.host.ram == h.ram
            && after.mem == Splice(card.mem, AddressOf(card, c.arg),
                                   if w.code == 1 then h.ram[vbuf..vbuf + BLOCK_SIZE] else garbage))
      && (c.index == READ_SINGLE_BLOCK ==>
            && after == card
            && (w.code < 0 ==> w.host.ram == h.ram || w.host.ram == Splice(h.ram, vbuf, BlockAt(card, c.arg)))
            && (w.code == 1 ==> w.host.ram == Splice(h.ram, vbuf, BlockAt(card, c.arg))))
  {
    hide Poll, Has, XfrTyp, Pushed, Obeys, Words, Bytes, Splice, IsRead, IsWrite, QueueOk, IssueWrites;
    var h1, vbuf := Send(h, c), c.data.value.vbuf;
    SendReachesBus(h, c);
    DirectionOnBus(c);
    var now := PollTransfers(h1, c, card, false, script);
    BytesOfWords(h.ram, vbuf, BLOCK_SIZE / 4);
    var w := BlockingSend(h, c, script);
    assert BlockMoved(c, card, h1, w.host, now);
    if c.index == WRITE_BLOCK && now {
      assert NewlyPushed(h, w.host) == Words(h.ram, vbuf, BLOCK_SIZE / 4);
    }
  }
}
