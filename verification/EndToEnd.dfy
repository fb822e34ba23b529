/**
 The storage service against the card: an accepted request moves exactly the requested bytes between
 dataport and card, block by block, over the real command queue, handler and bus, whatever the interrupt
 thread does between the blocks.
 */
module EndToEnd {
  import opened Base
  import opened CardModel
  import CardRegisters
  import opened HostModel
  import opened QueueRuns
  import opened Registers
  import opened StorageService

  // ---------------------------------------------------------------- addressing

  /** A command argument means the block it was made for exactly when its address fits 32 bits in the
      card's unit: block numbers for a card of high capacity, bytes for the others. */
  lemma AddressIsTrue(card: Card, block: nat)
    ensures AddressOf(card, TransferArg(card.highCapacity, block)) == BLOCK_SIZE * block <==>
              if card.highCapacity then block < 0x1_0000_0000 else BLOCK_SIZE * block < 0x1_0000_0000
  {
  }

  /** The job fits the card and every block of it is addressed truly. */
  predicate OnCard(j: Job, card: Card) {
    && card.highCapacity == j.highCapacity && BLOCK_SIZE * (j.start + j.n) <= |card.mem|
    && if card.highCapacity then j.start + j.n <= 0x1_0000_0000 else BLOCK_SIZE * (j.start + j.n) <= 0x1_0000_0000
  }

  lemma BlockOnCard(j: Job, card: Card, i: nat, garbage: Response, ramSize: nat)
    requires JobOk(j, ramSize) && OnCard(j, card) && i < j.n
    ensures
      var c := CmdOf(j, i, garbage);
      && CmdOk(c, ramSize) && InCard(card, c.arg) && AddressOf(card, c.arg) == BLOCK_SIZE * (j.start + i)
      && c.data.value.vbuf == j.port + BLOCK_SIZE * i && c.index == j.command
      && (j.command in {READ_SINGLE_BLOCK, WRITE_BLOCK} ==> IsTransfer(c))
  {
  }

  /** Card and CSD register belong together: the memory is as large as the register declares, and the
      capacity class of the OCR agrees with the register's version. Cards of version 1 are those with
      blocks of 512 to 2048 bytes. */
  predicate Matches(card: Card, rawCsd: Response) {
    var csd := CardRegisters.DecodeCsd(Some(rawCsd));
    && csd.Some? && |card.mem| == CardRegisters.CardCapacity(Some(rawCsd))
    && (if csd.value.structure == 1 then card.highCapacity else !card.highCapacity && 9 <= csd.value.readBlLen <= 11)
  }

  /** The card a service was started with. */
  predicate Serves(svc: Service, card: Card) {
    svc.rawCsd.Some? && Matches(card, svc.rawCsd.value) && svc.highCapacity == card.highCapacity
  }

  /** Every request the service admits lies on the card and is addressed without loss. */
  lemma AdmittedIsOnCard(svc: Service, rpc: Rpc, card: Card)
    requires Serves(svc, card) && Ruling(svc, rpc) == SUCCESS && rpc.size > 0
    ensures Admitted(rpc) && rpc.size <= svc.portSize && OnCard(JobFor(svc, rpc), card)
  {
    hide CardRegisters.CardCapacity, CardRegisters.DecodeCsd, Admission;
    AdmissionIsExact(svc.bitmap, svc.rawCsd, rpc.offset, rpc.size, rpc.locks, svc.portSize);
    CardRegisters.CapacityBounds(svc.rawCsd.value);
    V2Structure(svc.rawCsd.value);
  }

  lemma V2Structure(rawCsd: Response)
    ensures
      var csd := CardRegisters.DecodeCsd(Some(rawCsd));
      csd.Some? ==> csd.value.structure == 0 || csd.value.structure == 1
  {
    hide CardRegisters.SliceBits;
  }

  // ---------------------------------------------------------------- the loop against the card

  /** What the events of one block say: its transfer was obeyed. */
  predicate BlockObeys(h: Host, j: Job, i: nat, allocs: Allocs, script: seq<Event>, card: Card)
    requires HostOk(h) && JobOk(j, |h.ram|) && i < j.n && ScriptOk(script, |h.ram|) && OnCard(j, card)
  {
    BlockOnCard(j, card, i, allocs.garbage, |h.ram|);
    var c := CmdOf(j, i, allocs.garbage);
    var w := BlockingSend(h, c, script);
    allocs.cmd && allocs.data && w.Returned? ==> Obeys(card, Wire(c), false, Used(script, w.rest))
  }

  /** The card after one block. */
  function BlockCard(h: Host, j: Job, i: nat, allocs: Allocs, script: seq<Event>, card: Card, garbage: seq<byte>):
    (after: Card)
    requires HostOk(h) && JobOk(j, |h.ram|) && i < j.n && ScriptOk(script, |h.ram|) && OnCard(j, card)
    requires |garbage| == BLOCK_SIZE
    ensures OnCard(j, after) && |after.mem| == |card.mem|
  {
    BlockOnCard(j, card, i, allocs.garbage, |h.ram|);
    var c := CmdOf(j, i, allocs.garbage);
    var w := BlockingSend(h, c, script);
    if allocs.cmd && allocs.data && w.Returned? then CardAfter(card, Wire(c), NewlyPushed(h, w.host), w.code == 1,
                                                               garbage)
    else card
  }

  // The interrupt thread between the blocks finds an idle host, and leaves it one.

  /** The state in which a lock is tried after these handler calls. */
  function AtLock(h: Host, irqs: seq<Event>): (g: Host)
    requires HostOk(h) && ScriptOk(irqs, |h.ram|)
    ensures HostOk(g) && |g.ram| == |h.ram|
  {
    match Handled(h, irqs)
    case Next(g) => g
    case Crash => h
    case Spin => h
  }

  /** An idle host only acknowledges. */
  lemma {:induction false} IdleStaysIdle(h: Host, irqs: seq<Event>)
    requires HostOk(h) && h.queue == [] && ScriptOk(irqs, |h.ram|)
    ensures Handled(h, irqs) == Next(AtLock(h, irqs)) && AtLock(h, irqs) == h.(log := AtLock(h, irqs).log)
    decreases |irqs|
  {
    hide Handled, EventOk;
    if irqs == [] {
      HandledNothing(h);
    } else {
      HandledUnrolled(h, irqs);
      IdleStaysIdle(h.(log := h.log + [IntStatus(irqs[0].status)]), irqs[1..]);
    }
  }

  /** Every transfer of a block loop is obeyed by the card as it is then. */
  ghost predicate LoopObeys(h: Host, j: Job, i: nat, env: nat -> BlockEnv, script: seq<Event>, card: Card,
                            garbage: nat -> seq<byte>)
    requires HostOk(h) && LoopOk(h, j, env, script) && i <= j.n && OnCard(j, card)
    requires forall k :: |garbage(k)| == BLOCK_SIZE
    decreases j.n - i
  {
    i < j.n && env(i).lock ==>
      var h0 := AtLock(h, env(i).irqs);
      && BlockObeys(h0, j, i, env(i).allocs, script, card)
      && var b := OneBlock(h0, j, i, env(i).allocs, script);
         b.Moved? && b.result >= 0 && env(i).unlock ==>
           LoopObeys(b.host, j, i + 1, env, b.rest, BlockCard(h0, j, i, env(i).allocs, script, card, garbage(i)),
                     garbage)
  }

  /** The card after a block loop; `garbage(i)` is what a failed write of block `i` leaves in it. */
  ghost function LoopCard(h: Host, j: Job, i: nat, env: nat -> BlockEnv, script: seq<Event>, card: Card,
                          garbage: nat -> seq<byte>): (after: Card)
    requires HostOk(h) && LoopOk(h, j, env, script) && i <= j.n && OnCard(j, card)
    requires forall k :: |garbage(k)| == BLOCK_SIZE
    ensures OnCard(j, after) && |after.mem| == |card.mem|
    decreases j.n - i
  {
    if i == j.n || !env(i).lock then card
    else
      var h0 := AtLock(h, env(i).irqs);
      var b := OneBlock(h0, j, i, env(i).allocs, script);
      var card1 := BlockCard(h0, j, i, env(i).allocs, script, card, garbage(i));
      if b.Moved? && b.result >= 0 && env(i).unlock then LoopCard(b.host, j, i + 1, env, b.rest, card1, garbage)
      else card1
  }

  /** One block of a write or a read, told in card bytes and memory bytes. */
  lemma BlockEffect(h: Host, j: Job, i: nat, allocs: Allocs, script: seq<Event>, card: Card, garbage: seq<byte>)
    requires HostOk(h) && h.queue == [] && JobOk(j, |h.ram|) && i < j.n && ScriptOk(script, |h.ram|) && OnCard(j, card)
    requires |garbage| == BLOCK_SIZE && BlockObeys(h, j, i, allocs, script, card)
    requires j.command in {READ_SINGLE_BLOCK, WRITE_BLOCK} && OneBlock(h, j, i, allocs, script).Moved?
    ensures
      var b, a, p := OneBlock(h, j, i, allocs, script), BLOCK_SIZE * (j.start + i), j.port + BLOCK_SIZE * i;
      var after := BlockCard(h, j, i, allocs, script, card, garbage);
      && b.host.queue == []
      && (j.command == WRITE_BLOCK ==>
            && b.host.ram == h.ram
            && (b.result >= 0 ==> after.mem == Splice(card.mem, a, h.ram[p..p + BLOCK_SIZE]))
            && (after.mem == card.mem || exists d :: |d| == BLOCK_SIZE && after.mem == Splice(card.mem, a, d)))
      && (j.command == READ_SINGLE_BLOCK ==>
            && after == card
            && (b.result >= 0 ==> b.host.ram == Splice(h.ram, p, card.mem[a..a + BLOCK_SIZE]))
            && (b.host.ram == h.ram || exists d :: |d| == BLOCK_SIZE && b.host.ram == Splice(h.ram, p, d)))
  {
    hide BlockingSend, Obeys, CmdOk, Splice, InCard, AddressOf, QueueOk, IsTransfer, Wire, CmdOf, CardAfter, OneBlock,
         BlockCard, BlockObeys;
    BlockOnCard(j, card, i, allocs.garbage, |h.ram|);
    BlockCases(h, j, i, allocs, script, card, garbage);
    if allocs.cmd && allocs.data {
      TransferEffect(h, CmdOf(j, i, allocs.garbage), card, script, garbage);
    }
  }

  /** A block that was sent is its blocking send. */
  lemma BlockCases(h: Host, j: Job, i: nat, allocs: Allocs, script: seq<Event>, card: Card, garbage: seq<byte>)
    requires HostOk(h) && JobOk(j, |h.ram|) && i < j.n && ScriptOk(script, |h.ram|) && OnCard(j, card)
    requires |garbage| == BLOCK_SIZE && BlockObeys(h, j, i, allocs, script, card)
    requires OneBlock(h, j, i, allocs, script).Moved?
    ensures CmdOk(CmdOf(j, i, allocs.garbage), |h.ram|) && InCard(card, CmdOf(j, i, allocs.garbage).arg)
    ensures !allocs.cmd || !allocs.data ==>
              && OneBlock(h, j, i, allocs, script) == Moved(-1, h, script)
              && BlockCard(h, j, i, allocs, script, card, garbage) == card
    ensures allocs.cmd && allocs.data ==>
              var c := CmdOf(j, i, allocs.garbage);
              var w := BlockingSend(h, c, script);
              && w.Returned? && Obeys(card, Wire(c), false, Used(script, w.rest))
              && OneBlock(h, j, i, allocs, script) == Moved(if w.code < 0 then w.code else BLOCK_SIZE, w.host, w.rest)
              && BlockCard(h, j, i, allocs, script, card, garbage) ==
                 CardAfter(card, Wire(c), NewlyPushed(h, w.host), w.code == 1, garbage)
  {
    hide BlockingSend, Obeys, CmdOk, InCard, AddressOf, QueueOk, IsTransfer, Wire, CmdOf, CardAfter;
    BlockOnCard(j, card, i, allocs.garbage, |h.ram|);
  }

  // ---------------------------------------------------------------- whole requests

  /** How far a loop that counted `done` blocks has touched its target: a failed block counts too. */
  function Reached(j: Job, done: nat): nat {
    if done < j.n then done + 1 else done
  }

  /** `dst`, from address `d` on, holds blocks `from` to `done` of `src`, from address `s` on; outside
      blocks `from` to `reached` it is `before`. */
  ghost predicate Copied(before: seq<byte>, dst: seq<byte>, d: nat, src: seq<byte>, s: nat, from: nat, done: nat,
                         reached: nat) {
    && |dst| == |before| && from <= done <= reached
    && d + BLOCK_SIZE * reached <= |dst| && s + BLOCK_SIZE * done <= |src|
    && (forall a :: d + BLOCK_SIZE * from <= a < d + BLOCK_SIZE * done ==> dst[a] == src[a - d + s])
    && (forall a :: 0 <= a < |dst| && !(d + BLOCK_SIZE * from <= a < d + BLOCK_SIZE * reached) ==> dst[a] == before[a])
  }

  lemma NothingCopied(m: seq<byte>, d: nat, src: seq<byte>, s: nat, i: nat, reached: nat)
    requires d + BLOCK_SIZE * reached <= |m| && s + BLOCK_SIZE * i <= |src| && i <= reached
    ensures Copied(m, m, d, src, s, i, i, reached)
  {
  }

  lemma GarbageCopied(m: seq<byte>, m1: seq<byte>, d: nat, src: seq<byte>, s: nat, i: nat, g: seq<byte>)
    requires d + BLOCK_SIZE * (i + 1) <= |m| && s + BLOCK_SIZE * i <= |src| && |g| == BLOCK_SIZE
    requires m1 == Splice(m, d + BLOCK_SIZE * i, g)
    ensures Copied(m, m1, d, src, s, i, i, i + 1)
  {
  }

  lemma BlockCopied(m: seq<byte>, m1: seq<byte>, d: nat, src: seq<byte>, s: nat, i: nat)
    requires d + BLOCK_SIZE * (i + 1) <= |m| && s + BLOCK_SIZE * (i + 1) <= |src|
    requires m1 == Splice(m, d + BLOCK_SIZE * i, src[s + BLOCK_SIZE * i..s + BLOCK_SIZE * i + BLOCK_SIZE])
    ensures Copied(m, m1, d, src, s, i, i + 1, i + 1)
  {
    var a := d + BLOCK_SIZE * i;
    forall b | a <= b < a + BLOCK_SIZE
      ensures m1[b] == src[b - d + s]
    {
      assert m1[a..a + BLOCK_SIZE][b - a] == m1[b];
    }
  }

  lemma CopiedMore(m: seq<byte>, reached: nat, m1: seq<byte>, d: nat, src: seq<byte>, s: nat, i: nat, done: nat)
    requires Copied(m, m1, d, src, s, i, done, done) && done <= reached && d + BLOCK_SIZE * reached <= |m|
    ensures Copied(m, m1, d, src, s, i, done, reached)
  {
  }

  lemma CopiedThen(m: seq<byte>, m1: seq<byte>, m2: seq<byte>, d: nat, src: seq<byte>, s: nat, i: nat, done: nat,
                   reached: nat)
    requires Copied(m, m1, d, src, s, i, i + 1, i + 1) && Copied(m1, m2, d, src, s, i + 1, done, reached)
    ensures Copied(m, m2, d, src, s, i, done, reached)
  {
  }

  /** One block of a write: it is on the card when the transfer succeeded, and touched at most when not. */
  lemma BlockWrites(h: Host, j: Job, i: nat, allocs: Allocs, script: seq<Event>, card: Card, garbage: seq<byte>)
    requires HostOk(h) && h.queue == [] && JobOk(j, |h.ram|) && i < j.n && ScriptOk(script, |h.ram|) && OnCard(j, card)
    requires |garbage| == BLOCK_SIZE && BlockObeys(h, j, i, allocs, script, card)
    requires j.command == WRITE_BLOCK && OneBlock(h, j, i, allocs, script).Moved?
    ensures
      var b, after := OneBlock(h, j, i, allocs, script), BlockCard(h, j, i, allocs, script, card, garbage);
      && b.host.queue == [] && b.host.ram == h.ram
      && Copied(card.mem, after.mem, BLOCK_SIZE * j.start, h.ram, j.port, i, if b.result < 0 then i else i + 1, i + 1)
  {
    hide OneBlock, BlockCard, BlockObeys, Copied, QueueOk, ScriptOk, Splice, OnCard;
    CardRoom(j, card);
    var b, after := OneBlock(h, j, i, allocs, script), BlockCard(h, j, i, allocs, script, card, garbage);
    var d := BLOCK_SIZE * j.start;
    BlockEffect(h, j, i, allocs, script, card, garbage);
    if b.result >= 0 {
      BlockCopied(card.mem, after.mem, d, h.ram, j.port, i);
    } else if after.mem == card.mem {
      NothingCopied(card.mem, d, h.ram, j.port, i, i + 1);
    } else {
      var g :| |g| == BLOCK_SIZE && after.mem == Splice(card.mem, BLOCK_SIZE * (j.start + i), g);
      GarbageCopied(card.mem, after.mem, d, h.ram, j.port, i, g);
    }
  }

  /** One block of a read. */
  lemma BlockReads(h: Host, j: Job, i: nat, allocs: Allocs, script: seq<Event>, card: Card, garbage: seq<byte>)
    requires HostOk(h) && h.queue == [] && JobOk(j, |h.ram|) && i < j.n && ScriptOk(script, |h.ram|) && OnCard(j, card)
    requires |garbage| == BLOCK_SIZE && BlockObeys(h, j, i, allocs, script, card)
    requires j.command == READ_SINGLE_BLOCK && OneBlock(h, j, i, allocs, script).Moved?
    ensures
      var b := OneBlock(h, j, i, allocs, script);
      && b.host.queue == [] && BlockCard(h, j, i, allocs, script, card, garbage) == card
      && Copied(h.ram, b.host.ram, j.port, card.mem, BLOCK_SIZE * j.start, i, if b.result < 0 then i else i + 1, i + 1)
  {
    hide OneBlock, BlockCard, BlockObeys, Copied, QueueOk, ScriptOk, Splice, OnCard;
    CardRoom(j, card);
    var b, s := OneBlock(h, j, i, allocs, script), BLOCK_SIZE * j.start;
    BlockEffect(h, j, i, allocs, script, card, garbage);
    if b.result >= 0 {
      BlockCopied(h.ram, b.host.ram, j.port, card.mem, s, i);
    } else if b.host.ram == h.ram {
      NothingCopied(h.ram, j.port, card.mem, s, i, i + 1);
    } else {
      var g :| |g| == BLOCK_SIZE && b.host.ram == Splice(h.ram, j.port + BLOCK_SIZE * i, g);
      GarbageCopied(h.ram, b.host.ram, j.port, card.mem, s, i, g);
    }
  }

  /** A write: for every pattern of failures, the blocks counted are on the card, from consecutive chunks of
      the dataport; one more block at most has been touched; memory is unchanged and the host idle again. */
  lemma {:induction false} LoopWrites(h: Host, j: Job, i: nat, env: nat -> BlockEnv, script: seq<Event>, card: Card,
                                      garbage: nat -> seq<byte>)
    requires HostOk(h) && h.queue == [] && LoopOk(h, j, env, script) && i <= j.n && OnCard(j, card)
    requires forall k :: |garbage(k)| == BLOCK_SIZE
    requires j.command == WRITE_BLOCK && LoopObeys(h, j, i, env, script, card, garbage)
    requires BlockLoop(h, j, i, env, script).LoopEnd?
    ensures
      var end, after := BlockLoop(h, j, i, env, script), LoopCard(h, j, i, env, script, card, garbage);
      && end.host.queue == [] && end.host.ram == h.ram
      && Copied(card.mem, after.mem, BLOCK_SIZE * j.start, h.ram, j.port, i, end.done, Reached(j, end.done))
    decreases j.n - i
  {
    hide OneBlock, BlockCard, BlockObeys, Copied, OnCard, QueueOk, ScriptOk, Handled, AtLock, BlockLoop, FromLock;
    var d := BLOCK_SIZE * j.start;
    CardRoom(j, card);
    LoopCases(h, j, i, env, script);
    var h0 := if i < j.n then AtLock(h, env(i).irqs) else h;
    if i == j.n || !env(i).lock {
      NothingCopied(card.mem, d, h.ram, j.port, i, Reached(j, i));
    } else {
      var b, card1 := OneBlock(h0, j, i, env(i).allocs, script),
        BlockCard(h0, j, i, env(i).allocs, script, card, garbage(i));
      BlockWrites(h0, j, i, env(i).allocs, script, card, garbage(i));
      if b.result >= 0 && env(i).unlock {
        LoopWrites(b.host, j, i + 1, env, b.rest, card1, garbage);
        var end, after := BlockLoop(h, j, i, env, script), LoopCard(h, j, i, env, script, card, garbage);
        CopiedThen(card.mem, card1.mem, after.mem, d, h.ram, j.port, i, end.done, Reached(j, end.done));
      } else if b.result >= 0 {
        CopiedMore(card.mem, Reached(j, i + 1), card1.mem, d, h.ram, j.port, i, i + 1);
      }
    }
  }

  /** The loop from an idle host, by how it goes on. */
  lemma LoopCases(h: Host, j: Job, i: nat, env: nat -> BlockEnv, script: seq<Event>)
    requires HostOk(h) && h.queue == [] && LoopOk(h, j, env, script) && i <= j.n
    ensures i == j.n ==> BlockLoop(h, j, i, env, script) == LoopEnd(i, h, script)
    ensures i < j.n ==>
              var h0 := AtLock(h, env(i).irqs);
              && h0.queue == [] && h0.ram == h.ram
              && match if env(i).lock then OneBlock(h0, j, i, env(i).allocs, script) else Moved(-1, h0, script)
                 case BlockDied => BlockLoop(h, j, i, env, script) == LoopDied
                 case BlockPolling => BlockLoop(h, j, i, env, script) == LoopPolling
                 case Moved(result, h1, rest) =>
                   BlockLoop(h, j, i, env, script) ==
                   if result < 0 then LoopEnd(i, h1, rest)
                   else if !env(i).unlock then LoopEnd(i + 1, h1, rest)
                   else BlockLoop(h1, j, i + 1, env, rest)
  {
    hide OneBlock, Handled;
    if i < j.n {
      BlockLoopUnrolled(h, j, i, env, script);
      IdleStaysIdle(h, env(i).irqs);
    }
  }

  lemma CardRoom(j: Job, card: Card)
    requires OnCard(j, card)
    ensures BLOCK_SIZE * (j.start + j.n) <= |card.mem|
  {
  }

  /** A read: the converse, with the card unchanged. */
  lemma {:induction false} LoopReads(h: Host, j: Job, i: nat, env: nat -> BlockEnv, script: seq<Event>, card: Card,
                                     garbage: nat -> seq<byte>)
    requires HostOk(h) && h.queue == [] && LoopOk(h, j, env, script) && i <= j.n && OnCard(j, card)
    requires forall k :: |garbage(k)| == BLOCK_SIZE
    requires j.command == READ_SINGLE_BLOCK && LoopObeys(h, j, i, env, script, card, garbage)
    requires BlockLoop(h, j, i, env, script).LoopEnd?
    ensures
      var end := BlockLoop(h, j, i, env, script);
      && end.host.queue == [] && LoopCard(h, j, i, env, script, card, garbage) == card
      && Copied(h.ram, end.host.ram, j.port, card.mem, BLOCK_SIZE * j.start, i, end.done, Reached(j, end.done))
    decreases j.n - i
  {
    hide OneBlock, BlockCard, BlockObeys, Copied, OnCard, QueueOk, ScriptOk, Handled, AtLock, BlockLoop, FromLock;
    var s := BLOCK_SIZE * j.start;
    CardRoom(j, card);
    LoopCases(h, j, i, env, script);
    var h0 := if i < j.n then AtLock(h, env(i).irqs) else h;
    if i == j.n || !env(i).lock {
      NothingCopied(h.ram, j.port, card.mem, s, i, Reached(j, i));
    } else {
      var b := OneBlock(h0, j, i, env(i).allocs, script);
      BlockReads(h0, j, i, env(i).allocs, script, card, garbage(i));
      if b.result >= 0 && env(i).unlock {
        LoopReads(b.host, j, i + 1, env, b.rest, card, garbage);
        var end := BlockLoop(h, j, i, env, script);
        CopiedThen(h.ram, b.host.ram, end.host.ram, j.port, card.mem, s, i, end.done, Reached(j, end.done));
      } else if b.result >= 0 {
        CopiedMore(h.ram, Reached(j, i + 1), b.host.ram, j.port, card.mem, s, i, i + 1);
      }
    }
  }

  lemma AllCopied(before: seq<byte>, dst: seq<byte>, d: nat, src: seq<byte>, s: nat, n: nat)
    requires Copied(before, dst, d, src, s, 0, n, n)
    ensures dst == Splice(before, d, src[s..s + BLOCK_SIZE * n])
  {
    var chunk := src[s..s + BLOCK_SIZE * n];
    forall a | 0 <= a < |dst|
      ensures dst[a] == Splice(before, d, chunk)[a]
    {
      if d <= a < d + BLOCK_SIZE * n {
        assert chunk[a - d] == src[a - d + s];
      }
    }
  }

  /** At most the first `n` blocks from address `d` on differ. */
  ghost predicate OnlyBlocksChanged(before: seq<byte>, after: seq<byte>, d: nat, n: nat) {
    |after| == |before| && forall a :: 0 <= a < |before| && !(d <= a < d + BLOCK_SIZE * n) ==> after[a] == before[a]
  }

  /** A write that answers success has stored the dataport's bytes at the requested offset and changed
      nothing else; whatever it answers, the bytes it counts are on the card, and beyond them at most the
      block that failed has been touched. */
  lemma WriteStores(before: Host, j: Job, env: nat -> BlockEnv, script: seq<Event>, answer: Answer, after: Host,
                    rest: seq<Event>,
                    card: Card, garbage: nat -> seq<byte>)
    requires Performed(before, j, env, script, answer, after, rest) && answer.Answer? && before.queue == []
    requires j.command == WRITE_BLOCK && OnCard(j, card) && forall k :: |garbage(k)| == BLOCK_SIZE
    requires LoopObeys(before, j, 0, env, script, card, garbage)
    ensures
      var stored := LoopCard(before, j, 0, env, script, card, garbage).mem;
      && after.queue == [] && after.ram == before.ram && answer.bytes <= BLOCK_SIZE * j.n
      && (answer.err == SUCCESS <==> answer.bytes == BLOCK_SIZE * j.n)
      && (answer.err == SUCCESS ==>
            stored == Splice(card.mem, BLOCK_SIZE * j.start, before.ram[j.port..j.port + BLOCK_SIZE * j.n]))
      && stored[BLOCK_SIZE * j.start..BLOCK_SIZE * j.start + answer.bytes] == before.ram[j.port..j.port + answer.bytes]
      && OnlyBlocksChanged(card.mem, stored, BLOCK_SIZE * j.start, Reached(j, answer.bytes / BLOCK_SIZE))
  {
    hide LoopObeys, BlockLoop, LoopCard;
    LoopWrites(before, j, 0, env, script, card, garbage);
    var stored, done := LoopCard(before, j, 0, env, script, card, garbage).mem, answer.bytes / BLOCK_SIZE;
    assert answer.bytes == BLOCK_SIZE * done;
    if done == j.n {
      AllCopied(card.mem, stored, BLOCK_SIZE * j.start, before.ram, j.port, j.n);
    }
  }

  /** A read that answers success has filled the dataport with the card's bytes and changed nothing else;
      whatever it answers, the bytes it counts have arrived, and memory beyond the failed block is kept. */
  lemma ReadLoads(before: Host, j: Job, env: nat -> BlockEnv, script: seq<Event>, answer: Answer, after: Host,
                  rest: seq<Event>,
                  card: Card, garbage: nat -> seq<byte>)
    requires Performed(before, j, env, script, answer, after, rest) && answer.Answer? && before.queue == []
    requires j.command == READ_SINGLE_BLOCK && OnCard(j, card) && forall k :: |garbage(k)| == BLOCK_SIZE
    requires LoopObeys(before, j, 0, env, script, card, garbage)
    ensures
      && after.queue == [] && LoopCard(before, j, 0, env, script, card, garbage) == card
        && answer.bytes <= BLOCK_SIZE * j.n
      && (answer.err == SUCCESS <==> answer.bytes == BLOCK_SIZE * j.n)
      && (answer.err == SUCCESS ==>
            after.ram == Splice(before.ram, j.port,
                                card.mem[BLOCK_SIZE * j.start..BLOCK_SIZE * j.start + BLOCK_SIZE * j.n]))
      && after.ram[j.port..j.port + answer.bytes] == card.mem[BLOCK_SIZE * j.start..BLOCK_SIZE * j.start + answer.bytes]
      && OnlyBlocksChanged(before.ram, after.ram, j.port, Reached(j, answer.bytes / BLOCK_SIZE))
  {
    hide LoopObeys, BlockLoop, LoopCard;
    LoopReads(before, j, 0, env, script, card, garbage);
    var done := answer.bytes / BLOCK_SIZE;
    assert answer.bytes == BLOCK_SIZE * done;
    if done == j.n {
      AllCopied(before.ram, after.ram, j.port, card.mem, BLOCK_SIZE * j.start, j.n);
    }
  }

  /** Writing a range and reading it back returns the data, whatever the client did to memory and whatever
      the interrupt thread did between the two calls. */
  lemma WriteThenRead(h0: Host, w: Job, env0: nat -> BlockEnv, script0: seq<Event>, answer0: Answer, h1: Host,
                      rest0: seq<Event>,
                      irqs: seq<Event>, ram: seq<byte>,
                      r: Job, env1: nat -> BlockEnv, script1: seq<Event>, answer1: Answer, h2: Host, rest1: seq<Event>,
                      card: Card, garbage: nat -> seq<byte>)
    requires w.command == WRITE_BLOCK && r == w.(command := READ_SINGLE_BLOCK) && OnCard(w, card)
    requires h0.queue == [] && forall k :: |garbage(k)| == BLOCK_SIZE
    requires Performed(h0, w, env0, script0, answer0, h1, rest0) && answer0.Answer? && answer0.err == SUCCESS
    requires LoopObeys(h0, w, 0, env0, script0, card, garbage)
    requires HostOk(h1) && ScriptOk(irqs, |h1.ram|) && |ram| == |h1.ram|
    requires Performed(AtLock(h1, irqs).(ram := ram), r, env1, script1, answer1, h2, rest1)
    requires answer1.Answer? && answer1.err == SUCCESS
    requires LoopObeys(AtLock(h1, irqs).(ram := ram), r, 0, env1, script1,
                       LoopCard(h0, w, 0, env0, script0, card, garbage),
                       garbage)
    ensures h2.ram == Splice(ram, w.port, h0.ram[w.port..w.port + BLOCK_SIZE * w.n])
    ensures h2.ram[w.port..w.port + BLOCK_SIZE * w.n] == h0.ram[w.port..w.port + BLOCK_SIZE * w.n]
  {
    hide LoopObeys, LoopCard, BlockLoop, Splice, AtLock, Handled;
    WriteStores(h0, w, env0, script0, answer0, h1, rest0, card, garbage);
    IdleStaysIdle(h1, irqs);
    var card1 := LoopCard(h0, w, 0, env0, script0, card, garbage);
    ReadLoads(AtLock(h1, irqs).(ram := ram), r, env1, script1, answer1, h2, rest1, card1, garbage);
  }

  // ---------------------------------------------------------------- the calls of the service

  /** A request on an idle host, with the card the service was started with and a mapped dataport. */
  ghost predicate Setting(svc: Service, rpc: Rpc, before: Host, script: seq<Event>, card: Card,
                          garbage: nat -> seq<byte>) {
    && HostOk(before) && before.queue == [] && EnvOk(rpc.env, |before.ram|) && ScriptOk(script, |before.ram|)
    && svc.portBase > 0 && svc.portBase + svc.portSize <= |before.ram|
    && Serves(svc, card) && forall k :: |garbage(k)| == BLOCK_SIZE
  }

  predicate Moves(svc: Service, rpc: Rpc) {
    Ruling(svc, rpc) == SUCCESS && rpc.size > 0
  }

  lemma MovingJob(svc: Service, rpc: Rpc, before: Host, script: seq<Event>, card: Card, garbage: nat -> seq<byte>)
    requires Setting(svc, rpc, before, script, card, garbage) && Moves(svc, rpc)
    ensures Admitted(rpc) && rpc.size <= svc.portSize
    ensures
      var j := JobFor(svc, rpc);
      && LoopOk(before, j, rpc.env, script) && OnCard(j, card)
      && BLOCK_SIZE * j.n == rpc.size && BLOCK_SIZE * j.start == rpc.offset
  {
    hide Ruling, JobFor, Matches;
    AdmittedIsOnCard(svc, rpc, card);
    AdmittedJob(svc, rpc, |before.ram|);
  }

  /** Every transfer of the request is obeyed by the card. */
  ghost predicate RpcObeyed(svc: Service, rpc: Rpc, before: Host, script: seq<Event>, card: Card,
                            garbage: nat -> seq<byte>)
    requires Setting(svc, rpc, before, script, card, garbage)
  {
    Moves(svc, rpc) ==>
      (MovingJob(svc, rpc, before, script, card, garbage);
       LoopObeys(before, JobFor(svc, rpc), 0, rpc.env, script, card, garbage))
  }

  /** The card after the request. */
  ghost function RpcCard(svc: Service, rpc: Rpc, before: Host, script: seq<Event>, card: Card,
                         garbage: nat -> seq<byte>): (r: Card)
    requires Setting(svc, rpc, before, script, card, garbage)
    ensures |r.mem| == |card.mem| && r.highCapacity == card.highCapacity
  {
    if !Moves(svc, rpc) then card
    else
      MovingJob(svc, rpc, before, script, card, garbage);
      LoopCard(before, JobFor(svc, rpc), 0, rpc.env, script, card, garbage)
  }

  /** `after` is `before` with `n` bytes of `src`, from `s` on, at address `d`. */
  ghost predicate Transferred(before: seq<byte>, after: seq<byte>, d: int, src: seq<byte>, s: int, n: int) {
    0 <= n && 0 <= d && d + n <= |before| && 0 <= s && s + n <= |src| && after == Splice(before, d, src[s..s + n])
  }

  ghost predicate HoldsAt(m: seq<byte>, d: int, src: seq<byte>, s: int, n: int) {
    0 <= n && 0 <= d && d + n <= |m| && 0 <= s && s + n <= |src| && m[d..d + n] == src[s..s + n]
  }

  ghost predicate OnlyChanged(before: seq<byte>, after: seq<byte>, d: int, n: int) {
    |after| == |before| && forall a :: 0 <= a < |before| && !(d <= a < d + n) ==> after[a] == before[a]
  }

  lemma FewerBlocks(before: seq<byte>, after: seq<byte>, d: nat, m: nat, n: nat)
    requires OnlyBlocksChanged(before, after, d, m) && m <= n
    ensures OnlyChanged(before, after, d, BLOCK_SIZE * n)
  {
  }

  /** An admitted request without bytes lies on the card too. */
  lemma EmptyIsInside(svc: Service, rpc: Rpc, card: Card)
    requires Serves(svc, card) && Ruling(svc, rpc) == SUCCESS
    ensures 0 <= rpc.offset <= |card.mem|
  {
    hide CardRegisters.CardCapacity, CardRegisters.DecodeCsd, Admission;
    AdmissionIsExact(svc.bitmap, svc.rawCsd, rpc.offset, rpc.size, rpc.locks, svc.portSize);
  }

  lemma NothingTransferred(m: seq<byte>, d: int, src: seq<byte>, s: int)
    requires 0 <= d <= |m| && 0 <= s <= |src|
    ensures Transferred(m, m, d, src, s, 0)
  {
  }

  /** A write call: success is answered exactly for an admitted request all of whose bytes are counted, and
      then card bytes `[offset, offset + size)` are dataport bytes `[0, size)` and no other changed; the bytes
      counted are on the card whatever the answer, and bytes outside the requested range never change. */
  lemma RpcWriteStores(svc: Service, rpc: Rpc, script: seq<Event>, before: Host, answer: Answer, after: Host,
                       rest: seq<Event>,
                       card: Card, garbage: nat -> seq<byte>)
    requires Setting(svc, rpc, before, script, card, garbage) && rpc.command == WRITE_BLOCK
    requires Replied(svc, rpc, script, before, answer, after, rest) && answer.Answer?
    requires RpcObeyed(svc, rpc, before, script, card, garbage)
    ensures after.queue == [] && after.ram == before.ram && HostOk(after)
    ensures answer.err == SUCCESS <==> Ruling(svc, rpc) == SUCCESS && answer.bytes == rpc.size
    ensures
      var stored := RpcCard(svc, rpc, before, script, card, garbage).mem;
      && (answer.err == SUCCESS ==> Transferred(card.mem, stored, rpc.offset, before.ram, svc.portBase, rpc.size))
      && (answer.bytes > 0 ==> HoldsAt(stored, rpc.offset, before.ram, svc.portBase, answer.bytes))
      && OnlyChanged(card.mem, stored, rpc.offset, rpc.size)
  {
    hide LoopObeys, BlockLoop, LoopCard, Ruling, Matches, Splice, JobFor;
    if Moves(svc, rpc) {
      MovingJob(svc, rpc, before, script, card, garbage);
      var j := JobFor(svc, rpc);
      JobIs(svc, rpc);
      WriteStores(before, j, rpc.env, script, answer, after, rest, card, garbage);
      var stored := LoopCard(before, j, 0, rpc.env, script, card, garbage).mem;
      FewerBlocks(card.mem, stored, rpc.offset, Reached(j, answer.bytes / BLOCK_SIZE), j.n);
    } else if Ruling(svc, rpc) == SUCCESS {
      EmptyIsInside(svc, rpc, card);
      NothingTransferred(card.mem, rpc.offset, before.ram, svc.portBase);
    }
  }

  lemma JobIs(svc: Service, rpc: Rpc)
    requires rpc.offset >= 0 && rpc.size > 0
    ensures JobFor(svc, rpc).port == svc.portBase && JobFor(svc, rpc).command == rpc.command
  {
  }

  /** A read call: the converse, with the card unchanged and memory outside the first `size` bytes of the
      dataport never touched. */
  lemma RpcReadLoads(svc: Service, rpc: Rpc, script: seq<Event>, before: Host, answer: Answer, after: Host,
                     rest: seq<Event>,
                     card: Card, garbage: nat -> seq<byte>)
    requires Setting(svc, rpc, before, script, card, garbage) && rpc.command == READ_SINGLE_BLOCK
    requires Replied(svc, rpc, script, before, answer, after, rest) && answer.Answer?
    requires RpcObeyed(svc, rpc, before, script, card, garbage)
    ensures after.queue == [] && RpcCard(svc, rpc, before, script, card, garbage) == card
    ensures answer.err == SUCCESS <==> Ruling(svc, rpc) == SUCCESS && answer.bytes == rpc.size
    ensures answer.err == SUCCESS ==> Transferred(before.ram, after.ram, svc.portBase, card.mem, rpc.offset, rpc.size)
    ensures answer.bytes > 0 ==> HoldsAt(after.ram, svc.portBase, card.mem, rpc.offset, answer.bytes)
    ensures OnlyChanged(before.ram, after.ram, svc.portBase, rpc.size)
  {
    hide LoopObeys, BlockLoop, LoopCard, Ruling, Matches, Splice, JobFor;
    if Moves(svc, rpc) {
      MovingJob(svc, rpc, before, script, card, garbage);
      var j := JobFor(svc, rpc);
      JobIs(svc, rpc);
      ReadLoads(before, j, rpc.env, script, answer, after, rest, card, garbage);
      FewerBlocks(before.ram, after.ram, svc.portBase, Reached(j, answer.bytes / BLOCK_SIZE), j.n);
    } else if Ruling(svc, rpc) == SUCCESS {
      EmptyIsInside(svc, rpc, card);
      NothingTransferred(before.ram, svc.portBase, card.mem, rpc.offset);
    }
  }

  /** A write call and, after whatever the client did to memory and the interrupt thread did, a read call
      for the same range: when both answer success, the dataport holds what was written. */
  lemma RpcWriteThenRead(svc: Service, w: Rpc, script0: seq<Event>, before: Host, answer0: Answer, between: Host,
                         rest0: seq<Event>, irqs: seq<Event>, ram: seq<byte>,
                         r: Rpc, script1: seq<Event>, answer1: Answer, after: Host, rest1: seq<Event>,
                         card: Card, garbage: nat -> seq<byte>)
    requires w.command == WRITE_BLOCK && r.command == READ_SINGLE_BLOCK && r.offset == w.offset && r.size == w.size
    requires Setting(svc, w, before, script0, card, garbage) && RpcObeyed(svc, w, before, script0, card, garbage)
    requires Replied(svc, w, script0, before, answer0, between, rest0) && answer0.Answer? && answer0.err == SUCCESS
    requires HostOk(between) && ScriptOk(irqs, |between.ram|) && |ram| == |between.ram|
    requires
      var again, written := AtLock(between, irqs).(ram := ram), RpcCard(svc, w, before, script0, card, garbage);
      && Setting(svc, r, again, script1, written, garbage) && RpcObeyed(svc, r, again, script1, written, garbage)
      && Replied(svc, r, script1, again, answer1, after, rest1) && answer1.Answer? && answer1.err == SUCCESS
    ensures Transferred(ram, after.ram, svc.portBase, before.ram, svc.portBase, w.size)
  {
    hide RpcObeyed, RpcCard, AtLock, Replied, Ruling, Splice;
    RpcWriteStores(svc, w, script0, before, answer0, between, rest0, card, garbage);
    var written := RpcCard(svc, w, before, script0, card, garbage);
    RpcReadLoads(svc, r, script1, AtLock(between, irqs).(ram := ram), answer1, after, rest1, written, garbage);
    SplicedBack(card.mem, w.offset, before.ram, svc.portBase, w.size);
  }

  lemma SplicedBack(m: seq<byte>, d: int, src: seq<byte>, s: int, n: int)
    requires 0 <= n && 0 <= d && d + n <= |m| && 0 <= s && s + n <= |src|
    ensures Splice(m, d, src[s..s + n])[d..d + n] == src[s..s + n]
  {
  }
}
