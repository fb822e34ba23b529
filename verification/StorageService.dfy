/**
 The block storage service: validation of requests in mixed signed and unsigned arithmetic, start-up,
 and the block loops behind the read and write calls, with the interrupt thread between the blocks.
 */
module StorageService {
  import opened Base
  import CardInit
  import opened CardRegisters
  import opened HostController
  import opened HostModel
  import QueueRuns
  import Registers

  type i64 = x: int | -0x8000_0000_0000_0000 <= x < 0x8000_0000_0000_0000

  datatype OsError = SUCCESS | INVALID_PARAMETER | OUT_OF_BOUNDS | ABORTED | DEVICE_NOT_PRESENT | INVALID_STATE

  // ---------------------------------------------------------------- validation

  /** Conversion of a signed value to an unsigned 64-bit one. */
  function Unsigned(x: i64): u64 {
    if x < 0 then x + 0x1_0000_0000_0000_0000 else x
  }

  /** Conversion of an unsigned value to a signed 64-bit one. */
  function Signed(x: u64): i64 {
    if x < 0x8000_0000_0000_0000 then x else x - 0x1_0000_0000_0000_0000
  }

  predicate IsValidStorageArea(offset: i64, size: i64, storageSz: i64) {
    var end := (Unsigned(offset) + Unsigned(size)) % 0x1_0000_0000_0000_0000;
    offset >= 0 && size >= 0 && end >= Unsigned(offset) && end <= Unsigned(storageSz)
  }

  predicate AreValidArguments(offset: i64, size: i64, blockSz: u64)
    requires blockSz != 0
  {
    Unsigned(offset) % blockSz == 0 && Unsigned(size) % blockSz == 0
  }

  function VerifyParameters(offset: i64, size: i64, blockSz: u64, storageSz: i64, dataportSz: u64): OsError {
    if offset < 0 || size < 0 || blockSz == 0 || storageSz <= 0 then INVALID_PARAMETER
    else if Unsigned(size) > dataportSz then INVALID_PARAMETER
    else if !AreValidArguments(offset, size, blockSz) then INVALID_PARAMETER
    else if !IsValidStorageArea(offset, size, storageSz) then OUT_OF_BOUNDS
    else SUCCESS
  }

  /** A request is accepted exactly when, over the integers, it is aligned, fits the dataport and lies
      inside the storage; the range error means that nothing else was wrong. */
  lemma ValidationIsExact(offset: i64, size: i64, blockSz: u64, storageSz: i64, dataportSz: u64)
    ensures
      var aligned := && 0 <= offset && 0 <= size <= dataportSz && blockSz != 0 && storageSz > 0
                     && offset % blockSz == 0 && size % blockSz == 0;
      VerifyParameters(offset, size, blockSz, storageSz, dataportSz) ==
        if !aligned then INVALID_PARAMETER else if offset + size <= storageSz then SUCCESS else OUT_OF_BOUNDS
  {
  }

  /** On its own the area check is right exactly for storage sizes that are not negative: a capacity of
      -1, the error value of the card layer, converts to the largest unsigned value and admits every
      range. The guard on the storage size in front of it is what keeps such requests out. */
  lemma AreaCheckNeedsItsGuard(storageSz: i64)
    ensures
      (forall offset: i64, size: i64 ::
         IsValidStorageArea(offset, size, storageSz) <==> 0 <= offset && 0 <= size && offset + size <= storageSz)
      <==> storageSz >= 0
    ensures IsValidStorageArea(0, 0, -1)
  {
    assert IsValidStorageArea(0, 0, storageSz);
  }

  // ---------------------------------------------------------------- start-up

  const FAIL_IO_OPS := 0x01
  const FAIL_SDIO := 0x02
  const FAIL_CINST := 0x04
  const FAIL_MMC := 0x08
  const FAIL_SDIRQ := 0x10
  const NOT_INITIALIZED := 0xff

  function CheckInit(bitmap: byte): OsError {
    if bitmap / FAIL_CINST % 2 == 1 then DEVICE_NOT_PRESENT
    else if bitmap == NOT_INITIALIZED then INVALID_STATE
    else SUCCESS
  }

  /** The documented INVALID_STATE is never returned: the value that marks an uninitialised service has
      the card-absent bit set. A failed start-up is noticed exactly when no card was inserted. */
  lemma OnlyAbsenceIsNoticed(bitmap: byte)
    ensures CheckInit(bitmap) != INVALID_STATE
    ensures CheckInit(bitmap) == if bitmap / FAIL_CINST % 2 == 0 then SUCCESS else DEVICE_NOT_PRESENT
    ensures CheckInit(NOT_INITIALIZED) == DEVICE_NOT_PRESENT
    ensures bitmap in {FAIL_IO_OPS, FAIL_SDIO, FAIL_MMC, FAIL_SDIRQ} ==> CheckInit(bitmap) == SUCCESS
  {
  }

  // ---------------------------------------------------------------- the block loop, on values

  /** What the environment does around one block: the interrupt thread's handler calls while the mutex is
      free before it, then the lock, the allocator, the unlock. */
  datatype BlockEnv = BlockEnv(irqs: seq<Event>, lock: bool, allocs: Allocs, unlock: bool)

  ghost predicate EnvOk(env: nat -> BlockEnv, ramSize: nat) {
    forall i :: ScriptOk(env(i).irqs, ramSize)
  }

  /** The request behind a block loop: `n` blocks from block `start` on, to or from the dataport. */
  datatype Job = Job(command: bv32, highCapacity: bool, start: nat, port: nat, n: nat)

  predicate JobOk(j: Job, ramSize: nat) {
    j.port > 0 && j.port + BLOCK_SIZE * j.n <= ramSize && j.start + j.n < 0x1_0000_0000_0000_0000
  }

  function BlockOf(j: Job, i: nat): Transfer
    requires j.start + i < 0x1_0000_0000_0000_0000
  {
    Transfer(j.command, j.start + i, 1, j.port + BLOCK_SIZE * i, 0)
  }

  function CmdOf(j: Job, i: nat, garbage: Response): Cmd
    requires j.start + i < 0x1_0000_0000_0000_0000
  {
    TransferCmd(BlockOf(j, i), j.highCapacity, NoCallback, garbage)
  }

  /** The end of a block loop: how many blocks were transferred, and the state it leaves. */
  datatype LoopEnd = LoopEnd(done: nat, host: Host, rest: seq<Event>) | LoopDied | LoopPolling

  /** One block: `Moved` is a transfer that returned, with result 512 or a negative code. */
  datatype BlockResult = BlockDied | BlockPolling | Moved(result: int, host: Host, rest: seq<Event>)

  function OneBlock(h: Host, j: Job, i: nat, allocs: Allocs, script: seq<Event>): (b: BlockResult)
    requires HostOk(h) && JobOk(j, |h.ram|) && i < j.n && ScriptOk(script, |h.ram|)
    ensures b.Moved? ==> HostOk(b.host) && |b.host.ram| == |h.ram| && ScriptOk(b.rest, |h.ram|)
    ensures b.Moved? ==> b.result == BLOCK_SIZE || b.result < 0
  {
    if !allocs.cmd || !allocs.data then Moved(-1, h, script)
    else
      BlockFits(j, i, allocs.garbage, |h.ram|);
      match BlockingSend(h, CmdOf(j, i, allocs.garbage), script)
      case Crashed => BlockDied
      case Waiting => BlockPolling
      case Returned(code, _, h', rest) => Moved(if code < 0 then code else BLOCK_SIZE, h', rest)
  }

  function BlockLoop(h: Host, j: Job, i: nat, env: nat -> BlockEnv, script: seq<Event>): (end: LoopEnd)
    requires HostOk(h) && LoopOk(h, j, env, script) && i <= j.n
    ensures end.LoopEnd? ==> i <= end.done <= j.n && HostOk(end.host) && |end.host.ram| == |h.ram|
    decreases j.n - i, 1
  {
    if i == j.n then LoopEnd(i, h, script)
    else
      match QueueRuns.Handled(h, env(i).irqs)
      case Crash => LoopDied
      case Spin => LoopPolling
      case Next(h0) => FromLock(h0, j, i, env, script)
  }

  /** How the loop goes on from the state in which the lock of block `i` is tried. */
  function FromLock(h: Host, j: Job, i: nat, env: nat -> BlockEnv, script: seq<Event>): (end: LoopEnd)
    requires HostOk(h) && LoopOk(h, j, env, script) && i < j.n
    ensures end.LoopEnd? ==> i <= end.done <= j.n && HostOk(end.host) && |end.host.ram| == |h.ram|
    decreases j.n - i, 0
  {
    if !env(i).lock then LoopEnd(i, h, script)
    else
      match OneBlock(h, j, i, env(i).allocs, script)
      case BlockDied => LoopDied
      case BlockPolling => LoopPolling
      case Moved(result, h1, rest) =>
        if result < 0 then LoopEnd(i, h1, rest)
        else if !env(i).unlock then LoopEnd(i + 1, h1, rest)
        else BlockLoop(h1, j, i + 1, env, rest)
  }

  ghost predicate LoopOk(h: Host, j: Job, env: nat -> BlockEnv, script: seq<Event>) {
    JobOk(j, |h.ram|) && EnvOk(env, |h.ram|) && ScriptOk(script, |h.ram|)
  }

  /** The loop, one block unrolled: how it goes on from the state `h0` in which the block's lock is tried. */
  lemma BlockLoopUnrolled(h: Host, j: Job, i: nat, env: nat -> BlockEnv, script: seq<Event>)
    requires HostOk(h) && LoopOk(h, j, env, script) && i < j.n
    ensures
      match QueueRuns.Handled(h, env(i).irqs)
      case Crash => BlockLoop(h, j, i, env, script) == LoopDied
      case Spin => BlockLoop(h, j, i, env, script) == LoopPolling
      case Next(h0) => BlockLoop(h, j, i, env, script) == FromLock(h0, j, i, env, script)
  {
    hide OneBlock, QueueRuns.Handled;
  }

  /** The state before block `m`, when the loop gets that far and the interrupt thread lets it go on. */
  ghost function StateBefore(h: Host, j: Job, env: nat -> BlockEnv, script: seq<Event>, m: nat):
    (st: Option<(Host, seq<Event>)>)
    requires HostOk(h) && LoopOk(h, j, env, script) && m <= j.n
    ensures st.Some? ==> HostOk(st.value.0) && |st.value.0.ram| == |h.ram| && ScriptOk(st.value.1, |h.ram|)
    decreases m, 0
  {
    if m == 0 then Some((h, script))
    else if Succeeds(h, j, env, script, m - 1) && env(m - 1).unlock then
      var (g, s) := StateBefore(h, j, env, script, m - 1).value;
      var b := OneBlock(QueueRuns.Handled(g, env(m - 1).irqs).host, j, m - 1, env(m - 1).allocs, s);
      Some((b.host, b.rest))
    else None
  }

  /** Block `m` is reached, its lock is granted and its transfer succeeds. */
  ghost predicate Succeeds(h: Host, j: Job, env: nat -> BlockEnv, script: seq<Event>, m: nat)
    requires HostOk(h) && LoopOk(h, j, env, script) && m < j.n
    decreases m, 1
  {
    var st := StateBefore(h, j, env, script, m);
    st.Some? && QueueRuns.Handled(st.value.0, env(m).irqs).Next? && env(m).lock
    && var b := OneBlock(QueueRuns.Handled(st.value.0, env(m).irqs).host, j, m, env(m).allocs, st.value.1);
    b.Moved? && b.result >= 0
  }

  /** For every pattern of lock, allocation, transfer and unlock failures, the count of the loop is the
      length of the successful prefix of blocks. */
  lemma CountIsSuccessfulPrefix(h: Host, j: Job, env: nat -> BlockEnv, script: seq<Event>)
    requires HostOk(h) && LoopOk(h, j, env, script)
    ensures
      var end := BlockLoop(h, j, 0, env, script);
      end.LoopEnd? ==>
        && (forall m :: 0 <= m < end.done ==> Succeeds(h, j, env, script, m))
        && (end.done < j.n ==> !Succeeds(h, j, env, script, end.done))
  {
    CountFrom(h, j, env, script, h, 0, script);
  }

  lemma {:induction false} CountFrom(h: Host, j: Job, env: nat -> BlockEnv, script: seq<Event>, g: Host, i: nat,
                                     s: seq<Event>)
    requires HostOk(h) && LoopOk(h, j, env, script)
    requires i <= j.n && StateBefore(h, j, env, script, i) == Some((g, s))
    requires forall m :: 0 <= m < i ==> Succeeds(h, j, env, script, m)
    ensures
      var end := BlockLoop(g, j, i, env, s);
      end.LoopEnd? ==>
        && (forall m :: 0 <= m < end.done ==> Succeeds(h, j, env, script, m))
        && (end.done < j.n ==> !Succeeds(h, j, env, script, end.done))
    decreases j.n - i
  {
    hide OneBlock, QueueRuns.Handled, ScriptOk;
    if i < j.n && QueueRuns.Handled(g, env(i).irqs).Next? && env(i).lock {
      var b := OneBlock(QueueRuns.Handled(g, env(i).irqs).host, j, i, env(i).allocs, s);
      if b.Moved? && b.result >= 0 {
        assert Succeeds(h, j, env, script, i);
        if env(i).unlock {
          CountFrom(h, j, env, script, b.host, i + 1, b.rest);
        }
      }
    }
  }

  lemma BlockFits(j: Job, i: nat, garbage: Response, ramSize: nat)
    requires JobOk(j, ramSize) && i < j.n
    ensures CmdOk(CmdOf(j, i, garbage), ramSize)
  {
  }

  // ---------------------------------------------------------------- requests

  /** The locks taken while a request is validated. */
  datatype Locks = Locks(forBlockSize: bool, forStorageSize: bool)

  /** The verdict on a request before any block is transferred. */
  function Admission(bitmap: byte, rawCsd: Option<Response>, offset: i64, size: u64, locks: Locks,
                     dataportSz: u64): OsError {
    if CheckInit(bitmap) != SUCCESS then CheckInit(bitmap)
    else
      CapacityFits(rawCsd);
      VerifyParameters(offset, Signed(size), if locks.forBlockSize then BLOCK_SIZE else 0,
                       if locks.forStorageSize then CardCapacity(rawCsd) else 0, dataportSz)
  }

  lemma CapacityFits(rawCsd: Option<Response>)
    ensures -1 <= CardCapacity(rawCsd) <= 0x200_0000_0000
  {
    hide SliceBits;
    if rawCsd.Some? {
      CapacityBounds(rawCsd.value);
    }
  }

  /** An admitted request is aligned, fits the dataport and lies on a card of known capacity; without a
      card, or when a lock for the validation was refused, nothing is admitted. */
  lemma AdmissionIsExact(bitmap: byte, rawCsd: Option<Response>, offset: i64, size: u64, locks: Locks, dataportSz: u64)
    ensures Admission(bitmap, rawCsd, offset, size, locks, dataportSz) == SUCCESS <==>
              && bitmap / FAIL_CINST % 2 == 0 && locks.forBlockSize && locks.forStorageSize
              && 0 <= offset && offset % BLOCK_SIZE == 0 && size % BLOCK_SIZE == 0
              && size <= dataportSz && size < 0x8000_0000_0000_0000
              && CardCapacity(rawCsd) > 0 && offset + size <= CardCapacity(rawCsd)
    ensures rawCsd.None? ==> Admission(bitmap, rawCsd, offset, size, locks, dataportSz) != SUCCESS
  {
    hide VerifyParameters, CardCapacity;
    CapacityFits(rawCsd);
    OnlyAbsenceIsNoticed(bitmap);
    ValidationIsExact(offset, Signed(size), if locks.forBlockSize then BLOCK_SIZE else 0,
                      if locks.forStorageSize then CardCapacity(rawCsd) else 0, dataportSz);
    NoCardNoCapacity();
  }

  /** Without a card nothing is admitted. */
  lemma NoCardNoService()
    ensures forall svc: Service, rpc: Rpc :: svc.rawCsd.None? ==> Ruling(svc, rpc) != SUCCESS
  {
    hide Admission;
    forall svc: Service, rpc: Rpc | svc.rawCsd.None?
      ensures Ruling(svc, rpc) != SUCCESS
    {
      AdmissionIsExact(svc.bitmap, svc.rawCsd, rpc.offset, rpc.size, rpc.locks, svc.portSize);
    }
  }

  lemma NoCardNoCapacity()
    ensures CardCapacity(None) == -1
  {
  }

  datatype Answer = Answer(err: OsError, bytes: nat) | NoAnswer(died: bool)

  /** What a request meets: how start-up went, the card, and where the dataport is mapped. */
  datatype Service = Service(bitmap: byte, rawCsd: Option<Response>, highCapacity: bool, portBase: nat, portSize: u64)

  /** A read or write request with its environment. */
  datatype Rpc = Rpc(command: bv32, offset: i64, size: u64, locks: Locks, env: nat -> BlockEnv)

  function Ruling(svc: Service, rpc: Rpc): OsError {
    Admission(svc.bitmap, svc.rawCsd, rpc.offset, rpc.size, rpc.locks, svc.portSize)
  }

  function JobFor(svc: Service, rpc: Rpc): Job
    requires rpc.offset >= 0 && rpc.size > 0
  {
    Job(rpc.command, svc.highCapacity, rpc.offset / BLOCK_SIZE, svc.portBase, (rpc.size - 1) / BLOCK_SIZE + 1)
  }

  /** A request is refused, or empty, and changes nothing; or it performs its block loop. */
  ghost predicate Replied(svc: Service, rpc: Rpc, script: seq<Event>, before: Host, answer: Answer, after: Host,
                          rest: seq<Event>) {
    if Ruling(svc, rpc) != SUCCESS || rpc.size == 0 then
      answer == Answer(Ruling(svc, rpc), 0) && after == before && rest == script
    else
      Admitted(rpc) && Performed(before, JobFor(svc, rpc), rpc.env, script, answer, after, rest)
  }

  ghost predicate Admitted(rpc: Rpc) {
    && rpc.offset >= 0 && rpc.size > 0 && rpc.offset % BLOCK_SIZE == 0 && rpc.size % BLOCK_SIZE == 0
    && rpc.offset + rpc.size < 0x8000_0000_0000_0000
  }

  /** A request that reached the block loop: success means all blocks, anything less is an abort, and the
      count is that of the blocks transferred. */
  ghost predicate Performed(before: Host, j: Job, env: nat -> BlockEnv, script: seq<Event>,
                            answer: Answer, after: Host, rest: seq<Event>)
  {
    && HostOk(before) && LoopOk(before, j, env, script)
    && match BlockLoop(before, j, 0, env, script)
       case LoopDied => answer == NoAnswer(true)
       case LoopPolling => answer == NoAnswer(false)
       case LoopEnd(done, h, left) =>
         && answer == Answer(if done == j.n then SUCCESS else ABORTED, BLOCK_SIZE * done)
         && after == h && rest == left
  }

  /** A lock of the validation was refused, the card is of no known size, or the request is not made of whole
      blocks that fit the dataport. */
  ghost predicate Malformed(svc: Service, rpc: Rpc) {
    || !rpc.locks.forBlockSize || !rpc.locks.forStorageSize || CardCapacity(svc.rawCsd) <= 0
    || rpc.offset < 0 || rpc.offset % 512 != 0 || rpc.size % 512 != 0
    || rpc.size > svc.portSize || rpc.size >= 0x8000_0000_0000_0000
  }

  /** What a call answers: the card-absent bit of start-up goes before everything, a malformed request before
      one that reaches beyond the card, and these answers count no bytes; every other call succeeds with all
      its bytes or is aborted with fewer. */
  ghost predicate AnswersByTable(svc: Service, rpc: Rpc, answer: Answer) {
    var absent := svc.bitmap / 4 % 2 == 1;
    var outside := rpc.offset + rpc.size > CardCapacity(svc.rawCsd);
    && (absent <==> answer.Answer? && answer.err == DEVICE_NOT_PRESENT)
    && (!absent && Malformed(svc, rpc) <==> answer.Answer? && answer.err == INVALID_PARAMETER)
    && (!absent && !Malformed(svc, rpc) && outside <==> answer.Answer? && answer.err == OUT_OF_BOUNDS)
    && (absent || Malformed(svc, rpc) || outside ==> answer.Answer? && answer.bytes == 0)
    && (!absent && !Malformed(svc, rpc) && !outside && answer.Answer? ==>
          || (answer.err == SUCCESS && answer.bytes == rpc.size)
          || (answer.err == ABORTED && answer.bytes < rpc.size && answer.bytes % 512 == 0))
  }

  lemma RepliesByTable(svc: Service, rpc: Rpc, script: seq<Event>, before: Host, answer: Answer, after: Host,
                       rest: seq<Event>)
    requires Replied(svc, rpc, script, before, answer, after, rest)
    ensures AnswersByTable(svc, rpc, answer)
  {
    hide BlockLoop, LoopOk, CardCapacity, Ruling;
    RulingByTable(svc, rpc);
  }

  lemma RulingByTable(svc: Service, rpc: Rpc)
    ensures
      Ruling(svc, rpc) ==
        if svc.bitmap / 4 % 2 == 1 then DEVICE_NOT_PRESENT
        else if Malformed(svc, rpc) then INVALID_PARAMETER
        else if rpc.offset + rpc.size > CardCapacity(svc.rawCsd) then OUT_OF_BOUNDS
        else SUCCESS
  {
    hide VerifyParameters, CardCapacity;
    CapacityFits(svc.rawCsd);
    OnlyAbsenceIsNoticed(svc.bitmap);
    ValidationIsExact(rpc.offset, Signed(rpc.size), if rpc.locks.forBlockSize then BLOCK_SIZE else 0,
                      if rpc.locks.forStorageSize then CardCapacity(svc.rawCsd) else 0, svc.portSize);
  }

  lemma AdmittedJob(svc: Service, rpc: Rpc, ramSize: nat)
    requires Admitted(rpc) && svc.portBase > 0 && svc.portBase + rpc.size <= ramSize
    ensures
      var j := JobFor(svc, rpc);
      JobOk(j, ramSize) && BLOCK_SIZE * j.n == rpc.size && BLOCK_SIZE * j.start == rpc.offset
  {
  }

  datatype Control = GoOn | Stop | Lose(died: bool)

  lemma LoopFinished(h: Host, j: Job, env: nat -> BlockEnv, script: seq<Event>)
    requires HostOk(h) && LoopOk(h, j, env, script)
    ensures Reflects(BlockLoop(h, j, j.n, env, script), Answer(SUCCESS, BLOCK_SIZE * j.n), h, script)
  {
  }

  /** A transfer method's results show what the block did. */
  ghost predicate Shows(b: BlockResult, out: Outcome, host: Host, rest: seq<Event>) {
    match b
    case BlockDied => out == Died
    case BlockPolling => out == StillPolling
    case Moved(result, h, left) => out == Return(result) && host == h && rest == left
  }

  lemma ShowsCases(b: BlockResult, out: Outcome, host: Host, rest: seq<Event>)
    requires Shows(b, out, host, rest)
    ensures b == match out
                 case Died => BlockDied
                 case StillPolling => BlockPolling
                 case Return(ret) => Moved(ret, host, rest)
  {
  }

  /** The loop's results reflect how it ended: the bytes counted are those of the blocks transferred. */
  ghost predicate Reflects(end: LoopEnd, answer: Answer, host: Host, rest: seq<Event>) {
    match end
    case LoopDied => answer == NoAnswer(true)
    case LoopPolling => answer == NoAnswer(false)
    case LoopEnd(done, h, left) => answer == Answer(SUCCESS, BLOCK_SIZE * done) && rest == left && host == h
  }

  /** The driver is in shape and its memory as it was in scene `a`, but for what is in flight. */
  ghost predicate Undisturbed(dev: SdhcDev, a: Scene)
    reads *
  {
    dev.Valid() && HostOk(dev.Abs()) && Keeps(a, dev.Now())
  }

  lemma StillUndisturbed(dev: SdhcDev, a: Scene, b: Scene)
    requires Keeps(a, b) && Undisturbed(dev, b)
    ensures Undisturbed(dev, a)
  {
    hide SdhcDev.Valid, Keeps, HostOk;
    KeepsOn(a, b, dev.Now());
  }

  class SdHostController {
    const dev: SdhcDev
    const portBase: nat
    const portSize: u64
    var card: CardInit.MmcCard?
    var initFailBitmap: byte

    constructor (dev: SdhcDev, portBase: nat, portSize: u64)
      ensures this.dev == dev && this.portBase == portBase && this.portSize == portSize
      ensures card == null && initFailBitmap == NOT_INITIALIZED
    {
      this.dev, this.portBase, this.portSize := dev, portBase, portSize;
      card, initFailBitmap := null, NOT_INITIALIZED;
    }

    /** The dataport is mapped memory, away from the null address. */
    ghost predicate Valid()
      reads this, dev, dev.heap, dev.ram, dev.queue
    {
      dev.Valid() && portBase > 0 && portBase + portSize <= dev.ram.Length
    }

    ghost function RawCsd(): Option<Response>
      reads this, card
    {
      if card == null then None else Some(card.rawCsd)
    }

    ghost function Svc(): Service
      reads this, card
    {
      Service(initFailBitmap, RawCsd(), card != null && card.highCapacity, portBase, portSize)
    }

    /** Start-up. A card is kept exactly when one was initialised, with the address, capacity and class it
        declared. Without a card every request is refused afterwards, and nothing stays allocated; the
        card-absent error means that the slot was found empty. */
    method PostInit(ioOps: int, sdioInit: int, inserted: bool, link: CardInit.Link, memory: bool, hostReset: int,
                    hostOperational: int, voltage: u32 -> u32, irq: int) returns (died: bool, ghost n: nat)
      requires dev.Valid() && dev.queue == [] && link.sent == [] && card == null
      modifies this`initFailBitmap, this`card, dev.heap, link
      ensures !died ==> dev.Valid()
      ensures card == null && !died ==>
                && dev.heap.live == old(dev.heap.live)
                && forall rpc :: Ruling(Svc(), rpc) != SUCCESS
      ensures card != null ==>
                && !died && fresh(card) && dev.heap.live == old(dev.heap.live) + {card}
                && CheckInit(initFailBitmap) == SUCCESS && IsTheCard(link, voltage, n)
      ensures CheckInit(initFailBitmap) == DEVICE_NOT_PRESENT <==> ioOps == 0 && sdioInit == 0 && !inserted
      ensures !died ==>
                initFailBitmap == if ioOps != 0 then 1 else if sdioInit != 0 then 2 else if !inserted then 4
                                  else if card == null then 8 else if irq < 0 then 16 else 0
      ensures initFailBitmap == 0 && !died ==> card != null && irq >= 0
    {
      hide Ruling, IsTheCard, SdhcDev.Valid;
      NoCardNoService();
      died, n := false, 0;
      initFailBitmap := 0;
      if ioOps != 0 {
        initFailBitmap := FAIL_IO_OPS;
        return;
      }
      if sdioInit != 0 {
        initFailBitmap := FAIL_SDIO;
        return;
      }
      if !inserted {
        initFailBitmap := FAIL_CINST;
        return;
      }
      died, n := InitialiseCard(link, memory, hostReset, hostOperational, voltage, irq);
    }

    /** The card is the one that answered: its address, its capacity, and the requests it was sent. */
    ghost predicate IsTheCard(link: CardInit.Link, voltage: u32 -> u32, n: nat)
      reads this, card, link
    {
      && card != null && card.rawRca == link.replies(2 * n + 5).response[0] / 0x1_0000 < 0x1_0000
      && link.sent == CardInit.InitTrace(n, voltage(link.replies(3).response[0]), card.rawRca, card.highCapacity)
      && CardCapacity(RawCsd()) == DeclaredCapacity(Value(link.replies(2 * n + 6).response))
    }

    /** The stages of start-up that need a card in the slot. */
    method InitialiseCard(link: CardInit.Link, memory: bool, hostReset: int, hostOperational: int,
                          voltage: u32 -> u32, irq: int) returns (died: bool, ghost n: nat)
      requires dev.Valid() && dev.queue == [] && link.sent == [] && card == null && initFailBitmap == 0
      modifies this`initFailBitmap, this`card, dev.heap, link
      ensures !died ==> dev.Valid()
      ensures card == null && !died ==> dev.heap.live == old(dev.heap.live) && initFailBitmap == FAIL_MMC
      ensures card != null ==>
                && !died && fresh(card) && dev.heap.live == old(dev.heap.live) + {card} && IsTheCard(link, voltage, n)
                && initFailBitmap == if irq < 0 then FAIL_SDIRQ else 0
      ensures died ==> initFailBitmap == 0
    {
      hide Admission, CardInit.InitTrace, CardCapacity, DeclaredCapacity, Value, CardInit.VoltageRounds,
           SdhcDev.Valid, SdhcDev.Steady;
      InShapeWhenIdle();
      died := false;
      var r, mmc;
      r, mmc, n := CardInit.InitCard(dev.heap, link, memory, hostReset, hostOperational, voltage);
      if r == CardInit.Aborted { died := true; return; }
      InShapeWhenIdle();
      if r != CardInit.Ok {
        initFailBitmap := FAIL_MMC;
        return;
      }
      card := mmc;
      if irq < 0 {
        initFailBitmap := FAIL_SDIRQ;
      }
    }

    /** Without queued commands the shape of the driver does not depend on what is on the heap. */
    lemma InShapeWhenIdle()
      ensures dev.Valid() ==> dev.Steady() && dev.heap.Valid()
      ensures dev.Steady() && dev.queue == [] && dev.heap.Valid() ==> dev.Valid()
    {
    }

    method GetStorageSize(lock: bool) returns (size: i64)
      ensures size == if lock then CardCapacity(RawCsd()) else 0
    {
      if !lock {
        return 0;
      }
      CapacityFits(RawCsd());
      size := CardCapacity(if card == null then None else Some(card.rawCsd));
    }

    method GetBlockSize(lock: bool) returns (size: u64)
      ensures size == if lock then BLOCK_SIZE else 0
    {
      if !lock {
        return 0;
      }
      size := BLOCK_SIZE;
    }

    /** The interrupt thread: one call of the handler, when start-up was not refused and the lock is granted.
        After a start-up that kept no card the access through the null card stops the component. */
    method IrqHandle(lock: bool, e: Event) returns (out: Outcome)
      requires dev.Valid() && HostOk(dev.Abs()) && EventOk(e, dev.ram.Length)
      modifies dev, dev.heap, dev.ram, dev.queue`complete, dev.queue`response, dev.queue`next
      ensures CheckInit(initFailBitmap) != SUCCESS || !lock ==> out == Return(0) && dev.Abs() == old(dev.Abs())
      ensures CheckInit(initFailBitmap) == SUCCESS && lock && card == null ==> out == Died
      ensures CheckInit(initFailBitmap) == SUCCESS && lock && card != null ==> dev.Reaches(Irq(old(dev.Abs()), e), out)
      ensures out.Return? ==> Undisturbed(dev, old(dev.Now())) && fresh(dev.born - old(dev.born))
    {
      hide Irq, SdhcDev.Valid, HostOk, Keeps, SdhcDev.CameBack;
      if CheckInit(initFailBitmap) != SUCCESS || !lock {
        NothingKept(dev.Now());
        return Return(0);
      }
      if card == null {
        return Died;
      }
      out := dev.HandleIrq(e);
      if out.Return? { UndisturbedBy(dev.Now(), old(dev.Now())); }
    }

    lemma UndisturbedBy(now: Scene, a: Scene)
      requires dev.CameBack(a)
      ensures Undisturbed(dev, a)
    {
    }

    /** What the interrupt thread does while the mutex is free. */
    method OtherThread(es: seq<Event>) returns (out: Outcome)
      requires dev.Valid() && HostOk(dev.Abs()) && ScriptOk(es, dev.ram.Length)
      requires card != null && CheckInit(initFailBitmap) == SUCCESS
      modifies dev, dev.heap, dev.ram, dev.queue`complete, dev.queue`response, dev.queue`next
      ensures dev.Reaches(QueueRuns.Handled(old(dev.Abs()), es), out)
      ensures out.Return? ==> Undisturbed(dev, old(dev.Now())) && fresh(dev.born - old(dev.born))
    {
      hide Irq, SdhcDev.Valid, HostOk, Keeps, QueueRuns.Handled, EventOk, Undisturbed;
      ghost var end, a := QueueRuns.Handled(dev.Abs(), es), dev.Now();
      var rest := es;
      Before(a);
      while rest != []
        invariant Undisturbed(dev, a) && dev.Valid() && HostOk(dev.Abs()) && fresh(dev.born - a.born)
        invariant ScriptOk(rest, dev.ram.Length) && end == QueueRuns.Handled(dev.Abs(), rest)
        decreases |rest|
      {
        QueueRuns.HandledUnrolled(dev.Abs(), rest);
        ghost var b := dev.Now();
        InQueueOf(a);
        out := IrqHandle(true, rest[0]);
        if !out.Return? {
          return;
        }
        StillUndisturbed(dev, a, b);
        InShape(a);
        rest := rest[1..];
      }
      QueueRuns.HandledNothing(dev.Abs());
      out := Return(0);
    }

    lemma Before(a: Scene)
      requires dev.Valid() && a == dev.Now()
      ensures Undisturbed(dev, a)
    {
      NothingKept(a);
    }

    lemma InQueueOf(a: Scene)
      ensures Undisturbed(dev, a) ==>
                && Keeps(a, dev.Now())
                && forall k :: 0 <= k < |dev.queue| ==> dev.queue[k] in a.queue || dev.queue[k] in dev.born - a.born
    {
    }

    /** One blocking single-block transfer, with the dataport address of its block. */
    method TransferOne(j: Job, i: nat, port: nat, allocs: Allocs, script: seq<Event>)
      returns (out: Outcome, rest: seq<Event>)
      requires dev.Valid() && HostOk(dev.Abs()) && card != null && card.highCapacity == j.highCapacity
      requires i < j.n && port == j.port + BLOCK_SIZE * i
      requires JobOk(j, dev.ram.Length) && ScriptOk(script, dev.ram.Length)
      modifies dev, dev.heap, dev.ram, dev.queue`complete, dev.queue`response, dev.queue`next
      ensures Shows(OneBlock(old(dev.Abs()), j, i, allocs, script), out, dev.Abs(), rest)
      ensures out.Return? ==> ScriptOk(rest, dev.ram.Length)
      ensures out.Return? ==> Undisturbed(dev, old(dev.Now())) && fresh(dev.born - old(dev.born))
    {
      hide BlockingSend, QueueOk, CmdOk, SdhcDev.Valid, Keeps, SdhcDev.CameBack;
      BlockFits(j, i, allocs.garbage, dev.ram.Length);
      var t := Transfer(j.command, j.start + i, 1, port, 0);
      out, rest := TransferBlocks(dev, card.highCapacity, t, allocs, script);
      if out.Return? { UndisturbedBy(dev.Now(), old(dev.Now())); }
    }

    /** One round of the block loop once the interrupt thread is done: lock, transfer, count, unlock. The loop
        goes on only after a round in which all of that succeeded. */
    method LockedRound(j: Job, i: nat, port: nat, transferred: nat, env: nat -> BlockEnv, script: seq<Event>,
                       ghost end: LoopEnd)
      returns (control: Control, total: nat, rest: seq<Event>)
      requires dev.Valid() && HostOk(dev.Abs()) && card != null && card.highCapacity == j.highCapacity
      requires i < j.n && port == j.port + BLOCK_SIZE * i && LoopOk(dev.Abs(), j, env, script)
      requires transferred == BLOCK_SIZE * i && end == FromLock(dev.Abs(), j, i, env, script)
      modifies dev, dev.heap, dev.ram, dev.queue`complete, dev.queue`response, dev.queue`next
      ensures !control.Lose? ==> Undisturbed(dev, old(dev.Now())) && fresh(dev.born - old(dev.born))
      ensures Continues(control, total, rest, j, i, env, end)
    {
      hide BlockLoop, OneBlock, SdhcDev.Valid, HostOk, JobOk, ScriptOk, EnvOk, Shows, Undisturbed;
      total, rest := transferred, script;
      Before(dev.Now());
      if !env(i).lock {
        return Stop, total, rest;
      }
      ghost var b := OneBlock(dev.Abs(), j, i, env(i).allocs, script);
      var out;
      out, rest := TransferOne(j, i, port, env(i).allocs, script);
      ShowsCases(b, out, dev.Abs(), rest);
      if !out.Return? {
        return Lose(out == Died), total, rest;
      }
      InShape(old(dev.Now()));
      if out.ret >= 0 {
        total := total + out.ret;
      }
      control := if out.ret >= 0 && env(i).unlock then GoOn else Stop;
    }

    lemma InShape(a: Scene)
      requires Undisturbed(dev, a)
      ensures dev.Valid() && HostOk(dev.Abs())
    {
    }

    /** What a round of the block loop leaves. */
    ghost predicate Continues(control: Control, total: nat, rest: seq<Event>, j: Job, i: nat, env: nat -> BlockEnv,
                              end: LoopEnd)
      reads dev, dev.ram
    {
      match control
      case GoOn =>
        && HostOk(dev.Abs()) && LoopOk(dev.Abs(), j, env, rest) && i < j.n
        && total == BLOCK_SIZE * (i + 1) && end == BlockLoop(dev.Abs(), j, i + 1, env, rest)
      case Stop => Reflects(end, Answer(SUCCESS, total), dev.Abs(), rest)
      case Lose(died) => end == if died then LoopDied else LoopPolling
    }

    /** A round, with the interrupt thread's turn before the lock. */
    method Round(j: Job, i: nat, port: nat, transferred: nat, env: nat -> BlockEnv, script: seq<Event>,
                 ghost end: LoopEnd)
      returns (control: Control, total: nat, rest: seq<Event>)
      requires dev.Valid() && HostOk(dev.Abs()) && card != null && card.highCapacity == j.highCapacity
      requires CheckInit(initFailBitmap) == SUCCESS
      requires i < j.n && port == j.port + BLOCK_SIZE * i && LoopOk(dev.Abs(), j, env, script)
      requires transferred == BLOCK_SIZE * i && end == BlockLoop(dev.Abs(), j, i, env, script)
      modifies dev, dev.heap, dev.ram, dev.queue`complete, dev.queue`response, dev.queue`next
      ensures !control.Lose? ==> Undisturbed(dev, old(dev.Now())) && fresh(dev.born - old(dev.born))
      ensures Continues(control, total, rest, j, i, env, end)
    {
      hide BlockLoop, FromLock, SdhcDev.Valid, HostOk, JobOk, ScriptOk, QueueRuns.Handled, Undisturbed, Keeps;
      ghost var a := dev.Now();
      BlockLoopUnrolled(dev.Abs(), j, i, env, script);
      var out := OtherThread(env(i).irqs);
      if !out.Return? {
        return Lose(out == Died), transferred, script;
      }
      InShape(a);
      InQueueOf(a);
      ghost var b := dev.Now();
      control, total, rest := LockedRound(j, i, port, transferred, env, script, end);
      if !control.Lose? { StillUndisturbed(dev, a, b); }
    }

    /** The loop over the blocks of a request. */
    method TransferLoop(j: Job, env: nat -> BlockEnv, script: seq<Event>) returns (answer: Answer, rest: seq<Event>)
      requires dev.Valid() && HostOk(dev.Abs()) && card != null && card.highCapacity == j.highCapacity
      requires CheckInit(initFailBitmap) == SUCCESS && LoopOk(dev.Abs(), j, env, script)
      modifies dev, dev.heap, dev.ram, dev.queue`complete, dev.queue`response, dev.queue`next
      ensures Reflects(BlockLoop(old(dev.Abs()), j, 0, env, script), answer, dev.Abs(), rest)
      ensures answer.Answer? ==> Undisturbed(dev, old(dev.Now())) && fresh(dev.born - old(dev.born))
    {
      hide BlockLoop, SdhcDev.Valid, HostOk, LoopOk, Undisturbed, Keeps;
      ghost var end, a := BlockLoop(dev.Abs(), j, 0, env, script), dev.Now();
      var transferred, i, port, control := 0, 0, j.port, GoOn;
      rest := script;
      Before(a);
      while i < j.n && control == GoOn
        invariant !control.Lose? && Undisturbed(dev, a) && HostOk(dev.Abs()) && fresh(dev.born - a.born)
        invariant i <= j.n && port == j.port + BLOCK_SIZE * i
        invariant control == GoOn ==>
                    && LoopOk(dev.Abs(), j, env, rest)
                    && transferred == BLOCK_SIZE * i && end == BlockLoop(dev.Abs(), j, i, env, rest)
        invariant control == Stop ==> Reflects(end, Answer(SUCCESS, transferred), dev.Abs(), rest)
      {
        InShape(a);
        InQueueOf(a);
        ghost var b := dev.Now();
        control, transferred, rest := Round(j, i, port, transferred, env, rest, end);
        if control.Lose? {
          return NoAnswer(control.died), rest;
        }
        StillUndisturbed(dev, a, b);
        InShape(a);
        i, port := i + 1, port + BLOCK_SIZE;
      }
      answer := Answer(SUCCESS, transferred);
      if control == GoOn { LoopFinished(dev.Abs(), j, env, rest); }
    }

    /** Validate a request: the verdict is the one on the card and the locks as they are. */
    method Admit(rpc: Rpc) returns (err: OsError)
      requires Valid()
      ensures err == Ruling(Svc(), rpc)
      ensures err == SUCCESS ==> card != null && CheckInit(initFailBitmap) == SUCCESS && rpc.size <= portSize
      ensures err == SUCCESS && rpc.size > 0 ==> Admitted(rpc)
    {
      hide VerifyParameters, CardCapacity, Valid;
      err := CheckInit(initFailBitmap);
      if err != SUCCESS {
        return;
      }
      var blockSz := GetBlockSize(rpc.locks.forBlockSize);
      var storageSz := GetStorageSize(rpc.locks.forStorageSize);
      err := VerifyParameters(rpc.offset, Signed(rpc.size), blockSz, storageSz, portSize);
      AdmissionIsExact(initFailBitmap, RawCsd(), rpc.offset, rpc.size, rpc.locks, portSize);
      CapacityFits(RawCsd());
    }

    /** A read or write request, from validation to the result code. */
    method Serve(rpc: Rpc, script: seq<Event>) returns (answer: Answer, rest: seq<Event>)
      requires Valid() && ScriptOk(script, dev.ram.Length) && EnvOk(rpc.env, dev.ram.Length)
      modifies dev, dev.heap, dev.ram, dev.queue`complete, dev.queue`response, dev.queue`next
      ensures Replied(Svc(), rpc, script, old(dev.Abs()), answer, dev.Abs(), rest)
      ensures answer.Answer? ==> Undisturbed(dev, old(dev.Now()))
    {
      hide BlockLoop, SdhcDev.Valid, Undisturbed, Keeps, Ruling, ScriptOk, EnvOk;
      rest := script;
      Before(dev.Now());
      var err := Admit(rpc);
      if err != SUCCESS || rpc.size == 0 {
        return Answer(err, 0), rest;
      }
      InShape(dev.Now());
      var svc := Service(initFailBitmap, Some(card.rawCsd), card.highCapacity, portBase, portSize);
      AdmittedJob(svc, rpc, dev.ram.Length);
      answer, rest := TransferLoop(JobFor(svc, rpc), rpc.env, script);
      if answer.Answer? {
        answer := Answer(if rpc.size != answer.bytes then ABORTED else SUCCESS, answer.bytes);
      }
    }

    method StorageRpcWrite(offset: i64, size: u64, locks: Locks, env: nat -> BlockEnv, script: seq<Event>)
      returns (answer: Answer, rest: seq<Event>)
      requires Valid() && ScriptOk(script, dev.ram.Length) && EnvOk(env, dev.ram.Length)
      modifies dev, dev.heap, dev.ram, dev.queue`complete, dev.queue`response, dev.queue`next
      ensures Replied(Svc(), Rpc(Registers.WRITE_BLOCK, offset, size, locks, env), script, old(dev.Abs()), answer,
                      dev.Abs(), rest)
      ensures AnswersByTable(Svc(), Rpc(Registers.WRITE_BLOCK, offset, size, locks, env), answer)
      ensures answer.Answer? ==> Valid() && AtRest(dev) == old(AtRest(dev))
    {
      hide Replied, AnswersByTable, SdhcDev.Valid;
      ghost var before, rpc := dev.Abs(), Rpc(Registers.WRITE_BLOCK, offset, size, locks, env);
      answer, rest := Serve(Rpc(Registers.WRITE_BLOCK, offset, size, locks, env), script);
      RepliesByTable(Svc(), rpc, script, before, answer, dev.Abs(), rest);
    }

    method StorageRpcRead(offset: i64, size: u64, locks: Locks, env: nat -> BlockEnv, script: seq<Event>)
      returns (answer: Answer, rest: seq<Event>)
      requires Valid() && ScriptOk(script, dev.ram.Length) && EnvOk(env, dev.ram.Length)
      modifies dev, dev.heap, dev.ram, dev.queue`complete, dev.queue`response, dev.queue`next
      ensures Replied(Svc(), Rpc(Registers.READ_SINGLE_BLOCK, offset, size, locks, env), script, old(dev.Abs()), answer,
                      dev.Abs(), rest)
      ensures AnswersByTable(Svc(), Rpc(Registers.READ_SINGLE_BLOCK, offset, size, locks, env), answer)
      ensures answer.Answer? ==> Valid() && AtRest(dev) == old(AtRest(dev))
    {
      hide Replied, AnswersByTable, SdhcDev.Valid;
      ghost var before, rpc := dev.Abs(), Rpc(Registers.READ_SINGLE_BLOCK, offset, size, locks, env);
      answer, rest := Serve(Rpc(Registers.READ_SINGLE_BLOCK, offset, size, locks, env), script);
      RepliesByTable(Svc(), rpc, script, before, answer, dev.Abs(), rest);
    }
  }
}
