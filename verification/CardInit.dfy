/**
 Card initialisation: reset, voltage validation with its retry loop, registration. The card is an
 arbitrary function from the number of commands sent so far to the reply, so every result holds
 against any card behaviour.
 */
module CardInit {
  import opened Base
  import opened CardRegisters
  import HostModel
  import Memory
  import opened Registers
  import opened WordBits

  /** What a blocking send brings back: the return code, and the response array afterwards. */
  datatype Reply = Reply(ret: int, response: HostModel.Response)

  datatype Request = Request(index: nat, arg: u32, rsp: RspType)

  const GO_IDLE_STATE := 0
  const ALL_SEND_CID := 2
  const SEND_RELATIVE_ADDR := 3
  const SELECT_CARD := 7
  const SEND_EXT_CSD := 8
  const SEND_CSD := 9
  const SEND_STATUS := 13
  const SET_BLOCKLEN := 16
  const APP_CMD := 55
  const SD_SET_BUS_WIDTH := 6
  const SD_APP_OP_COND := 41

  const DATA_CRC_ERROR := -7
  const DATA_TIMEOUT_ERROR := -6
  const CMD_CRC_ERROR := -3
  const CMD_TIMEOUT_ERROR := -2

  /** The connection to the card: the replies to come, and the requests made. */
  class Link {
    const replies: nat -> Reply
    var sent: seq<Request>

    constructor (replies: nat -> Reply)
      ensures this.replies == replies && sent == []
    {
      this.replies, sent := replies, [];
    }

    method Send(index: nat, arg: u32, rsp: RspType) returns (reply: Reply)
      modifies this
      ensures sent == old(sent) + [Request(index, arg, rsp)] && reply == replies(|old(sent)|)
    {
      reply := replies(|sent|);
      sent := sent + [Request(index, arg, rsp)];
    }
  }

  datatype CardType = UNKNOWN | SD
  datatype CardStatus = ACTIVE | INACTIVE

  class MmcCard {
    var ocr: u32
    var rawCid: HostModel.Response
    var rawCsd: HostModel.Response
    var rawRca: nat
    var kind: CardType
    var highCapacity: bool
    var status: CardStatus

    constructor () {}
  }

  datatype Result = Ok | Failed | Aborted

  /** Bit `n` of a response word. */
  predicate Bit(w: u32, n: nat) {
    w / Pow2(n) % 2 == 1
  }

  // ---------------------------------------------------------------- reset

  /** Reset the card and check that it echoes voltage and pattern. */
  method ResetCard(link: Link) returns (r: Result)
    modifies link
    ensures link.sent == old(link.sent) + [Request(GO_IDLE_STATE, 0, NONE), Request(SEND_EXT_CSD, 0x1AA, R1)]
    ensures
      var echo := link.replies(|old(link.sent)| + 1);
      r == if echo.ret == 0 && echo.response[0] % 0x1000 == 0x1AA then Ok else Failed
  {
    var idle := link.Send(GO_IDLE_STATE, 0, NONE);
    var arg: u32 := 0x1AA;
    var reply := link.Send(SEND_EXT_CSD, arg, R1);
    var status := reply.ret;
    if status == DATA_TIMEOUT_ERROR || status == CMD_TIMEOUT_ERROR {
      return Failed;
    }
    EchoFields(reply.response[0]);
    var vhs, checkPattern := arg / 0x100 % 0x10, arg % 0x100;
    var vca, echoed := reply.response[0] / 0x100 % 0x10, reply.response[0] % 0x100;
    if status == DATA_CRC_ERROR || status == CMD_CRC_ERROR || vca != vhs || echoed != checkPattern {
      return Failed;
    }
    if status != 0 {
      return Failed;
    }
    r := Ok;
  }

  lemma EchoFields(w: u32)
    ensures w % 0x1000 == 0x1AA <==> w / 0x100 % 0x10 == 1 && w % 0x100 == 0xAA
  {
    assert w % 0x1000 == 0x100 * (w / 0x100 % 0x10) + w % 0x100;
  }

  // ---------------------------------------------------------------- voltage validation

  /** The two commands of a retry round, `n` times over. */
  function Rounds(n: nat, arg: u32): (t: seq<Request>)
    ensures |t| == 2 * n
  {
    if n == 0 then [] else Rounds(n - 1, arg) + [Request(APP_CMD, 0, R1), Request(SD_APP_OP_COND, arg, R3)]
  }

  /** The card reports ready in round `k` of a loop that starts after `s` requests. */
  predicate ReadyIn(replies: nat -> Reply, s: nat, k: nat)
    requires k >= 1
  {
    Bit(replies(s + 2 * k - 1).response[0], 31)
  }

  /** The retry loop. The count-down is tested before and changed after each test, so the loop makes up
      to twelve rounds, and the count is negative from the eleventh round on. */
  method WaitUntilReady(card: MmcCard, link: Link, arg: u32) returns (reply: Reply, attempts: int, ghost n: nat)
    requires card.kind == SD
    modifies link
    ensures 1 <= n <= 12 && attempts == 10 - n
    ensures link.sent == old(link.sent) + Rounds(n, arg) && reply == link.replies(|old(link.sent)| + 2 * n - 1)
    ensures forall k :: 1 <= k < n ==> !ReadyIn(link.replies, |old(link.sent)|, k)
    ensures n < 12 ==> ReadyIn(link.replies, |old(link.sent)|, n)
  {
    hide Bit;
    ghost var s := |link.sent|;
    var again := true;
    attempts, n, reply := 10, 0, link.replies(0);
    while again
      invariant n <= 12 && attempts == 10 - n && (again <==> n == 0 || (n < 12 && !ReadyIn(link.replies, s, n)))
      invariant link.sent == old(link.sent) + Rounds(n, arg)
      invariant forall k :: 1 <= k < n ==> !ReadyIn(link.replies, s, k)
      invariant n > 0 ==> reply == link.replies(s + 2 * n - 1)
      decreases 12 - n, again
    {
      if card.kind == SD {
        reply := link.Send(APP_CMD, 0, R1);
      }
      reply := link.Send(SD_APP_OP_COND, arg, R3);
      n := n + 1;
      again := attempts >= 0 && !Bit(reply.response[0], 31);
      attempts := attempts - 1;
    }
  }

  /** Ask an SD card for the voltages it can work with. */
  method AskVoltage(card: MmcCard, link: Link) returns (r: Result)
    modifies link, card`ocr, card`kind
    ensures
      var first, second := link.replies(|old(link.sent)|), link.replies(|old(link.sent)| + 1);
      if first.ret != 0 then r == Failed else if second.ret != 0 then r == Aborted
      else
        && r == Ok && card.kind == SD && card.ocr == second.response[0]
        && link.sent == old(link.sent) + [Request(APP_CMD, 0, R1), Request(SD_APP_OP_COND, 0, R3)]
  {
    var reply := link.Send(APP_CMD, 0, R1);
    if reply.ret != 0 {
      return Failed;
    }
    card.kind := SD;
    reply := link.Send(SD_APP_OP_COND, 0, R3);
    if reply.ret != 0 {
      card.kind := UNKNOWN;
      return Aborted;
    }
    card.ocr := reply.response[0];
    r := Ok;
  }

  /** Power up the card. The loop makes at most twelve rounds; it succeeds exactly when the card is
      ready in one of the first ten, and then stops there. */
  method ValidateVoltage(card: MmcCard, link: Link, voltage: u32 -> u32) returns (r: Result, ghost n: nat)
    modifies link, card`ocr, card`kind, card`highCapacity
    ensures
      var first, second := link.replies(|old(link.sent)|), link.replies(|old(link.sent)| + 1);
      if first.ret != 0 then r == Failed else if second.ret != 0 then r == Aborted
      else
        && VoltageRounds(link.replies, |old(link.sent)| + 2, n) && 1 <= n
        && r == (if n <= 10 then Ok else Failed)
        && link.sent == old(link.sent) + [Request(APP_CMD, 0, R1), Request(SD_APP_OP_COND, 0, R3)]
                        + Rounds(n, voltage(second.response[0]))
    ensures r == Ok ==>
              && card.ocr == link.replies(|old(link.sent)| + 2 * n + 1).response[0] && Bit(card.ocr, 31)
              && card.highCapacity == Bit(card.ocr, 30) && card.kind == SD
  {
    hide Bit, Rounds;
    n := 0;
    r := AskVoltage(card, link);
    if r != Ok {
      return;
    }
    var reply, attempts;
    reply, attempts, n := WaitUntilReady(card, link, voltage(card.ocr));
    if attempts < 0 {
      return Failed, n;
    }
    card.ocr := reply.response[0];
    card.highCapacity := Bit(card.ocr, 30);
    r := Ok;
  }

  /** The number of rounds: up to the first in which the card is ready, and twelve at most. */
  ghost predicate VoltageRounds(replies: nat -> Reply, s: nat, n: nat) {
    && 1 <= n <= 12
    && (forall k :: 1 <= k < n ==> !ReadyIn(replies, s, k))
    && (n < 12 ==> ReadyIn(replies, s, n))
  }

  /** The loop succeeds exactly when the card is ready by the tenth round: being ready in the eleventh or
      twelfth, which are still made, does not help. */
  lemma ReadyByTheTenth(replies: nat -> Reply, s: nat, n: nat)
    requires VoltageRounds(replies, s, n)
    ensures n <= 10 <==> exists k :: 1 <= k <= 10 && ReadyIn(replies, s, k)
  {
    hide ReadyIn;
    if n <= 10 {
      assert ReadyIn(replies, s, n);
    }
  }

  // ---------------------------------------------------------------- registration

  /** The requests of a registration for a card that answers with this address. */
  function Registration(rca: nat, highCapacity: bool): seq<Request>
    requires rca < 0x1_0000
  {
    Identification(rca) + Selection(rca, highCapacity)
  }

  function Identification(rca: nat): seq<Request>
    requires rca < 0x1_0000
  {
    [Request(ALL_SEND_CID, 0, R2), Request(SEND_RELATIVE_ADDR, 0, R6), Request(SEND_CSD, rca * 0x1_0000, R2)]
  }

  function Selection(rca: nat, highCapacity: bool): seq<Request>
    requires rca < 0x1_0000
  {
    [Request(SEND_STATUS, rca * 0x1_0000, R1),
     Request(SELECT_CARD, rca * 0x1_0000, R1b),
     Request(APP_CMD, rca * 0x1_0000, R1),
     Request(SD_SET_BUS_WIDTH, 2, R1)]
    + if highCapacity then [] else [Request(SET_BLOCKLEN, 512, R1)]
  }

  /** Register the card. Only the first command can make it fail. */
  method RegisterCard(card: MmcCard, link: Link) returns (r: Result)
    modifies link, card`status, card`rawCid, card`rawRca, card`rawCsd
    ensures
      var s := |old(link.sent)|;
      if link.replies(s).ret != 0 then
        r == Failed && card.status == INACTIVE && link.sent == old(link.sent) + [Request(ALL_SEND_CID, 0, R2)]
      else
        && r == Ok && card.status == ACTIVE
        && card.rawRca == link.replies(s + 1).response[0] / 0x1_0000 < 0x1_0000
        && Value(card.rawCid) == Value(link.replies(s).response) * 0x100 % Pow2(128)
        && Value(card.rawCsd) == Value(link.replies(s + 2).response) * 0x100 % Pow2(128)
        && link.sent == old(link.sent) + Registration(card.rawRca, card.highCapacity)
  {
    hide Value, Pow2, Identification, Selection;
    r := IdentifyCard(card, link);
    if r == Ok { SelectCard(card, link); }
  }

  /** The requests up to the card's registers. */
  method IdentifyCard(card: MmcCard, link: Link) returns (r: Result)
    modifies link, card`status, card`rawCid, card`rawRca, card`rawCsd
    ensures
      var s := |old(link.sent)|;
      if link.replies(s).ret != 0 then
        r == Failed && card.status == INACTIVE && link.sent == old(link.sent) + [Request(ALL_SEND_CID, 0, R2)]
      else
        && r == Ok && card.status == ACTIVE
        && card.rawRca == link.replies(s + 1).response[0] / 0x1_0000 < 0x1_0000
        && Value(card.rawCid) == Value(link.replies(s).response) * 0x100 % Pow2(128)
        && Value(card.rawCsd) == Value(link.replies(s + 2).response) * 0x100 % Pow2(128)
        && link.sent == old(link.sent) + Identification(card.rawRca)
  {
    hide Value, Pow2;
    var reply := link.Send(ALL_SEND_CID, 0, R2);
    if reply.ret != 0 {
      card.status := INACTIVE;
      return Failed;
    }
    card.status := ACTIVE;
    card.rawCid := Realign(reply.response);
    reply := link.Send(SEND_RELATIVE_ADDR, 0, R6);
    card.rawRca := reply.response[0] / 0x1_0000;
    reply := link.Send(SEND_CSD, card.rawRca * 0x1_0000, R2);
    card.rawCsd := Realign(reply.response);
    r := Ok;
  }

  /** The rest of the registration: status, selection, bus width and, for a card addressed by byte, the
      block length. The status request reuses the argument of the request before it. */
  method SelectCard(card: MmcCard, link: Link)
    requires card.rawRca < 0x1_0000
    modifies link
    ensures link.sent == old(link.sent) + Selection(card.rawRca, card.highCapacity)
  {
    var arg: u32 := card.rawRca * 0x1_0000;
    var reply := link.Send(SEND_STATUS, arg, R1);
    reply := link.Send(SELECT_CARD, arg, R1b);
    reply := link.Send(APP_CMD, arg, R1);
    arg := 2;
    reply := link.Send(SD_SET_BUS_WIDTH, arg, R1);
    if !card.highCapacity {
      reply := link.Send(SET_BLOCKLEN, 512, R1);
    }
  }

  // ---------------------------------------------------------------- the whole initialisation

  /** The requests of a complete initialisation with `n` voltage rounds. */
  function InitTrace(n: nat, voltageArg: u32, rca: nat, highCapacity: bool): seq<Request>
    requires rca < 0x1_0000
  {
    [Request(GO_IDLE_STATE, 0, NONE), Request(SEND_EXT_CSD, 0x1AA, R1)]
    + [Request(APP_CMD, 0, R1), Request(SD_APP_OP_COND, 0, R3)] + Rounds(n, voltageArg)
    + Registration(rca, highCapacity)
  }

  /** The dialogue with the card: reset, voltage validation, registration. */
  method Handshake(card: MmcCard, link: Link, voltage: u32 -> u32) returns (r: Result, ghost n: nat)
    requires link.sent == []
    modifies link, card
    ensures r == Ok ==> 1 <= n <= 10 && VoltageRounds(link.replies, 4, n)
    ensures r == Ok ==> card.rawRca == link.replies(2 * n + 5).response[0] / 0x1_0000 < 0x1_0000
    ensures r == Ok ==>
              link.sent == InitTrace(n, voltage(link.replies(3).response[0]), card.rawRca, card.highCapacity)
    ensures r == Ok ==>
              && card.ocr == link.replies(2 * n + 3).response[0] && Bit(card.ocr, 31)
              && card.highCapacity == Bit(card.ocr, 30)
    ensures r == Ok ==> Value(card.rawCsd) == Value(link.replies(2 * n + 6).response) * 0x100 % Pow2(128)
    ensures r == Ok <==> Answers(link.replies, n)
    ensures r != Ok ==> forall m :: !Answers(link.replies, m)
    ensures r == Aborted <==> Echoes(link.replies(1)) && link.replies(2).ret == 0 && link.replies(3).ret != 0
  {
    hide Value, Pow2, Bit, Rounds, VoltageRounds, Registration, ReadyIn, Answers;
    n := 0;
    Unanswered(link.replies);
    r := ResetCard(link);
    if r != Ok { return; }
    assert link.sent == [Request(GO_IDLE_STATE, 0, NONE), Request(SEND_EXT_CSD, 0x1AA, R1)];
    r, n := ValidateVoltage(card, link, voltage);
    if link.replies(2).ret == 0 && link.replies(3).ret == 0 { Answered(link.replies, n); }
    if r != Ok { return; }
    assert |link.sent| == 4 + 2 * n;
    r := RegisterCard(card, link);
  }

  /** The reply to the interface condition command: no error, voltage and pattern echoed. */
  predicate Echoes(reply: Reply) {
    reply.ret == 0 && reply.response[0] % 0x1000 == 0x1AA
  }

  /** The card answers as a handshake with `n` voltage rounds needs it. */
  ghost predicate Answers(replies: nat -> Reply, n: nat) {
    && Echoes(replies(1)) && replies(2).ret == 0 && replies(3).ret == 0
    && n <= 10 && VoltageRounds(replies, 4, n) && replies(2 * n + 4).ret == 0
  }

  lemma Unanswered(replies: nat -> Reply)
    ensures !Echoes(replies(1)) || replies(2).ret != 0 || replies(3).ret != 0 ==> forall m :: !Answers(replies, m)
  {
  }

  lemma Answered(replies: nat -> Reply, n: nat)
    requires Echoes(replies(1)) && replies(2).ret == 0 && replies(3).ret == 0 && VoltageRounds(replies, 4, n)
    ensures Answers(replies, n) <==> n <= 10 && replies(2 * n + 4).ret == 0
    ensures !Answers(replies, n) ==> forall m :: !Answers(replies, m)
  {
    hide VoltageRounds;
    OneNumberOfRounds(replies, 4, n);
  }

  lemma OneNumberOfRounds(replies: nat -> Reply, s: nat, n: nat)
    requires VoltageRounds(replies, s, n)
    ensures forall m: nat :: VoltageRounds(replies, s, m) ==> m == n
  {
    hide ReadyIn;
  }

  /** Initialise the card. Success hands out a card whose address, capacity class and registers are the
      ones it replied with, after exactly the requests of `InitTrace`; on any failure no card is handed
      out and nothing stays allocated. */
  method InitCard(heap: Memory.Heap, link: Link, memory: bool, hostReset: int, hostOperational: int,
                  voltage: u32 -> u32)
    returns (r: Result, card: MmcCard?, ghost n: nat)
    requires heap.Valid() && link.sent == []
    modifies heap, link
    ensures heap.Valid() && forall o :: o in heap.freed && !fresh(o) ==> o in old(heap.freed)
    ensures r != Ok ==> card == null
    ensures r == Failed ==> heap.live == old(heap.live)
    ensures r == Ok ==> card != null && fresh(card) && heap.live == old(heap.live) + {card}
    ensures r == Ok ==> 1 <= n <= 10 && VoltageRounds(link.replies, 4, n)
    ensures r == Ok ==> card.rawRca == link.replies(2 * n + 5).response[0] / 0x1_0000 < 0x1_0000
    ensures r == Ok ==>
              link.sent == InitTrace(n, voltage(link.replies(3).response[0]), card.rawRca, card.highCapacity)
    ensures r == Ok ==>
              && card.ocr == link.replies(2 * n + 3).response[0] && Bit(card.ocr, 31)
              && card.highCapacity == Bit(card.ocr, 30)
    ensures r == Ok ==> CardCapacity(Some(card.rawCsd)) == DeclaredCapacity(Value(link.replies(2 * n + 6).response))
    ensures r == Ok <==> memory && hostReset == 0 && hostOperational == 0 && Answers(link.replies, n)
    ensures r != Ok && memory && hostReset == 0 && hostOperational == 0 ==> forall m :: !Answers(link.replies, m)
    ensures r == Aborted <==>
              || !memory
              || (hostReset == 0 && Echoes(link.replies(1)) && link.replies(2).ret == 0 && link.replies(3).ret != 0)
  {
    hide Value, Pow2, Bit, InitTrace, VoltageRounds, CardCapacity, DeclaredCapacity, Answers, Echoes;
    n := 0;
    if !memory {
      return Aborted, null, 0;
    }
    var mmc := new MmcCard();
    heap.Allocated(mmc);
    if hostReset != 0 {
      heap.Free(mmc);
      return Failed, null, 0;
    }
    r, n := Handshake(mmc, link, voltage);
    if r != Ok {
      if r == Failed { heap.Free(mmc); }
      return r, null, n;
    }
    if hostOperational != 0 {
      heap.Free(mmc);
      return Failed, null, n;
    }
    CapacityIsDeclared(link.replies(2 * n + 6).response, mmc.rawCsd);
    card := mmc;
  }

  /** In a complete initialisation every application command directly follows the command that announces
      it, and the number of commands is fixed by the rounds and the card's capacity class. */
  lemma {:induction false} RoundsAlternate(n: nat, arg: u32, i: nat)
    requires i < 2 * n
    ensures Rounds(n, arg)[i].index == if i % 2 == 0 then APP_CMD else SD_APP_OP_COND
  {
    if i < 2 * (n - 1) {
      RoundsAlternate(n - 1, arg, i);
    }
  }

  predicate IsApplicationCommand(t: seq<Request>, i: nat)
    requires i < |t|
  {
    t[i].index == SD_APP_OP_COND || t[i].index == SD_SET_BUS_WIDTH
  }

  lemma ApplicationCommandsAreAnnounced(n: nat, voltageArg: u32, rca: nat, highCapacity: bool, i: nat)
    requires rca < 0x1_0000
    requires i < |InitTrace(n, voltageArg, rca, highCapacity)|
    requires IsApplicationCommand(InitTrace(n, voltageArg, rca, highCapacity), i)
    ensures i > 0 && InitTrace(n, voltageArg, rca, highCapacity)[i - 1].index == APP_CMD
  {
    hide Rounds;
    var t, rounds := InitTrace(n, voltageArg, rca, highCapacity), Rounds(n, voltageArg);
    assert t == [t[0], t[1], t[2], t[3]] + rounds + Registration(rca, highCapacity);
    if 4 <= i < 4 + 2 * n {
      assert t[i] == rounds[i - 4];
      RoundsAlternate(n, voltageArg, i - 4);
      RoundsAlternate(n, voltageArg, i - 5);
      assert t[i - 1] == rounds[i - 5];
    }
  }
}
