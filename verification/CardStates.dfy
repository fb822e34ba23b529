/**
 The card's side of the handshake: the states of the SD Physical Layer Simplified Specification, section 4.3,
 that an initialisation passes through, and where a successful one ends.
 */
module CardStates {
  import opened Base
  import opened CardInit
  import opened Registers
  import WordBits

  /** In the transfer state, the bus width and the block length that were set. */
  datatype CardState =
    | Idle
    | Ready
    | Identification
    | StandBy(rca: nat)
    | Transfer(rca: nat, fourBit: bool, blockLength: Option<nat>)

  /** A card, and whether the command before announced an application command. */
  datatype Progress = Progress(state: CardState, announced: bool)

  /** The response type of each command of the handshake. */
  predicate RightType(q: Request) {
    match q.index
    case 0 => q.rsp == NONE
    case 2 => q.rsp == R2
    case 9 => q.rsp == R2
    case 3 => q.rsp == R6
    case 7 => q.rsp == R1b
    case 41 => q.rsp == R3
    case _ => q.rsp == R1
  }

  /** The upper half of the argument is this address. */
  predicate Addresses(q: Request, rca: nat) {
    q.arg / 0x1_0000 == rca && q.arg % 0x1_0000 == 0
  }

  /** What a request does to the card that gives this reply; `None` for one that is illegal in its state or
      made to another card. A request for the operating conditions without a voltage only asks. */
  function Advance(p: Progress, q: Request, reply: Reply): Option<Progress> {
    if !RightType(q) then None
    else if q.index == 0 then (if q.arg == 0 then Some(Progress(Idle, false)) else None)
    else if p.announced then
      match p.state
      case Idle =>
        if q.index != 41 then None
        else Some(Progress(if q.arg != 0 && reply.response[0] / 0x8000_0000 == 1 then Ready else Idle, false))
      case Transfer(rca, _, length) =>
        if q.index == 6 && q.arg == 2 then Some(Progress(Transfer(rca, true, length), false)) else None
      case _ => None
    else
      match p.state
      case Idle =>
        if q.index == 8 && q.arg == 0x1AA then Some(p)
        else if q.index == 55 && q.arg == 0 then Some(Progress(Idle, true))
        else None
      case Ready => if q.index == 2 && q.arg == 0 then Some(Progress(Identification, false)) else None
      case Identification =>
        if q.index == 3 && q.arg == 0 then Some(Progress(StandBy(reply.response[0] / 0x1_0000), false)) else None
      case StandBy(rca) =>
        if (q.index == 9 || q.index == 13) && Addresses(q, rca) then Some(p)
        else if q.index == 7 && Addresses(q, rca) then Some(Progress(Transfer(rca, false, None), false))
        else None
      case Transfer(rca, wide, _) =>
        if q.index == 55 && Addresses(q, rca) then Some(Progress(p.state, true))
        else if q.index == 16 then Some(Progress(Transfer(rca, wide, Some(q.arg)), false))
        else None
  }

  /** The card after these requests, of which the first is number `first` of the dialogue. */
  function After(p: Progress, sent: seq<Request>, replies: nat -> Reply, first: nat): Option<Progress>
    decreases |sent|
  {
    if sent == [] then Some(p)
    else
      match Advance(p, sent[0], replies(first))
      case None => None
      case Some(p1) => After(p1, sent[1..], replies, first + 1)
  }

  lemma {:induction false} AfterBoth(p: Progress, xs: seq<Request>, ys: seq<Request>, replies: nat -> Reply,
                                     first: nat, p1: Progress)
    requires After(p, xs, replies, first) == Some(p1)
    ensures After(p, xs + ys, replies, first) == After(p1, ys, replies, first + |xs|)
    decreases |xs|
  {
    hide Advance;
    if xs == [] {
      assert xs + ys == ys;
    } else {
      assert (xs + ys)[1..] == xs[1..] + ys;
      AfterBoth(Advance(p, xs[0], replies(first)).value, xs[1..], ys, replies, first + 1, p1);
    }
  }

  /** A card that is not ready yet stays idle through the rounds, and leaves with the one that finds it ready. */
  lemma {:induction false} RoundsWake(n: nat, arg: u32, replies: nat -> Reply)
    requires arg != 0 && forall k :: 1 <= k < n ==> !ReadyIn(replies, 4, k)
    ensures
      After(Progress(Idle, false), Rounds(n, arg), replies, 4) ==
      Some(Progress(if n > 0 && ReadyIn(replies, 4, n) then Ready else Idle, false))
  {
    hide ReadyIn;
    if n > 0 {
      var idle, pair := Progress(Idle, false), [Request(APP_CMD, 0, R1), Request(SD_APP_OP_COND, arg, R3)];
      RoundsWake(n - 1, arg, replies);
      AfterBoth(idle, Rounds(n - 1, arg), pair, replies, 4, idle);
      OneRound(arg, replies, n);
    }
  }

  lemma OneRound(arg: u32, replies: nat -> Reply, n: nat)
    requires arg != 0 && n >= 1
    ensures
      After(Progress(Idle, false), [Request(APP_CMD, 0, R1), Request(SD_APP_OP_COND, arg, R3)], replies, 2 * n + 2) ==
      Some(Progress(if ReadyIn(replies, 4, n) then Ready else Idle, false))
  {
    TopBit(replies(2 * n + 3).response[0]);
    var pair := [Request(APP_CMD, 0, R1), Request(SD_APP_OP_COND, arg, R3)];
    assert pair[1..] == [pair[1]] && [pair[1]][1..] == [];
    assert After(Progress(Idle, true), [pair[1]], replies, 2 * n + 3) ==
           Some(Progress(if ReadyIn(replies, 4, n) then Ready else Idle, false));
  }

  lemma TopBit(w: u32)
    ensures Bit(w, 31) <==> w / 0x8000_0000 == 1
  {
    WordBits.Pow2Add(16, 15);
    WordBits.Pow2Add(8, 8);
    WordBits.Pow2Add(8, 7);
    WordBits.Pow2Word();
    SeventhPower();
  }

  lemma SeventhPower()
    ensures WordBits.Pow2(7) == 0x80
  {
  }

  /** The requests before the rounds leave the card idle, whatever it was. */
  lemma ResetIdles(p: Progress, replies: nat -> Reply)
    ensures After(p, Reset(), replies, 0) == Some(Progress(Idle, false))
  {
    var t := Reset();
    assert t[1..][0] == t[1] && t[1..][1..][0] == t[2] && t[1..][1..][1..][0] == t[3];
    assert After(Progress(Idle, true), t[1..][1..][1..], replies, 3) == Some(Progress(Idle, false));
    assert After(Progress(Idle, false), t[1..][1..], replies, 2) == Some(Progress(Idle, false));
  }

  lemma IdentificationStandsBy(rca: nat, replies: nat -> Reply, first: nat)
    requires rca == replies(first + 1).response[0] / 0x1_0000
    ensures After(Progress(Ready, false), CardInit.Identification(rca), replies,
                  first) == Some(Progress(StandBy(rca), false))
  {
    var t := CardInit.Identification(rca);
    assert t[1..][0] == t[1] && t[1..][1..][0] == t[2] && t[1..][1..][1..] == [];
    assert After(Progress(StandBy(rca), false), t[1..][1..], replies, first + 2) == Some(Progress(StandBy(rca), false));
  }

  lemma SelectionSelects(rca: nat, highCapacity: bool, replies: nat -> Reply, first: nat)
    requires rca < 0x1_0000
    ensures
      After(Progress(StandBy(rca), false), Selection(rca, highCapacity), replies, first) ==
      Some(Progress(Transfer(rca, true, if highCapacity then None else Some(512)), false))
  {
    hide After, Advance;
    var t := Selection(rca, highCapacity);
    var selected, wide := Transfer(rca, false, None), Transfer(rca, true, None);
    One(Progress(StandBy(rca), false), t, replies, first);
    One(Progress(StandBy(rca), false), t[1..], replies, first + 1);
    One(Progress(selected, false), t[2..], replies, first + 2);
    One(Progress(selected, true), t[3..], replies, first + 3);
    SelectionSteps(rca, replies(first), t);
    assert t[1..][1..] == t[2..] && t[2..][1..] == t[3..] && t[3..][1..] == t[4..];
    if highCapacity {
      Nothing(Progress(wide, false), replies, first + 4);
    } else {
      One(Progress(wide, false), t[4..], replies, first + 4);
      assert t[4..][1..] == [];
      Nothing(Progress(Transfer(rca, true, Some(512)), false), replies, first + 5);
    }
  }

  lemma One(p: Progress, t: seq<Request>, replies: nat -> Reply, first: nat)
    requires t != []
    ensures After(p, t, replies, first) ==
            match Advance(p, t[0], replies(first)) case None => None case Some(p1) => After(p1, t[1..], replies,
                                                                                            first + 1)
  {
  }

  lemma Nothing(p: Progress, replies: nat -> Reply, first: nat)
    ensures After(p, [], replies, first) == Some(p)
  {
  }

  lemma SelectionSteps(rca: nat, reply: Reply, t: seq<Request>)
    requires rca < 0x1_0000 && (t == Selection(rca, true) || t == Selection(rca, false))
    ensures
      var standBy, selected, wide := StandBy(rca), Transfer(rca, false, None), Transfer(rca, true, None);
      forall any: Reply ::
        && Advance(Progress(standBy, false), t[0], any) == Some(Progress(standBy, false))
        && Advance(Progress(standBy, false), t[1], any) == Some(Progress(selected, false))
        && Advance(Progress(selected, false), t[2], any) == Some(Progress(selected, true))
        && Advance(Progress(selected, true), t[3], any) == Some(Progress(wide, false))
        && (|t| > 4 ==> Advance(Progress(wide, false), t[4], any) == Some(Progress(Transfer(rca, true, Some(512)),
                                                                                   false)))
  {
  }

  /** A successful handshake, from whatever state the card was in, ends with this card selected by its own
      address, in the transfer state, on a four-bit bus, and with the block length set to 512 exactly when
      it is addressed by byte. No request on the way was illegal or went to another card. */
  lemma HandshakeSelects(p: Progress, n: nat, voltageArg: u32, rca: nat, highCapacity: bool, replies: nat -> Reply)
    requires Answers(replies, n) && rca == replies(2 * n + 5).response[0] / 0x1_0000 && voltageArg != 0
    ensures rca < 0x1_0000
    ensures
      After(p, InitTrace(n, voltageArg, rca, highCapacity), replies, 0) ==
      Some(Progress(Transfer(rca, true, if highCapacity then None else Some(512)), false))
  {
    hide After, Rounds, Selection, CardInit.Identification, Advance, Answers, ReadyIn;
    AnswersReady(replies, n);
    ResetIdles(p, replies);
    RoundsWake(n, voltageArg, replies);
    IdentificationStandsBy(rca, replies, 2 * n + 4);
    SelectionSelects(rca, highCapacity, replies, 2 * n + 7);
    InTurn(p, Reset(), Rounds(n, voltageArg), CardInit.Identification(rca), Selection(rca, highCapacity), replies,
           Progress(Idle, false), Progress(Ready, false), Progress(StandBy(rca), false));
    TraceParts(n, voltageArg, rca, highCapacity);
  }

  function Reset(): seq<Request> {
    [Request(GO_IDLE_STATE, 0, NONE), Request(SEND_EXT_CSD, 0x1AA, R1),
     Request(APP_CMD, 0, R1), Request(SD_APP_OP_COND, 0, R3)]
  }

  lemma TraceParts(n: nat, voltageArg: u32, rca: nat, highCapacity: bool)
    requires rca < 0x1_0000
    ensures |Reset()| == 4 && |Rounds(n, voltageArg)| == 2 * n && |CardInit.Identification(rca)| == 3
    ensures InitTrace(n, voltageArg, rca, highCapacity) ==
            Reset() + (Rounds(n, voltageArg) + (CardInit.Identification(rca) + Selection(rca, highCapacity)))
  {
    hide Rounds, Selection;
  }

  lemma AnswersReady(replies: nat -> Reply, n: nat)
    requires Answers(replies, n)
    ensures 1 <= n && ReadyIn(replies, 4, n) && forall k :: 1 <= k < n ==> !ReadyIn(replies, 4, k)
  {
  }

  /** Four parts of a dialogue, one after the other. */
  lemma InTurn(p: Progress, a: seq<Request>, b: seq<Request>, c: seq<Request>, d: seq<Request>,
               replies: nat -> Reply, p1: Progress, p2: Progress, p3: Progress)
    requires After(p, a, replies, 0) == Some(p1) && After(p1, b, replies, |a|) == Some(p2)
    requires After(p2, c, replies, |a| + |b|) == Some(p3)
    ensures After(p, a + (b + (c + d)), replies, 0) == After(p3, d, replies, |a| + |b| + |c|)
  {
    hide After;
    AfterBoth(p, a, b + (c + d), replies, 0, p1);
    AfterBoth(p1, b, c + d, replies, |a|, p2);
    AfterBoth(p2, c, d, replies, |a| + |b|, p3);
  }

  /** The trace in numbers: command, argument and response type of every request. */
  lemma TraceInNumbers(n: nat, voltageArg: u32, rca: nat, highCapacity: bool)
    requires rca < 0x1_0000
    ensures
      var t, s, own := InitTrace(n, voltageArg, rca, highCapacity), 2 * n + 4, rca * 0x1_0000;
      && |t| == s + (if highCapacity then 7 else 8)
      && t[0] == Request(0, 0, NONE) && t[1] == Request(8, 0x1AA, R1)
      && t[2] == Request(55, 0, R1) && t[3] == Request(41, 0, R3)
      && (forall k :: 1 <= k <= n ==> t[2 * k + 2] == Request(55, 0, R1) && t[2 * k + 3] == Request(41, voltageArg, R3))
      && t[s] == Request(2, 0, R2) && t[s + 1] == Request(3, 0, R6) && t[s + 2] == Request(9, own, R2)
      && t[s + 3] == Request(13, own, R1) && t[s + 4] == Request(7, own, R1b) && t[s + 5] == Request(55, own, R1)
      && t[s + 6] == Request(6, 2, R1) && (!highCapacity ==> t[s + 7] == Request(16, 512, R1))
  {
    hide Rounds;
    var t, rounds := InitTrace(n, voltageArg, rca, highCapacity), Rounds(n, voltageArg);
    var start, registration := [t[0], t[1], t[2], t[3]], Registration(rca, highCapacity);
    assert t == start + rounds + registration;
    forall k | 1 <= k <= n
      ensures t[2 * k + 2] == Request(55, 0, R1) && t[2 * k + 3] == Request(41, voltageArg, R3)
    {
      RoundInNumbers(n, voltageArg, k);
      assert t[2 * k + 2] == rounds[2 * k - 2] && t[2 * k + 3] == rounds[2 * k - 1];
    }
    assert forall i :: 0 <= i < |registration| ==> t[2 * n + 4 + i] == registration[i];
  }

  lemma {:induction false} RoundInNumbers(n: nat, arg: u32, k: nat)
    requires 1 <= k <= n
    ensures Rounds(n, arg)[2 * k - 2] == Request(55, 0, R1) && Rounds(n, arg)[2 * k - 1] == Request(41, arg, R3)
  {
    if k < n { RoundInNumbers(n - 1, arg, k); }
  }
}
