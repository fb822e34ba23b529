/**
 The initialisation behind the driver: the requests of the handshake, made one after the other as
 blocking sends, are what the controller sees on the bus.
 */
module InitOnBus {
  import opened Base
  import opened CardInit
  import CardModel
  import opened HostModel
  import opened QueueRuns
  import opened Registers

  /** The command structure of a request. It is reused, so the response array holds what the request before
      left in it. */
  function CommandFor(q: Request, left: Response): Cmd
    requires q.index < 64
  {
    Cmd(IndexBits(q.index), q.arg, q.rsp, None, NoCallback, left)
  }

  function IndexBits(index: nat): bv32
    requires index < 64
  {
    index as bv32
  }

  predicate SixBits(sent: seq<Request>) {
    forall i :: 0 <= i < |sent| ==> sent[i].index < 64
  }

  /** From `h` to `h1` the requests were made through the driver: request `i` polled on the events of
      `scripts(i)`, and its reply, number `first + i` of the dialogue, is what the blocking send brought back. */
  ghost predicate Dialogue(h: Host, sent: seq<Request>, left: Response, replies: nat -> Reply, first: nat,
                           scripts: nat -> seq<Event>, h1: Host)
    requires HostOk(h) && SixBits(sent) && forall i :: ScriptOk(scripts(i), |h.ram|)
    decreases |sent|
  {
    if sent == [] then h1 == h
    else
      match BlockingSend(h, CommandFor(sent[0], left), scripts(first))
      case Crashed => false
      case Waiting => false
      case Returned(code, response, h2, _) =>
        && replies(first) == Reply(if code < 0 then code else 0, response)
        && Dialogue(h2, sent[1..], response, replies, first + 1, scripts, h1)
  }

  /** A command on the bus is this request: its index and argument, its response type, no data. */
  predicate Carries(b: Issued, q: Request) {
    q.index < 64 && b.arg == q.arg && Says(b.xfrTyp, IndexBits(q.index), q.rsp)
  }

  predicate Says(xfrTyp: bv32, index: bv32, rsp: RspType) {
    IndexOf(xfrTyp) == index && !Has(xfrTyp, DPSEL) && xfrTyp == XfrTyp(index, rsp, None)
  }

  /** The bus gained exactly these requests, in order. */
  predicate Gained(before: seq<Issued>, after: seq<Issued>, sent: seq<Request>) {
    && |after| == |before| + |sent| && before <= after
    && forall i :: 0 <= i < |sent| ==> Carries(after[|before| + i], sent[i])
  }

  lemma CommandCarries(q: Request, left: Response)
    requires q.index < 64
    ensures Carries(Wire(CommandFor(q, left)), q)
  {
    hide Says, XfrTyp, IndexBits;
    SmallIndex(q.index);
    TypeSays(IndexBits(q.index), q.rsp);
  }

  lemma TypeSays(index: bv32, rsp: RspType)
    requires index & CMDINX_MASK == index
    ensures Says(XfrTyp(index, rsp, None), index, rsp)
  {
    hide XfrTyp, IndexOf, Has;
    TransferTypeIsDecodable(index, rsp, None);
  }

  lemma SmallIndex(index: nat)
    requires index < 64
    ensures IndexBits(index) & CMDINX_MASK == IndexBits(index)
  {
    LowSixBits(IndexBits(index));
  }

  lemma LowSixBits(index: bv32)
    requires index < 64
    ensures index & CMDINX_MASK == index
  {
  }

  /** Polling for a command that is alone in the queue puts nothing more on the bus. */
  lemma {:induction false} PollingIsQuiet(h: Host, c: Cmd, script: seq<Event>)
    requires HostOk(h) && |h.queue| == 1 && Same(h.queue[0], c) && c.cb.NoCallback? && ScriptOk(script, |h.ram|)
    requires Poll(h, |h.finished|, script).Returned?
    ensures var w := Poll(h, |h.finished|, script); w.host.queue == [] && OnBus(w.host.log) == OnBus(h.log)
    decreases |script|
  {
    hide Judge, Serve, OnBus, Poll, QueueOk, EventOk, Capture;
    CardModel.PollOneCommand(h, c, script);
    CardModel.SameData(h.queue[0], c);
    ServeStartsNothing(h, script[0]);
    if Judge(c.data, script[0].status).Running? {
      PollingIsQuiet(Serve(h, script[0]), c, script[1..]);
    }
  }

  /** A blocking send on an idle host puts its command on the bus and leaves the host idle. */
  lemma SendIsOneCommand(h: Host, c: Cmd, script: seq<Event>)
    requires HostOk(h) && h.queue == [] && CmdOk(c, |h.ram|) && c.cb.NoCallback? && ScriptOk(script, |h.ram|)
    requires BlockingSend(h, c, script).Returned?
    ensures
      var w := BlockingSend(h, c, script);
      w.host.queue == [] && OnBus(w.host.log) == OnBus(h.log) + [Wire(c)]
  {
    hide OnBus, Wire, Poll, Issue;
    CardModel.SendReachesBus(h, c);
    PollingIsQuiet(Send(h, c), c, script);
  }

  /** A dialogue on an idle host is seen on the bus request by request. */
  lemma {:induction false} DialogueOnBus(h: Host, sent: seq<Request>, left: Response, replies: nat -> Reply, first: nat,
                                         scripts: nat -> seq<Event>, h1: Host)
    requires HostOk(h) && h.queue == [] && SixBits(sent) && forall i :: ScriptOk(scripts(i), |h.ram|)
    requires Dialogue(h, sent, left, replies, first, scripts, h1)
    ensures h1.queue == [] && Gained(OnBus(h.log), OnBus(h1.log), sent)
    decreases |sent|
  {
    hide OnBus, BlockingSend, Carries, Wire, ScriptOk, QueueOk;
    if sent != [] {
      var c := CommandFor(sent[0], left);
      var w := BlockingSend(h, c, scripts(first));
      SendIsOneCommand(h, c, scripts(first));
      CommandCarries(sent[0], left);
      DialogueOnBus(w.host, sent[1..], w.response, replies, first + 1, scripts, h1);
      GainedMore(OnBus(h.log), Wire(c), OnBus(h1.log), sent);
    }
  }

  lemma GainedMore(before: seq<Issued>, b: Issued, after: seq<Issued>, sent: seq<Request>)
    requires sent != [] && Carries(b, sent[0]) && Gained(before + [b], after, sent[1..])
    ensures Gained(before, after, sent)
  {
    hide Carries;
    forall i | 0 <= i < |sent|
      ensures Carries(after[|before| + i], sent[i])
    {
      if i > 0 {
        assert sent[1..][i - 1] == sent[i] && |before + [b]| + (i - 1) == |before| + i;
      } else {
        assert after[|before|] == (before + [b])[|before|];
      }
    }
  }

  /** So a successful initialisation shows on the bus as its trace: the commands of `InitTrace` in order,
      each with its argument and response type, and nothing else. */
  lemma InitialisationOnBus(h: Host, n: nat, voltageArg: u32, rca: nat, highCapacity: bool, left: Response,
                            replies: nat -> Reply, scripts: nat -> seq<Event>, h1: Host)
    requires HostOk(h) && h.queue == [] && rca < 0x1_0000 && forall i :: ScriptOk(scripts(i), |h.ram|)
    requires
      (TraceIsSixBits(n, voltageArg, rca, highCapacity);
       Dialogue(h, InitTrace(n, voltageArg, rca, highCapacity), left, replies, 0, scripts, h1))
    ensures h1.queue == [] && Gained(OnBus(h.log), OnBus(h1.log), InitTrace(n, voltageArg, rca, highCapacity))
  {
    hide InitTrace, OnBus, Dialogue;
    TraceIsSixBits(n, voltageArg, rca, highCapacity);
    DialogueOnBus(h, InitTrace(n, voltageArg, rca, highCapacity), left, replies, 0, scripts, h1);
  }

  lemma TraceIsSixBits(n: nat, voltageArg: u32, rca: nat, highCapacity: bool)
    requires rca < 0x1_0000
    ensures SixBits(InitTrace(n, voltageArg, rca, highCapacity))
  {
    hide Rounds;
    forall i | 0 <= i < 2 * n
      ensures Rounds(n, voltageArg)[i].index < 64
    {
      RoundsAlternate(n, voltageArg, i);
    }
  }
}
