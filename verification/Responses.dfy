/**
 What a command brings back: the response registers saved in its array, and the code, told in bits of
 the status word and words of the registers.
 */
module Responses {
  import opened Base
  import opened HostModel
  import opened Registers
  import CardModel
  import QueueRuns

  /** Bit 0 of the status word: the response has arrived. */
  predicate Responded(e: Event) {
    e.status & 0x0000_0001 != 0
  }

  /** A response array after the registers `regs` were saved over `before`: all four words of a long response,
      none without a response, word 3 alone for the response to CMD12, and word 0 alone otherwise. */
  ghost predicate Saved(rsp: RspType, index: bv32, before: Response, regs: Response, after: Response) {
    match rsp
    case R2 => after == regs
    case NONE => after == before
    case R1b =>
      if index == 12 then after[3] == regs[3] && after[..3] == before[..3]
      else after[0] == regs[0] && after[1..] == before[1..]
    case _ => after[0] == regs[0] && after[1..] == before[1..]
  }

  /** What was saved earlier in the same places does not matter. */
  lemma SavedOver(rsp: RspType, index: bv32, r0: Response, regs0: Response, r1: Response, regs1: Response, r2: Response)
    requires Saved(rsp, index, r0, regs0, r1) && Saved(rsp, index, r1, regs1, r2)
    ensures Saved(rsp, index, r0, regs1, r2)
  {
  }

  /** One handler call, whatever else is queued: the response registers are saved for the head exactly when
      bit 0 of the status word is set, and the commands behind it are left alone. */
  lemma HandlerSaves(h: Host, e: Event)
    requires HostOk(h) && h.queue != [] && !Judge(h.queue[0].data, e.status).Abort?
    ensures
      var c, r := h.queue[0], Serve(h, e).queue[0];
      && (Responded(e) ==> Saved(c.rsp, c.index, c.response, e.rsp, r.response))
      && (!Responded(e) ==> r.response == c.response)
      && r == c.(response := r.response) && Serve(h, e).queue[1..] == h.queue[1..]
      && (Judge(c.data, e.status).Done? ==> Completion(h, e).cmd == r)
  {
    hide Judge, Serve;
  }

  /** The last event in which the response arrived. */
  predicate LastResponded(es: seq<Event>, k: nat) {
    k < |es| && Responded(es[k]) && forall i :: k < i < |es| ==> !Responded(es[i])
  }

  predicate NeverResponded(es: seq<Event>) {
    forall i :: 0 <= i < |es| ==> !Responded(es[i])
  }

  /** What the events `es` leave in a response array that held `before`. */
  ghost predicate Brought(c: Cmd, before: Response, es: seq<Event>, after: Response) {
    && (NeverResponded(es) ==> after == before)
    && (forall k: nat :: LastResponded(es, k) ==> Saved(c.rsp, c.index, before, es[k].rsp, after))
  }

  lemma BroughtOneMore(c: Cmd, r0: Response, es: seq<Event>, r1: Response, r2: Response)
    requires es != [] && Brought(c, r1, es[1..], r2)
    requires if Responded(es[0]) then Saved(c.rsp, c.index, r0, es[0].rsp, r1) else r1 == r0
    ensures Brought(c, r0, es, r2)
  {
    hide Responded, Saved;
    assert forall i :: 0 <= i < |es[1..]| ==> es[1..][i] == es[i + 1];
    forall k: nat | LastResponded(es, k)
      ensures Saved(c.rsp, c.index, r0, es[k].rsp, r2)
    {
      if k == 0 {
        assert NeverResponded(es[1..]);
      } else {
        assert LastResponded(es[1..], k - 1);
        if Responded(es[0]) { SavedOver(c.rsp, c.index, r0, es[0].rsp, r1, es[k].rsp, r2); }
      }
    }
    if NeverResponded(es) {
      assert NeverResponded(es[1..]);
    }
  }

  lemma BroughtByOne(c: Cmd, r0: Response, e: Event, r1: Response)
    requires if Responded(e) then Saved(c.rsp, c.index, r0, e.rsp, r1) else r1 == r0
    ensures Brought(c, r0, [e], r1)
  {
    hide Responded, Saved;
    forall k: nat | LastResponded([e], k)
      ensures Saved(c.rsp, c.index, r0, [e][k].rsp, r1)
    {
      assert k == 0;
    }
    if NeverResponded([e]) { assert !Responded([e][0]); }
  }

  /** Polling for the one command of the queue. */
  lemma {:induction false} PollBrings(h: Host, c: Cmd, script: seq<Event>)
    requires HostOk(h) && |h.queue| == 1 && QueueRuns.Same(h.queue[0], c) && c.cb.NoCallback?
    requires ScriptOk(script, |h.ram|) && Poll(h, |h.finished|, script).Returned?
    ensures
      var w := Poll(h, |h.finished|, script);
      && |w.rest| < |script|
      && var used := script[..|script| - |w.rest|];
         && Brought(c, h.queue[0].response, used, w.response)
         && CodeSays(used[|used| - 1].status, w.code) && (w.code == 1 || w.code < 0)
         && (c.data.None? && w.code == 1 && !Responded(used[|used| - 1]) ==> used[|used| - 1].status & 0x0000_0002 != 0)
    decreases |script|
  {
    hide Judge, Serve, Poll, QueueOk, HostOk, EventOk, Brought, CodeSays, Saved, Responded, Capture;
    CardModel.PollOneCommand(h, c, script);
    PollUsesEvents(h, |h.finished|, script);
    CardModel.SameData(h.queue[0], c);
    var w, e := Poll(h, |h.finished|, script), script[0];
    HandlerSaves(h, e);
    var used := script[..|script| - |w.rest|];
    var h1 := Serve(h, e);
    if Judge(c.data, e.status).Done? {
      assert used == [e];
      BroughtByOne(c, h.queue[0].response, e, w.response);
      DoneSays(c.data, e);
    } else {
      PollBrings(h1, c, script[1..]);
      assert used[1..] == script[1..][..|script[1..]| - |w.rest|];
      BroughtOneMore(c, h.queue[0].response, used, h1.queue[0].response, w.response);
    }
  }

  lemma DoneSays(data: Option<Data>, e: Event)
    requires Judge(data, e.status).Done?
    ensures
      var code := Judge(data, e.status).code;
      && CodeSays(e.status, code) && (code == 1 || code < 0)
      && (data.None? && code == 1 && !Responded(e) ==> e.status & 0x0000_0002 != 0)
  {
    hide CodeSays, ErrorCode;
    QueueRuns.JudgeCode(data, e.status);
    QueueRuns.ErrorIsNegative(e.status);
    CodeByBits(e.status);
  }

  /** A blocking send on an idle host, by the events it used: the code is that of the last one's status word,
      and the response array holds what the last response put there, over what it held when it was submitted. */
  lemma SendBrings(h: Host, c: Cmd, script: seq<Event>)
    requires HostOk(h) && h.queue == [] && CmdOk(c, |h.ram|) && c.cb.NoCallback? && ScriptOk(script, |h.ram|)
    requires BlockingSend(h, c, script).Returned?
    ensures
      var w := BlockingSend(h, c, script);
      && |w.rest| < |script|
      && var used := script[..|script| - |w.rest|];
         && CodeSays(used[|used| - 1].status, w.code) && (w.code == 1 || w.code < 0)
         && Brought(c, c.response, used, w.response)
  {
    hide Poll, Brought, CodeSays, Issue, Responded;
    PollBrings(Send(h, c), c, script);
  }

  /** A command without data that succeeds completes with its response: the array is saved from the registers
      of the last event used, whose bit 0 is set; or, when bit 1 was what completed it, it is as submitted. */
  lemma PlainCommandBrings(h: Host, c: Cmd, script: seq<Event>)
    requires HostOk(h) && h.queue == [] && CmdOk(c, |h.ram|) && c.cb.NoCallback? && ScriptOk(script, |h.ram|)
    requires c.data.None? && BlockingSend(h, c, script).Returned? && BlockingSend(h, c, script).code == 1
    ensures
      var w := BlockingSend(h, c, script);
      && |w.rest| < |script|
      && var e := script[|script| - |w.rest| - 1];
         && e.status & 0x137f_8080 == 0
         && (e.status & 0x0000_0001 != 0 ==> Saved(c.rsp, c.index, c.response, e.rsp, w.response))
         && (e.status & 0x0000_0001 == 0 ==> e.status & 0x0000_0002 != 0 && w.response == c.response)
  {
    hide Poll, Brought, Saved, Issue, BlockingSend;
    SendIsPoll(h, c, script);
    PollBrings(Send(h, c), c, script);
    PollRespondsOnce(Send(h, c), c, script);
    var w := BlockingSend(h, c, script);
    var used := script[..|script| - |w.rest|];
    LastOneBrings(c, c.response, used, w.response);
  }

  lemma SendIsPoll(h: Host, c: Cmd, script: seq<Event>)
    requires HostOk(h) && h.queue == [] && CmdOk(c, |h.ram|) && ScriptOk(script, |h.ram|)
    ensures BlockingSend(h, c, script) == Poll(Send(h, c), |h.finished|, script)
    ensures Send(h, c).queue == [c] && Send(h, c).finished == h.finished
  {
    hide Poll, Issue;
  }

  lemma LastOneBrings(c: Cmd, before: Response, es: seq<Event>, after: Response)
    requires es != [] && Brought(c, before, es, after) && NeverResponded(es[..|es| - 1])
    ensures if Responded(es[|es| - 1]) then Saved(c.rsp, c.index, before, es[|es| - 1].rsp, after) else after == before
  {
    hide Responded, Saved;
    var init := es[..|es| - 1];
    assert forall i :: 0 <= i < |init| ==> init[i] == es[i];
    if Responded(es[|es| - 1]) {
      assert LastResponded(es, |es| - 1);
    } else {
      assert NeverResponded(es);
    }
  }

  /** Before the event that completes it, a command without data has no response. */
  lemma {:induction false} PollRespondsOnce(h: Host, c: Cmd, script: seq<Event>)
    requires HostOk(h) && |h.queue| == 1 && QueueRuns.Same(h.queue[0], c) && c.cb.NoCallback? && c.data.None?
    requires ScriptOk(script, |h.ram|) && Poll(h, |h.finished|, script).Returned?
    ensures
      var w := Poll(h, |h.finished|, script);
      |w.rest| < |script| && NeverResponded(script[..|script| - |w.rest| - 1])
    decreases |script|
  {
    hide Judge, Serve, Poll, QueueOk, HostOk, EventOk, Responded, Capture;
    CardModel.PollOneCommand(h, c, script);
    PollUsesEvents(h, |h.finished|, script);
    CardModel.SameData(h.queue[0], c);
    var w, e := Poll(h, |h.finished|, script), script[0];
    var before := script[..|script| - |w.rest| - 1];
    if Judge(c.data, e.status).Running? {
      RunningHasNoResponse(e);
      HandlerSaves(h, e);
      PollRespondsOnce(Serve(h, e), c, script[1..]);
      assert before[1..] == script[1..][..|script[1..]| - |w.rest| - 1];
      assert forall i :: 1 <= i < |before| ==> before[i] == before[1..][i - 1];
    }
  }

  lemma RunningHasNoResponse(e: Event)
    requires Judge(None, e.status).Running?
    ensures !Responded(e)
  {
    hide ErrorCode;
  }

  /** The verdict by the bits of the status word: bit 0 is the response, bits 5:4 ask for a block, bit 1 ends
      the transfer, and 0x137f8080 are the errors. An assertion fails when a block is asked for without a
      buffer, or when two things complete the command at once; a command without data completes with its
      response, one with data at the end of the transfer, both with an error. */
  lemma VerdictByBits(data: Option<Data>, s: bv32)
    ensures
      var responded, asked, ended, failed := s & 0x1 != 0, s & 0x30 != 0, s & 0x2 != 0, s & 0x137f_8080 != 0;
      var plain := data.None?;
      var abort :=
        || (asked && (plain || data.value.vbuf == 0))
        || (failed && (asked || ended || (responded && plain)))
        || (responded && ended && plain);
      && (Judge(data, s) == Abort <==> abort)
      && (Judge(data, s) == Done(1) <==> !abort && !failed && (ended || (responded && plain)))
      && (Judge(data, s) == Running <==> !abort && !failed && !ended && !(responded && plain))
      && (!abort && failed ==> Judge(data, s).Done? && CodeSays(s, Judge(data, s).code) && Judge(data, s).code < 0)
  {
    hide ErrorCode, CodeSays, Has;
    CodeByBits(s);
    QueueRuns.ErrorIsNegative(s);
    FailedByBits(s);
    StatusBits(s);
  }

  lemma StatusBits(s: bv32)
    ensures Has(s, CC) == (s & 0x1 != 0) && Has(s, TC) == (s & 0x2 != 0) && Has(s, BRR | BWR) == (s & 0x30 != 0)
  {
  }

  lemma FailedByBits(s: bv32)
    ensures ErrorCode(s) == 0 <==> s & 0x137f_8080 == 0
  {
    CodeByBits(s);
    QueueRuns.ErrorIsNegative(s);
  }
}
