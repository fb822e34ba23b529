/**
 The driver's records, and the memory that hangs on queued ones: whose it is, who will free it, and
 that nobody uses it afterwards.
 */
module Commands {
  import opened Base
  import opened HostModel
  import opened Registers

  /** The block layer's completion token. */
  class Token {
    constructor () {}
  }

  /** A data segment. No field is written after creation. */
  class DataSegment {
    const v: Data

    constructor (v: Data)
      ensures this.v == v
    {
      this.v := v;
    }
  }

  datatype Handler = NoHandler | ClientHandler | BlockOpHandler(token: Token)

  function Kind(cb: Handler): Callback {
    match cb
    case NoHandler => NoCallback
    case ClientHandler => ClientCallback
    case BlockOpHandler(_) => BlockOpCallback
  }

  function CmdValue(index: bv32, arg: u32, rsp: RspType, data: DataSegment?, cb: Handler, response: Response): Cmd {
    Cmd(index, arg, rsp, if data == null then None else Some(data.v), Kind(cb), response)
  }

  class Command {
    var index: bv32
    var arg: u32
    var rsp: RspType
    var response: Response
    var data: DataSegment?
    var cb: Handler
    var next: Command?
    var complete: int

    /** The response array is left uninitialised (mmc.c:118-135). */
    constructor (index: bv32, arg: u32, rsp: RspType, data: DataSegment?)
      ensures this.index == index && this.arg == arg && this.rsp == rsp && this.data == data
      ensures cb == NoHandler && next == null && complete == 0
    {
      this.index, this.arg, this.rsp, this.data := index, arg, rsp, data;
      cb, next, complete := NoHandler, null, 0;
    }

    ghost function Value(): Cmd
      reads this
    {
      CmdValue(index, arg, rsp, data, cb, response)
    }

    /** The value the command has once it is submitted with callback `h`. */
    ghost function ValueWith(h: Handler): Cmd
      reads this
    {
      CmdValue(index, arg, rsp, data, h, response)
    }

    /** The command has completed as `f` says and is linked to nothing. */
    ghost predicate Records(f: Finished)
      reads this
    {
      complete == f.code && f.code != 0 && response == f.cmd.response && next == null
    }
  }

  // ---------------------------------------------------------------- memory of queued commands

  /** A command with the memory that hangs on it. */
  datatype Tie = Tie(cmd: Command, data: DataSegment?, cb: Handler)

  /** What the driver touches while the command is queued and in its callback. */
  ghost function Uses(t: Tie): set<object> {
    {t.cmd} + (if t.data != null then {t.data} else {}) + (if t.cb.BlockOpHandler? then {t.cb.token} else {})
  }

  /** What the completion callback frees: everything, for a transfer of the block layer. */
  ghost function Footprint(t: Tie): set<object> {
    if t.cb.BlockOpHandler? then Uses(t) else {}
  }

  /** Memory that callbacks still to come will free. */
  ghost function InFlight(ties: seq<Tie>): set<object> {
    set t: Tie, o: object | t in ties && o in Footprint(t) :: o
  }

  /** Nothing the command uses has been freed, and what its callback will free is on the heap. */
  ghost predicate OwnsMemory(t: Tie, live: set<object>, freed: set<object>) {
    Uses(t) !! freed && (t.cb.BlockOpHandler? ==> t.data != null && Uses(t) <= live)
  }

  /** Freeing what `t` owns leaves `u` intact. */
  ghost predicate Apart(t: Tie, u: Tie) {
    Footprint(t) !! Uses(u)
  }

  /** Queued commands are intact, and what one of them will free belongs to it alone. */
  ghost predicate Owned(ties: seq<Tie>, live: set<object>, freed: set<object>) {
    && (forall i :: 0 <= i < |ties| ==> OwnsMemory(ties[i], live, freed))
    && (forall i, j :: 0 <= i < |ties| && 0 <= j < |ties| && i != j ==> Apart(ties[i], ties[j]))
  }

  ghost predicate Joins(t: Tie, ties: seq<Tie>, live: set<object>, freed: set<object>) {
    OwnsMemory(t, live, freed) && forall i :: 0 <= i < |ties| ==> Apart(t, ties[i]) && Apart(ties[i], t)
  }

  lemma OwnedAppend(ties: seq<Tie>, t: Tie, live: set<object>, freed: set<object>)
    requires Owned(ties, live, freed) && Joins(t, ties, live, freed)
    ensures Owned(ties + [t], live, freed) && InFlight(ties + [t]) == InFlight(ties) + Footprint(t)
  {
    hide OwnsMemory, Apart, Footprint;
    assert forall u :: u in ties + [t] <==> u in ties || u == t;
  }

  lemma InFlightCons(t: Tie, ties: seq<Tie>)
    ensures InFlight([t] + ties) == Footprint(t) + InFlight(ties)
  {
    hide Footprint;
    assert forall u :: u in [t] + ties <==> u == t || u in ties;
  }

  lemma InFlightSnoc(ties: seq<Tie>, t: Tie)
    ensures InFlight(ties + [t]) == InFlight(ties) + Footprint(t)
  {
    hide Footprint;
    assert forall u :: u in ties + [t] <==> u in ties || u == t;
  }

  lemma OwnedTail(t: Tie, ties: seq<Tie>, live: set<object>, freed: set<object>)
    requires Owned([t] + ties, live, freed)
    ensures Owned(ties, live, freed) && OwnsMemory(t, live, freed)
    ensures Footprint(t) !! InFlight(ties) && forall i :: 0 <= i < |ties| ==> Uses(ties[i]) !! Footprint(t)
  {
    hide OwnsMemory, Uses;
    var all := [t] + ties;
    assert all[0] == t && OwnsMemory(all[0], live, freed);
    assert forall i :: 0 <= i < |ties| ==> ties[i] == all[i + 1];
    forall i | 0 <= i < |ties|
      ensures OwnsMemory(ties[i], live, freed) && Uses(ties[i]) !! Footprint(t)
      ensures forall j :: 0 <= j < |ties| && i != j ==> Apart(ties[i], ties[j])
    {
      assert OwnsMemory(all[i + 1], live, freed) && Apart(all[0], all[i + 1]);
      forall j | 0 <= j < |ties| && i != j
        ensures Apart(ties[i], ties[j])
      {
        assert Apart(all[i + 1], all[j + 1]);
      }
    }
    FootprintsApart(t, ties);
  }

  lemma FootprintsApart(t: Tie, ties: seq<Tie>)
    requires forall i :: 0 <= i < |ties| ==> Uses(ties[i]) !! Footprint(t)
    ensures Footprint(t) !! InFlight(ties)
  {
    forall o | o in InFlight(ties)
      ensures o !in Footprint(t)
    {
      var i :| 0 <= i < |ties| && o in Footprint(ties[i]);
      assert o in Uses(ties[i]);
    }
  }

  /** What is in flight will be freed by the callback of one queued command. */
  lemma InFlightOfOne(ties: seq<Tie>, o: object) returns (i: nat)
    requires o in InFlight(ties)
    ensures i < |ties| && o in Footprint(ties[i]) && o in Uses(ties[i])
  {
    i :| 0 <= i < |ties| && o in Footprint(ties[i]);
  }

  lemma InFlightFromOne(ties: seq<Tie>, t: Tie, o: object)
    requires t in ties && o in Footprint(t)
    ensures o in InFlight(ties)
  {
  }

  lemma InFlightIsLive(ties: seq<Tie>, live: set<object>, freed: set<object>)
    requires Owned(ties, live, freed)
    ensures InFlight(ties) <= live
  {
    forall o | o in InFlight(ties)
      ensures o in live
    {
      var i :| 0 <= i < |ties| && o in Footprint(ties[i]);
      assert OwnsMemory(ties[i], live, freed);
    }
  }

  /** What a command without a callback uses is freed by no callback. */
  lemma NotInFlight(ties: seq<Tie>, k: nat, live: set<object>, freed: set<object>)
    requires Owned(ties, live, freed) && k < |ties| && ties[k].cb.NoHandler?
    ensures Uses(ties[k]) !! InFlight(ties)
  {
    forall o | o in InFlight(ties)
      ensures o !in Uses(ties[k])
    {
      var i :| 0 <= i < |ties| && o in Footprint(ties[i]);
      assert Apart(ties[i], ties[k]);
    }
  }

  lemma OwnedMore(ties: seq<Tie>, live: set<object>, freed: set<object>, o: object)
    requires Owned(ties, live, freed) && o !in live
    ensures Owned(ties, live + {o}, freed)
    ensures live + {o} - InFlight(ties) == live - InFlight(ties) + {o}
  {
    hide InFlight;
    InFlightIsLive(ties, live, freed);
    forall i | 0 <= i < |ties|
      ensures OwnsMemory(ties[i], live + {o}, freed)
    {
      assert OwnsMemory(ties[i], live, freed);
    }
  }

  /** Memory that no queued command uses can be freed without disturbing the queue. */
  lemma OwnedWithout(ties: seq<Tie>, live: set<object>, freed: set<object>, gone: set<object>)
    requires Owned(ties, live, freed) && forall i :: 0 <= i < |ties| ==> Uses(ties[i]) !! gone
    ensures Owned(ties, live - gone, freed + gone)
    ensures live - gone - InFlight(ties) == live - InFlight(ties) - gone
  {
    forall i | 0 <= i < |ties|
      ensures OwnsMemory(ties[i], live - gone, freed + gone)
    {
      assert OwnsMemory(ties[i], live, freed);
    }
  }
}
