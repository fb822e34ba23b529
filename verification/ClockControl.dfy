/**
 The SD clock: the divider field for a target frequency, and the order in which the clock control
 register is changed (sections 2.2.14 and 3.2 of the SD Host Controller Simplified Specification 3.00).
 */
module ClockControl {
  import opened Base
  import opened WordBits

  const HOST_SPEC_V2 := 1
  const HOST_SPEC_V3 := 2
  const CLOCK_ID := 400_000
  const CLOCK_NORMAL := 25_000_000

  // ---------------------------------------------------------------- the divider

  /** The divider stored in a clock select field: bits 15:8 are its low byte, bits 7:6 the two bits above. */
  function DividerOf(field: nat): nat {
    field / 0x100 % 0x100 + 0x100 * (field / 0x40 % 4)
  }

  /** The factor by which a divider slows the base clock. */
  function Divisor(d: nat): nat {
    if d == 0 then 1 else 2 * d
  }

  /** The largest quotient a host of this version can divide by. */
  function Limit(version: nat): nat {
    if version < HOST_SPEC_V3 then 256 else 2046
  }

  /** The divider for a quotient `closest` of base clock and target: the least that divides by at least
      that much, among all dividers from version 3.00 on, among powers of two before. Beyond the limit a
      newer host gets its largest divider, an older one the undivided clock. */
  predicate Selected(version: nat, closest: nat, d: nat) {
    if version >= HOST_SPEC_V3 then
      if closest <= 2046 then 2 * d >= closest && forall e :: 0 <= e < d ==> 2 * e < closest
      else d == 0x3ff
    else
      if closest <= 256 then (exists i :: 0 <= i < 8 && d == Pow2(i)) && 2 * d >= closest && (d == 1 || d < closest)
      else d == 0
  }

  lemma PowersUpTo9(i: nat)
    requires i < 9
    ensures Pow2(i) == [1, 2, 4, 8, 16, 32, 64, 128, 256][i]
  {
    assert Pow2(4) == 16;
    if i > 4 { Pow2Add(4, i - 4); }
  }

  /** The field built from a divider of ten bits, or of eight before version 3.00. */
  lemma FieldHoldsDivider(low: nat, upper: nat)
    requires low < 0x100 && upper < 4
    ensures Or(low * 0x100, upper * 0x40) == low * 0x100 + upper * 0x40
    ensures DividerOf(low * 0x100 + upper * 0x40) == low + 0x100 * upper
    ensures low * 0x100 + upper * 0x40 < 0x1_0000 && (low * 0x100 + upper * 0x40) % 0x40 == 0
  {
    hide Or, Pow2;
    Pow2Word();
    OrDisjoint(upper * 0x40, low, 8);
    OrComm(low * 0x100, upper * 0x40);
  }

  method GetClockDivider(version: nat, baseClock: u32, target: u32) returns (field: u32)
    requires target != 0
    ensures field < 0x1_0000 && field % 0x40 == 0
    ensures Selected(version, baseClock / target, DividerOf(field))
    ensures field == DividerOf(field) % 0x100 * 0x100 + DividerOf(field) / 0x100 * 0x40 && DividerOf(field) <= 0x3ff
  {
    hide Selected, Pow2;
    var closest := baseClock / target;
    var divider: u32 := 0;
    if version < HOST_SPEC_V3 {
      divider := PowerOfTwoDivider(closest);
    } else {
      divider := EvenDivider(closest);
    }
    field := ComposeField(divider, version);
    FieldIsLaidOut(field);
    if version >= HOST_SPEC_V3 {
      TenBits(divider);
      SameForAllOf(HOST_SPEC_V3, version, closest, divider);
    } else {
      SameForAllOf(HOST_SPEC_V2, version, closest, divider % 0x100);
    }
  }

  /** A field of bits 15:6 is its divider's low byte in bits 15:8 and the two bits above in 7:6. */
  lemma FieldIsLaidOut(field: nat)
    requires field < 0x1_0000 && field % 0x40 == 0
    ensures field == DividerOf(field) % 0x100 * 0x100 + DividerOf(field) / 0x100 * 0x40 && DividerOf(field) <= 0x3ff
  {
  }

  lemma SameForAllOf(v: nat, version: nat, closest: nat, d: nat)
    requires v < HOST_SPEC_V3 <==> version < HOST_SPEC_V3
    ensures Selected(v, closest, d) == Selected(version, closest, d)
  {
  }

  method ComposeField(divider: u32, version: nat) returns (field: u32)
    ensures field < 0x1_0000 && field % 0x40 == 0
    ensures DividerOf(field) == divider % 0x100 + if version > HOST_SPEC_V2 then 0x100 * (divider / 0x100 % 4) else 0
  {
    hide Or, Pow2, DividerOf;
    var freqSelect, upperBits := divider % 0x100, 0;
    if version > HOST_SPEC_V2 {
      upperBits := divider / 0x100 % 4;
    }
    FieldHoldsDivider(freqSelect, upperBits);
    field := Or(freqSelect * 0x100, upperBits * 0x40);
  }

  lemma TenBits(divider: nat)
    requires divider <= 0x3ff
    ensures divider % 0x100 + 0x100 * (divider / 0x100 % 4) == divider
  {
  }

  /** Version 3.00: any even divisor. */
  method EvenDivider(closest: u32) returns (divider: u32)
    ensures divider <= 0x3ff && Selected(HOST_SPEC_V3, closest, divider)
  {
    divider := if closest % 2 == 0 then closest / 2 else closest / 2 + 1;
    if divider > 0x3ff {
      divider := 0x3ff;
    }
  }

  /** The loop of the older hosts: nine powers of two are tried; the last one is 256. */
  method PowerOfTwoDivider(closest: u32) returns (divider: u32)
    ensures closest <= 256 ==> exists i :: 0 <= i < 8 && divider == Pow2(i)
    ensures closest <= 256 ==> 2 * divider >= closest && (divider == 1 || divider < closest) && divider <= 128
    ensures closest > 256 ==> divider == 256
    ensures Selected(HOST_SPEC_V2, closest, divider % 0x100)
  {
    divider := 0;
    var i := 0;
    while i < 9
      invariant 0 <= i <= 9
      invariant i > 0 ==> divider == Pow2(i - 1) && 2 * divider < closest
    {
      PowersUpTo9(i);
      if i > 0 { PowersUpTo9(i - 1); }
      divider := Pow2(i);
      if 2 * divider >= closest { break; }
      i := i + 1;
    }
    if i == 9 { PowersUpTo9(8); }
  }

  /** The card's clock is less than one divider step too fast exactly when the quotient is within the
      host's limit: beyond it the largest divider, or on older hosts none at all, is installed. */
  lemma WithinOneStep(version: nat, baseClock: nat, target: nat, d: nat)
    requires target >= 1 && Selected(version, baseClock / target, d)
    ensures baseClock < (Divisor(d) + 1) * target <==> baseClock / target <= Limit(version)
  {
    var q, n := baseClock / target, Divisor(d);
    assert baseClock == target * q + baseClock % target;
    if q <= Limit(version) {
      NoLessThanQuotient(version, q, d);
      MulMono(q, n, target);
    } else {
      assert n + 1 <= q;
      MulMono(n + 1, q, target);
    }
  }

  /** The quotients that a divisor of this host version meets exactly: even ones, or the powers of two from
      2 to 256. A remainder is then lost. */
  predicate MetExactly(version: nat, quotient: nat) {
    if version >= HOST_SPEC_V3 then quotient > 0 && quotient % 2 == 0
    else quotient in {2, 4, 8, 16, 32, 64, 128, 256}
  }

  lemma ExactDivisor(version: nat, quotient: nat, d: nat)
    requires Selected(version, quotient, d) && quotient <= Limit(version)
    ensures Divisor(d) == quotient <==> MetExactly(version, quotient)
  {
    hide Pow2;
    if version >= HOST_SPEC_V3 {
      assert quotient % 2 == 0 ==> !(2 * (quotient / 2) < quotient);
    } else {
      var i :| 0 <= i < 8 && d == Pow2(i);
      PowersUpTo9(i);
      if MetExactly(version, quotient) { LeastPower(quotient, i); }
    }
  }

  lemma LeastPower(quotient: nat, i: nat)
    requires i < 8 && quotient in {2, 4, 8, 16, 32, 64, 128, 256}
    requires 2 * Pow2(i) >= quotient && (Pow2(i) == 1 || Pow2(i) < quotient)
    ensures 2 * Pow2(i) == quotient
  {
    PowersUpTo9(i);
  }

  /** The card's clock does not exceed the target exactly when the quotient of base clock and target is within
      the limit and leaves no remainder, or is not met exactly by a divisor, which is then larger. */
  lemma NotTooFast(version: nat, baseClock: nat, target: nat, d: nat)
    requires target >= 1 && Selected(version, baseClock / target, d)
    ensures baseClock <= Divisor(d) * target <==>
              baseClock / target <= Limit(version)
              && (baseClock % target == 0 || !MetExactly(version, baseClock / target))
  {
    hide Selected, MetExactly;
    var q, n := baseClock / target, Divisor(d);
    Remainder(baseClock, target);
    if q <= Limit(version) {
      NoLessThanQuotient(version, q, d);
      ExactDivisor(version, q, d);
    } else {
      SlowerBeyondLimit(version, q, d);
    }
    ReachesProduct(baseClock % target, target, q, n);
  }

  lemma SlowerBeyondLimit(version: nat, q: nat, d: nat)
    requires Selected(version, q, d) && q > Limit(version)
    ensures Divisor(d) < q
  {
  }

  /** With a base clock of 201 MHz the divisor is 8 and the operational clock 25.125 MHz, above the 25 MHz
      asked for. */
  lemma TooFastAt201MHz(d: nat)
    requires Selected(HOST_SPEC_V3, 201_000_000 / CLOCK_NORMAL, d)
    ensures Divisor(d) == 8 && 201_000_000 > Divisor(d) * CLOCK_NORMAL
  {
    hide Selected;
    assert 201_000_000 / CLOCK_NORMAL == 8;
    ExactDivisor(HOST_SPEC_V3, 8, d);
  }

  /** With the same base clock a host older than version 3.00 is not slowed down at all for identification:
      the quotient is 502, the loop ends with 256, and the field holds 0. */
  lemma UndividedOnOldHosts(d: nat)
    requires Selected(HOST_SPEC_V2, 201_000_000 / CLOCK_ID, d)
    ensures d == 0 && 201_000_000 > Divisor(d) * CLOCK_ID
  {
    assert 201_000_000 / CLOCK_ID == 502;
  }

  lemma Remainder(b: nat, t: nat)
    requires t >= 1
    ensures b == t * (b / t) + b % t && b % t < t
  {
  }

  lemma ReachesProduct(r: nat, t: nat, q: nat, n: nat)
    requires r < t
    ensures t * q + r <= n * t <==> n >= q && (r == 0 || n != q)
  {
    if n > q {
      MulMono(q + 1, n, t);
    } else if n < q {
      MulMono(n + 1, q, t);
    }
  }

  lemma NoLessThanQuotient(version: nat, q: nat, d: nat)
    requires Selected(version, q, d) && q <= Limit(version)
    ensures Divisor(d) >= q && (q == 0 ==> Divisor(d) >= 1)
  {
  }

  // ---------------------------------------------------------------- changing the clock

  /** The clock control register by its fields: bits 0, 1 and 2, the bits between them and the divider
      (4:3), the divider bits (15:5), and everything above. */
  datatype ClockCtrl = ClockCtrl(internalEnable: bool, stable: bool, sdEnable: bool, spare: nat, select: nat,
                                 upper: nat)

  // The masks that the register is changed with, by bits: stopping the clock clears bit 2, installing a divider
  // sets bit 0 and replaces bits 15:5, starting the clock sets bit 2, and no other bit changes.

  lemma StopByBits(word: bv32)
    ensures (word & 0xffff_fffb) & 0x4 == 0 && (word & 0xffff_fffb) & 0xffff_fffb == word & 0xffff_fffb
  {
  }

  lemma StartByBits(word: bv32)
    ensures (word | 0x4) & 0x4 == 0x4 && (word | 0x4) & 0xffff_fffb == word & 0xffff_fffb
  {
  }

  lemma InstallByBits(word: bv32, field: bv32)
    requires field & 0xffff_003f == 0
    ensures ((word & 0xffff_001f) | 0x1 | field) & 0x1 == 0x1
    ensures ((word & 0xffff_001f) | 0x1 | field) & 0xffe0 == field
    ensures ((word & 0xffff_001f) | 0x1 | field) & 0xffff_001e == word & 0xffff_001e
  {
  }

  datatype Access = Read(v: ClockCtrl) | Write(v: ClockCtrl)

  datatype Mode = CLOCK_INITIAL | CLOCK_OPERATIONAL

  /** What a bystander who checks the clock change sequence knows: the stored register, and whether the
      internal clock has been read as stable since the last write. */
  datatype Watch = OutOfSequence | Watch(stored: ClockCtrl, seenStable: bool)

  /** The divider may change only while the SD clock is off before and after the write; the SD clock may
      go on only after the internal clock was seen stable. */
  function Check(w: Watch, a: Access): Watch {
    match w
    case OutOfSequence => w
    case Watch(stored, seenStable) =>
      match a
      case Read(v) => Watch(stored, seenStable || v.stable)
      case Write(v) =>
        if v.select != stored.select && (stored.sdEnable || v.sdEnable) then OutOfSequence
        else if v.sdEnable && !stored.sdEnable && !seenStable then OutOfSequence
        else Watch(v, false)
  }

  function CheckAll(w: Watch, trace: seq<Access>): Watch {
    if trace == [] then w else Check(CheckAll(w, trace[..|trace| - 1]), trace[|trace| - 1])
  }

  predicate InSequence(stored: ClockCtrl, trace: seq<Access>) {
    CheckAll(Watch(stored, false), trace).Watch?
  }

  lemma CheckSnoc(w: Watch, trace: seq<Access>, n: nat)
    requires n < |trace|
    ensures CheckAll(w, trace[n..]) == Check(CheckAll(w, trace[n..|trace| - 1]), trace[|trace| - 1])
  {
    assert trace[n..][..|trace[n..]| - 1] == trace[n..|trace| - 1];
  }

  /** The clock registers of a controller. Each read of the control register finds the internal clock
      stable or not as the hardware decides; after the recorded readings it stays stable. */
  class ClockRegs {
    const version: nat
    var ctrl: ClockCtrl
    var readings: seq<bool>
    var trace: seq<Access>

    constructor (version: nat, ctrl: ClockCtrl, readings: seq<bool>)
      ensures this.version == version && this.ctrl == ctrl && this.readings == readings && trace == []
    {
      this.version, this.ctrl, this.readings, trace := version, ctrl, readings, [];
    }

    method ReadCtrl(ghost w: Watch, ghost n: nat) returns (v: ClockCtrl)
      requires n <= |trace|
      modifies this
      ensures v == ctrl && v == old(ctrl).(stable := v.stable)
      ensures trace == old(trace) + [Read(v)]
      ensures CheckAll(w, trace[n..]) == Check(CheckAll(w, old(trace)[n..]), Read(v))
      ensures old(readings) != [] ==> readings == old(readings)[1..] && v.stable == old(readings)[0]
      ensures old(readings) == [] ==> readings == [] && v.stable
    {
      if readings == [] {
        ctrl := ctrl.(stable := true);
      } else {
        ctrl := ctrl.(stable := readings[0]);
        readings := readings[1..];
      }
      v := ctrl;
      trace := trace + [Read(v)];
      CheckSnoc(w, trace, n);
      assert trace[n..|trace| - 1] == old(trace)[n..];
    }

    method WriteCtrl(v: ClockCtrl, ghost w: Watch, ghost n: nat)
      requires n <= |trace|
      modifies this
      ensures ctrl == v && trace == old(trace) + [Write(v)] && readings == old(readings)
      ensures CheckAll(w, trace[n..]) == Check(CheckAll(w, old(trace)[n..]), Write(v))
    {
      ctrl := v;
      trace := trace + [Write(v)];
      CheckSnoc(w, trace, n);
      assert trace[n..|trace| - 1] == old(trace)[n..];
    }

    /** Poll the control register until the internal clock is stable. */
    method WaitUntilStable(ghost w: Watch, ghost n: nat)
      requires n <= |trace| && CheckAll(w, trace[n..]) == Watch(ctrl, false)
      modifies this
      ensures ctrl == old(ctrl).(stable := true) && old(trace) <= trace
      ensures CheckAll(w, trace[n..]) == Watch(old(ctrl), true)
    {
      hide CheckAll;
      ghost var installed := ctrl;
      var control := ReadCtrl(w, n);
      while !control.stable
        invariant old(trace) <= trace && ctrl == control == installed.(stable := ctrl.stable)
        invariant CheckAll(w, trace[n..]) == Watch(installed, control.stable)
        decreases |readings|, !control.stable
      {
        control := ReadCtrl(w, n);
      }
    }

    /** Set the SD clock for a mode: the divider selected for the mode's frequency ends up installed, the
        SD clock on, the other fields as they were, and every access was in sequence. */
    method SetClock(mode: Mode, baseClock: u32)
      modifies this
      ensures
        var target := if mode == CLOCK_INITIAL then CLOCK_ID else CLOCK_NORMAL;
        Selected(version, baseClock / target, DividerOf(ctrl.select)) && ctrl.select < 0x1_0000
          && ctrl.select % 0x40 == 0
      ensures ctrl == old(ctrl).(internalEnable := true, stable := ctrl.stable, sdEnable := true, select := ctrl.select)
      ensures old(trace) <= trace && InSequence(old(ctrl), trace[|old(trace)|..])
    {
      hide Selected, CheckAll, DividerOf;
      ghost var w, n := Watch(ctrl, false), |trace|;
      CheckNothing(w, trace);
      var control := ReadCtrl(w, n);
      if control.sdEnable {
        control := ReadCtrl(w, n);
        WriteCtrl(control.(sdEnable := false), w, n);
      }
      var divider := GetClockDivider(version, baseClock, if mode == CLOCK_INITIAL then CLOCK_ID else CLOCK_NORMAL);
      control := ReadCtrl(w, n);
      WriteCtrl(control.(internalEnable := true, select := divider), w, n);
      WaitUntilStable(w, n);
      control := ReadCtrl(w, n);
      WriteCtrl(control.(sdEnable := true), w, n);
    }
  }

  lemma CheckNothing(w: Watch, trace: seq<Access>)
    ensures CheckAll(w, trace[|trace|..]) == w
  {
  }
}
