/**
 The card's 128-bit registers: the realignment of a long response, bit slices, and the capacity the
 card-specific data (CSD) register declares.
 */
module CardRegisters {
  import opened Base
  import HostModel
  import opened WordBits

  /** The number a little-endian sequence of words stands for. */
  function Value(ws: seq<u32>): nat {
    if ws == [] then 0 else ws[0] + 0x1_0000_0000 * Value(ws[1..])
  }

  // ---------------------------------------------------------------- bit slices

  /** `size` bits from bit `start` on. Callers ask for at least one bit and stay inside the register; a zero
      size is treated as 32. */
  function SliceBits(val: seq<u32>, start: nat, size: nat): u32
    requires size <= 32 && start + (if size == 0 then 32 else size) <= 32 * |val|
  {
    var idx, low, high := start / 32, start % 32, (start + size) % 32;
    if high == 0 && low == 0 then val[idx]
    else if high == 0 then Shr(val[idx], low)
    else if high > low then Shr(LowBits(val[idx], high), low)
    else
      var r := Or(Shr(val[idx], low), Shl(LowBits(val[idx + 1], high), 32 - low));
      SliceCrossing(val[idx], val[idx + 1], low, high);
      r
  }

  /** A slice that crosses a word boundary: the two parts do not overlap and fit a word. */
  lemma SliceCrossing(w: u32, u: u32, low: nat, high: nat)
    requires 0 < high <= low < 32
    ensures Or(Shr(w, low), Shl(LowBits(u, high), 32 - low)) == w / Pow2(low) + Pow2(32 - low) * (u % Pow2(high))
    ensures w / Pow2(low) + Pow2(32 - low) * (u % Pow2(high)) < 0x1_0000_0000
  {
    hide Pow2, Or;
    var a, p := Pow2(low), Pow2(32 - low);
    var h := u % Pow2(high);
    Pow2Word();
    Pow2Add(low, 32 - low);
    Pow2Add(high, low - high);
    QuotientBound(w, a, p);
    UpperPartFits(p, Pow2(high), Pow2(low - high), h);
    SmallMod(h * p, 0x1_0000_0000);
    OrDisjoint(w / a, h, 32 - low);
    assert Shr(w, low) == w / a && LowBits(u, high) == h && Shl(h, 32 - low) == h * p;
  }

  lemma UpperPartFits(p: nat, m: nat, c: nat, h: nat)
    requires h < m && c >= 1 && (m * c) * p == 0x1_0000_0000
    ensures h * p == p * h && p * h + p <= 0x1_0000_0000
  {
    MulMono(1, c, m);
    MulMono(h + 1, m * c, p);
  }

  lemma QuotientBound(x: nat, a: nat, b: nat)
    requires a >= 1 && x < a * b
    ensures x / a < b
  {
    assert x == a * (x / a) + x % a;
    if x / a >= b {
      MulMono(b, x / a, a);
    }
  }

  lemma {:induction false} ValueDrop(ws: seq<u32>, i: nat)
    requires i <= |ws|
    ensures Value(ws) / Pow2(32 * i) == Value(ws[i..])
  {
    if i == 0 {
      assert ws[0..] == ws;
    } else {
      var v := Value(ws[1..]);
      ValueDrop(ws[1..], i - 1);
      assert ws[1..][i - 1..] == ws[i..];
      Pow2Word();
      Pow2Add(32, 32 * (i - 1));
      AddMulDiv(ws[0], 0x1_0000_0000, v);
      Nested(Value(ws), 0x1_0000_0000, Pow2(32 * (i - 1)));
    }
  }

  /** A slice is the register divided by 2^start, modulo 2^size, word boundaries or not. */
  lemma SliceIsQuotient(val: seq<u32>, start: nat, size: nat)
    requires size <= 32 && start + (if size == 0 then 32 else size) <= 32 * |val|
    ensures SliceBits(val, start, size) == Value(val) / Pow2(start) % Pow2(if size == 0 then 32 else size)
  {
    hide Pow2, Or, Value, SliceBits, Shl, Shr, LowBits;
    var n := if size == 0 then 32 else size;
    var idx, low := start / 32, start % 32;
    SliceCases(val, start, size);
    ShiftedValue(val, idx, low);
    if low + n <= 32 {
      SliceInWord(val[idx], Value(val[idx + 1..]), low, n);
    } else {
      SliceOverTwo(val, idx, low, n);
    }
  }

  lemma SliceOverTwo(val: seq<u32>, idx: nat, low: nat, n: nat)
    requires low < 32 < low + n && n <= 32 && idx + 1 < |val|
    ensures Or(Shr(val[idx], low), Shl(LowBits(val[idx + 1], low + n - 32), 32 - low))
            == (val[idx] / Pow2(low) + Pow2(32 - low) * Value(val[idx + 1..])) % Pow2(n)
  {
    hide Pow2, Or, Value;
    NextWord(val, idx + 1);
    SliceAcross(val[idx], val[idx + 1], Value(val[idx + 2..]), low, n);
    SliceCrossing(val[idx], val[idx + 1], low, low + n - 32);
  }

  lemma NextWord(val: seq<u32>, i: nat)
    requires i < |val|
    ensures Value(val[i..]) == val[i] + 0x1_0000_0000 * Value(val[i + 1..])
  {
    assert val[i..][1..] == val[i + 1..];
  }

  /** The branches of the code, by where the slice ends. */
  lemma SliceCases(val: seq<u32>, start: nat, size: nat)
    requires size <= 32 && start + (if size == 0 then 32 else size) <= 32 * |val|
    ensures
      var idx, low := start / 32, start % 32;
      var end := low + if size == 0 then 32 else size;
      SliceBits(val, start, size) ==
        if end < 32 then Shr(LowBits(val[idx], end), low)
        else if end == 32 then Shr(val[idx], low)
        else Or(Shr(val[idx], low), Shl(LowBits(val[idx + 1], end - 32), 32 - low))
  {
    hide Pow2, Or;
    EndOfSlice(start, size, if size == 0 then 32 else size);
    assert Shr(val[start / 32], 0) == val[start / 32] by { PowZero(); }
  }

  lemma PowZero()
    ensures Pow2(0) == 1
  {
  }

  lemma EndOfSlice(start: nat, size: nat, n: nat)
    requires size <= 32 && n == if size == 0 then 32 else size
    ensures (start + size) % 32 == if start % 32 + n < 32 then start % 32 + n
                                   else if start % 32 + n == 32 then 0 else start % 32 + n - 32
  {
  }

  /** The register shifted right: what is left of the word, and the words above it. */
  lemma ShiftedValue(val: seq<u32>, idx: nat, low: nat)
    requires idx < |val| && low < 32
    ensures Value(val) / Pow2(32 * idx + low) == val[idx] / Pow2(low) + Pow2(32 - low) * Value(val[idx + 1..])
  {
    hide Pow2;
    var w, upper := val[idx], Value(val[idx + 1..]);
    assert val[idx..][1..] == val[idx + 1..];
    Pow2Word();
    Pow2Add(32 * idx, low);
    ValueDrop(val, idx);
    Nested(Value(val), Pow2(32 * idx), Pow2(low));
    Pow2Add(low, 32 - low);
    MulAssoc(Pow2(low), Pow2(32 - low), upper);
    AddMulDiv(w, Pow2(low), Pow2(32 - low) * upper);
  }

  lemma MulAssoc(a: nat, b: nat, c: nat)
    ensures a * b * c == a * (b * c)
  {
  }

  lemma SliceInWord(w: u32, upper: nat, low: nat, n: nat)
    requires 1 <= n && low + n <= 32
    ensures (w / Pow2(low) + Pow2(32 - low) * upper) % Pow2(n)
         == if low + n == 32 then Shr(w, low) else Shr(LowBits(w, low + n), low)
  {
    hide Pow2;
    Pow2Word();
    Pow2Add(n, 32 - low - n);
    Pow2Add(low, n);
    MulAssoc(Pow2(n), Pow2(32 - low - n), upper);
    AddMulDiv(w / Pow2(low), Pow2(n), Pow2(32 - low - n) * upper);
    ModDiv(w, Pow2(low), Pow2(n));
    if low + n == 32 {
      SmallMod(w, 0x1_0000_0000);
    }
  }

  lemma SmallMod(x: nat, m: nat)
    requires x < m
    ensures x % m == x
  {
  }

  lemma SliceAcross(w: u32, u: u32, rest: nat, low: nat, n: nat)
    requires low < 32 < low + n && n <= 32
    ensures (w / Pow2(low) + Pow2(32 - low) * (u + 0x1_0000_0000 * rest)) % Pow2(n)
         == w / Pow2(low) + Pow2(32 - low) * (u % Pow2(low + n - 32))
  {
    hide Pow2;
    var high := low + n - 32;
    Pow2Word();
    Pow2Add(low, 32 - low);
    Pow2Add(32 - low, high);
    Pow2Add(high, 32 - high);
    QuotientBound(w, Pow2(low), Pow2(32 - low));
    SplitMod(w / Pow2(low), Pow2(32 - low), u + 0x1_0000_0000 * rest, Pow2(high));
    MulAssoc(Pow2(high), Pow2(32 - high), rest);
    AddMulDiv(u, Pow2(high), Pow2(32 - high) * rest);
  }

  // ---------------------------------------------------------------- realignment

  /** `x | y` where `x` has its low byte clear and `y` is a byte. */
  function OrWord(x: u32, y: u32): u32
    requires x % 0x100 == 0 && y < 0x100
  {
    OrByte(x, y);
    Or(x, y)
  }

  lemma OrByte(x: u32, y: u32)
    requires x % 0x100 == 0 && y < 0x100
    ensures Or(x, y) == x + y < 0x1_0000_0000
  {
    hide Or, Pow2;
    Pow2Word();
    OrDisjoint(y, x / 0x100, 8);
    OrComm(x, y);
  }

  lemma ShiftByte(w: u32)
    ensures Shl(w, 8) == w % 0x100_0000 * 0x100 && Shr(w, 24) == w / 0x100_0000 < 0x100
  {
    hide Pow2;
    Pow2Word();
    Pow2Add(8, 8);
    Pow2Add(16, 8);
  }

  /** A word shifted left by a byte, the top byte of the word below moving in. */
  method ShiftIn(w: u32, below: u32) returns (r: u32)
    ensures r == w % 0x100_0000 * 0x100 + below / 0x100_0000
  {
    hide Or, Pow2, Shl, Shr;
    ShiftByte(w);
    ShiftByte(below);
    OrByte(Shl(w, 8), Shr(below, 24));
    r := OrWord(Shl(w, 8), Shr(below, 24));
  }

  /** The controller strips the checksum byte off a long response; shifting it back in, word by word
      from the top, restores the card's numbering of the bits: the register is the response times 256,
      in 128 bits. */
  method Realign(raw: HostModel.Response) returns (r: HostModel.Response)
    ensures Value(r) == Value(raw) * 0x100 % Pow2(128)
  {
    r := raw;
    var w := ShiftIn(r[3], r[2]);
    r := r[3 := w];
    w := ShiftIn(r[2], r[1]);
    r := r[2 := w];
    w := ShiftIn(r[1], r[0]);
    r := r[1 := w];
    ShiftByte(r[0]);
    r := r[0 := Shl(r[0], 8)];
    BytesMoveUp(raw, r);
  }

  lemma BytesMoveUp(raw: HostModel.Response, r: HostModel.Response)
    requires r[0] == raw[0] % 0x100_0000 * 0x100
    requires r[1] == raw[1] % 0x100_0000 * 0x100 + raw[0] / 0x100_0000
    requires r[2] == raw[2] % 0x100_0000 * 0x100 + raw[1] / 0x100_0000
    requires r[3] == raw[3] % 0x100_0000 * 0x100 + raw[2] / 0x100_0000
    ensures Value(r) == Value(raw) * 0x100 % Pow2(128)
  {
    hide Pow2, Value;
    FourWords(raw);
    FourWords(r);
    Pow2Word();
    Pow2Add(32, 32);
    Pow2Add(64, 64);
    var h0: int, h1: int, h2: int, h3: int :=
      raw[0] / 0x100_0000, raw[1] / 0x100_0000, raw[2] / 0x100_0000, raw[3] / 0x100_0000;
    var l0: int, l1: int, l2: int, l3: int :=
      raw[0] % 0x100_0000, raw[1] % 0x100_0000, raw[2] % 0x100_0000, raw[3] % 0x100_0000;
    assert raw[0] as int == l0 + 0x100_0000 * h0 && raw[1] as int == l1 + 0x100_0000 * h1;
    assert raw[2] as int == l2 + 0x100_0000 * h2 && raw[3] as int == l3 + 0x100_0000 * h3;
    CarryBytes(l0, l1, l2, l3, h0, h1, h2, h3);
    assert Value(raw) == (l0 + 0x100_0000 * h0) + WORD * ((l1 + 0x100_0000 * h1)
      + WORD * ((l2 + 0x100_0000 * h2) + WORD * (l3 + 0x100_0000 * h3)));
    assert Value(r) == l0 * 0x100 + WORD * ((l1 * 0x100 + h0) + WORD * ((l2 * 0x100 + h1) + WORD * (l3 * 0x100 + h2)));
    assert Pow2(128) == 0x1_0000_0000_0000_0000_0000_0000_0000_0000;
    DivModUnique(Value(raw) * 0x100, Pow2(128), h3, Value(r));
  }

  const WORD := 0x1_0000_0000

  lemma CarryBytes(l0: int, l1: int, l2: int, l3: int, h0: int, h1: int, h2: int, h3: int)
    ensures
      ((l0 + 0x100_0000 * h0) + WORD * ((l1 + 0x100_0000 * h1) + WORD * ((l2 + 0x100_0000 * h2)
        + WORD * (l3 + 0x100_0000 * h3)))) * 0x100
      == 0x1_0000_0000_0000_0000_0000_0000_0000_0000 * h3
         + (l0 * 0x100 + WORD * ((l1 * 0x100 + h0) + WORD * ((l2 * 0x100 + h1) + WORD * (l3 * 0x100 + h2))))
  {
  }

  lemma FourWords(r: HostModel.Response)
    ensures
      var r0: int, r1: int, r2: int, r3: int := r[0], r[1], r[2], r[3];
      Value(r) == r0 + WORD * (r1 + WORD * (r2 + WORD * r3)) < 0x1_0000_0000_0000_0000_0000_0000_0000_0000
  {
    var r0: int, r1: int, r2: int, r3: int := r[0], r[1], r[2], r[3];
    assert r[1..][1..][1..][1..] == [];
    assert r[1..][1..][1..][0] == r[3] && r[1..][1..][0] == r[2];
    assert Value(r[1..][1..][1..]) == r3;
    assert Value(r[1..][1..]) == r2 + WORD * r3;
  }

  // ---------------------------------------------------------------- card-specific data

  datatype Csd = Csd(structure: u32, tranSpeed: u32, readBlLen: u32, cSize: u32, cSizeMult: u32)

  /** `None` is the error return: no card, or an unknown CSD structure. */
  function DecodeCsd(rawCsd: Option<HostModel.Response>): Option<Csd> {
    if rawCsd.None? then None
    else
      var raw := rawCsd.value;
      var structure := SliceBits(raw, 126, 2);
      if structure == 0 then
        Some(Csd(structure, SliceBits(raw, 96, 8), SliceBits(raw, 80, 4), SliceBits(raw, 62, 12),
                 SliceBits(raw, 47, 3)))
      else if structure == 1 then
        Some(Csd(structure, SliceBits(raw, 96, 8), SliceBits(raw, 80, 4), SliceBits(raw, 48, 22), 0))
      else None
  }

  /** The card's capacity in bytes, or -1. */
  function CardCapacity(rawCsd: Option<HostModel.Response>): int {
    match DecodeCsd(rawCsd)
    case None => -1
    case Some(csd) =>
      if csd.structure == 0 then (csd.cSize + 1) * Pow2(csd.cSizeMult + 2) * Pow2(csd.readBlLen)
      else (csd.cSize + 1) * 512 * 1024
  }

  /** Field `[start + size - 1 : start]` of the card's register, read off the response as the
      controller delivers it (bits 127 to 8). */
  function Field(response: nat, start: nat, size: nat): nat
    requires start >= 8
  {
    response / Pow2(start - 8) % Pow2(size)
  }

  /** Sections 5.3.2 and 5.3.3 of the SD Physical Layer Simplified Specification. */
  function DeclaredCapacity(response: nat): int {
    var structure := Field(response, 126, 2);
    if structure == 0 then
      var blockNr := (Field(response, 62, 12) + 1) * Pow2(Field(response, 47, 3) + 2);
      var blockLen := Pow2(Field(response, 80, 4));
      blockNr * blockLen
    else if structure == 1 then (Field(response, 48, 22) + 1) * (512 * 1024)
    else -1
  }

  /** A slice of the realigned register is the field of the delivered response. */
  lemma SliceIsField(raw: HostModel.Response, r: HostModel.Response, start: nat, size: nat)
    requires Value(r) == Value(raw) * 0x100 % Pow2(128)
    requires 8 <= start && 1 <= size <= 32 && start + size <= 128
    ensures SliceBits(r, start, size) == Field(Value(raw), start, size)
  {
    hide Pow2, SliceBits, Value;
    SliceIsQuotient(r, start, size);
    ShiftedRegister(Value(raw), start, size);
  }

  lemma ShiftedRegister(v: nat, start: nat, size: nat)
    requires 8 <= start && 1 <= size && start + size <= 128
    ensures v * 0x100 % Pow2(128) / Pow2(start) % Pow2(size) == v / Pow2(start - 8) % Pow2(size)
  {
    hide Pow2;
    Pow2Word();
    Pow2Add(start, 128 - start);
    Pow2Add(8, start - 8);
    Pow2Add(size, 128 - start - size);
    QuotientOfShifted(v, Pow2(start - 8), Pow2(size), Pow2(128 - start - size));
  }

  lemma QuotientOfShifted(v: nat, q: nat, m: nat, k: nat)
    requires q >= 1 && m >= 1 && k >= 1
    ensures 0x100 * q >= 1 && m * k >= 1 && (0x100 * q) * (m * k) >= 1
    ensures v * 0x100 % ((0x100 * q) * (m * k)) / (0x100 * q) % m == v / q % m
  {
    MulBounds(1, 1, m, k);
    MulBounds(1, 1, 0x100 * q, m * k);
    ModDiv(v * 0x100, 0x100 * q, m * k);
    Nested(v * 0x100, 0x100, q);
    DivModUnique(v * 0x100, 0x100, v, 0);
    ModMod(v / q, m, k);
  }

  lemma ModMod(x: nat, a: nat, b: nat)
    requires a >= 1 && b >= 1
    ensures a * b >= 1 && x % (a * b) % a == x % a
  {
    Nested(x, a, b);
    AddMulDiv(x % a, a, (x / a) % b);
    SmallMod(x % a, a);
  }

  /** Every field of the decoded register is the one the specification places there. */
  lemma CsdIsDecoded(raw: HostModel.Response, r: HostModel.Response)
    requires Value(r) == Value(raw) * 0x100 % Pow2(128)
    ensures
      var csd, v := DecodeCsd(Some(r)), Value(raw);
      && (csd.Some? <==> Field(v, 126, 2) == 0 || Field(v, 126, 2) == 1)
      && (csd.Some? ==>
            && csd.value.structure == Field(v, 126, 2) && csd.value.tranSpeed == Field(v, 96, 8)
            && csd.value.readBlLen == Field(v, 80, 4)
            && csd.value.cSize == (if csd.value.structure == 0 then Field(v, 62, 12) else Field(v, 48, 22))
            && csd.value.cSizeMult == (if csd.value.structure == 0 then Field(v, 47, 3) else 0))
  {
    hide Pow2, SliceBits, Field, Value;
    SliceIsField(raw, r, 126, 2);
    SliceIsField(raw, r, 96, 8);
    SliceIsField(raw, r, 62, 12);
    SliceIsField(raw, r, 47, 3);
    SliceIsField(raw, r, 80, 4);
    SliceIsField(raw, r, 48, 22);
  }

  /** From the response on the wire to the capacity in bytes: realigning, slicing and the arithmetic
      compose to the capacity the card declares, and it stays far below 2^63. */
  lemma CapacityIsDeclared(raw: HostModel.Response, r: HostModel.Response)
    requires Value(r) == Value(raw) * 0x100 % Pow2(128)
    ensures CardCapacity(Some(r)) == DeclaredCapacity(Value(raw))
  {
    hide Pow2, SliceBits, Field, Value;
    SliceIsField(raw, r, 126, 2);
    SliceIsField(raw, r, 62, 12);
    SliceIsField(raw, r, 47, 3);
    SliceIsField(raw, r, 80, 4);
    SliceIsField(raw, r, 48, 22);
  }

  lemma SliceBound(val: HostModel.Response, start: nat, size: nat)
    requires 1 <= size <= 32 && start + size <= 128
    ensures SliceBits(val, start, size) < Pow2(size)
  {
    hide Pow2, SliceBits, Value;
    SliceIsQuotient(val, start, size);
  }

  lemma SmallPowers()
    ensures Pow2(2) == 4 && Pow2(3) == 8 && Pow2(4) == 16 && Pow2(9) == 512 && Pow2(11) == 2048 && Pow2(12) == 4096
    ensures Pow2(15) == 0x8000 && Pow2(22) == 0x40_0000
  {
    Pow2Word();
    Pow2Add(8, 3);
    Pow2Add(11, 11);
  }

  /** What a decoded capacity can be: no overflow of 64 bits, and for the cards the driver addresses by
      byte (512 to 2048 byte blocks) at most 2^32. */
  lemma CapacityBounds(r: HostModel.Response)
    ensures
      var capacity := CardCapacity(Some(r));
      match DecodeCsd(Some(r))
      case None => capacity == -1
      case Some(csd) =>
        if csd.structure == 1 then 0x8_0000 <= capacity <= 0x200_0000_0000 && capacity % 512 == 0
        else
          && 4 <= capacity <= 0x10_0000_0000
          && (9 <= csd.readBlLen <= 11 ==> capacity <= 0x1_0000_0000)
  {
    hide Pow2, SliceBits;
    SmallPowers();
    SliceBound(r, 80, 4);
    SliceBound(r, 62, 12);
    SliceBound(r, 47, 3);
    SliceBound(r, 48, 22);
    if SliceBits(r, 126, 2) == 0 {
      V1Bounds(SliceBits(r, 62, 12), SliceBits(r, 47, 3), SliceBits(r, 80, 4));
    }
  }

  lemma V1Bounds(c: nat, m: nat, b: nat)
    requires c < 4096 && m < 8 && b < 16
    ensures 4 <= (c + 1) * Pow2(m + 2) * Pow2(b) <= 0x10_0000_0000
    ensures b <= 11 ==> (c + 1) * Pow2(m + 2) * Pow2(b) <= 0x1_0000_0000
  {
    hide Pow2;
    SmallPowers();
    Pow2Mono(2, m + 2);
    Pow2Mono(m + 2, 9);
    Pow2Mono(b, 15);
    if b <= 11 { Pow2Mono(b, 11); }
    MulBounds(c + 1, Pow2(m + 2), 4096, 512);
    MulBounds((c + 1) * Pow2(m + 2), Pow2(b), 4096 * 512, if b <= 11 then 2048 else 0x8000);
    MulMono(4, Pow2(m + 2), c + 1);
    MulMono(1, Pow2(b), (c + 1) * Pow2(m + 2));
  }
}
