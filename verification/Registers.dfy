/**
 The controller's registers: bit assignments, and the words the driver composes from a command.
 */
module Registers {
  import opened Base
  import WordBits

  datatype RspType = NONE | R1 | R1b | R2 | R3 | R4 | R5 | R5b | R6

  /** A data segment; address 0 is the null pointer. */
  datatype Data = Data(vbuf: nat, pbuf: u64, dataAddr: u32, blockSize: u32, blocks: u32)

  const STOP_TRANSMISSION: bv32 := 12
  const READ_SINGLE_BLOCK: bv32 := 17
  const WRITE_BLOCK: bv32 := 24

  const DMAE: bv32 := 0x1000_0000
  const ADMAE: bv32 := 0x0200_0000
  const AC12E: bv32 := 0x0100_0000
  const OVRCURE: bv32 := 0x0080_0000
  const DEBE: bv32 := 0x0040_0000
  const DCE: bv32 := 0x0020_0000
  const DTOE: bv32 := 0x0010_0000
  const CIE: bv32 := 0x0008_0000
  const CEBE: bv32 := 0x0004_0000
  const CCE: bv32 := 0x0002_0000
  const CTOE: bv32 := 0x0001_0000
  const ERR: bv32 := 0x0000_8000
  const CRM: bv32 := 0x0000_0080
  const CINS: bv32 := 0x0000_0040
  const BRR: bv32 := 0x0000_0020
  const BWR: bv32 := 0x0000_0010
  const TC: bv32 := 0x0000_0002
  const CC: bv32 := 0x0000_0001

  const CMDINX_MASK: bv32 := 0x3f
  const CMDTYP_BITS: bv32 := 0x00c0_0000
  const DPSEL: bv32 := 0x0020_0000
  const CICEN: bv32 := 0x0010_0000
  const CCCEN: bv32 := 0x0008_0000
  const RSPTYP_BITS: bv32 := 0x0003_0000
  const MSBSEL: bv32 := 0x20
  const DTDSEL: bv32 := 0x10
  const BCEN: bv32 := 0x02
  const DMAEN: bv32 := 0x01

  predicate Has(status: bv32, bits: bv32) {
    status & bits != 0
  }

  /** The controller performs the transfer itself iff a physical buffer is given. */
  predicate UsesDma(data: Option<Data>) {
    data.Some? && data.value.pbuf != 0
  }

  function EnabledInterrupts(data: Option<Data>): bv32 {
    0x02ff_00c3 | (if UsesDma(data) then 0 else BRR | BWR)
  }

  function TransferMode(index: bv32, d: Data): bv32 {
    BCEN
    | (if d.blocks > 1 then MSBSEL else 0)
    | (if index == READ_SINGLE_BLOCK then DTDSEL else 0)
    | (if d.pbuf != 0 then DMAEN else 0)
  }

  function ResponseBits(rsp: RspType): bv32 {
    match rsp
    case NONE => 0
    case R2 => 0x0001_0000 | CCCEN
    case R3 | R4 => 0x0002_0000
    case R1 | R5 | R6 => 0x0002_0000 | CICEN | CCCEN
    case R1b | R5b => 0x0003_0000 | CICEN | CCCEN
  }

  function IndexField(index: bv32): bv32 {
    (index & CMDINX_MASK) << 24
  }

  function XfrTyp(index: bv32, rsp: RspType, data: Option<Data>): bv32 {
    if data.None? then IndexField(index) | ResponseBits(rsp)
    else IndexField(index) | TransferMode(index, data.value) | ResponseBits(rsp) | DPSEL
  }

  // The fields of a transfer type word (section 2.2.6 of the SD Host Controller Simplified Specification 3.00).

  function IndexOf(xfrTyp: bv32): bv32 {
    (xfrTyp >> 24) & CMDINX_MASK
  }

  datatype Length = NoResponse | Long | Short | ShortBusy

  function LengthOf(xfrTyp: bv32): Length {
    match xfrTyp & RSPTYP_BITS
    case 0 => NoResponse
    case 0x0001_0000 => Long
    case 0x0002_0000 => Short
    case _ => ShortBusy
  }

  /** What a response type calls for: its length, whether its checksum and its index are checked. */
  lemma ResponseTypeIsEncoded(rsp: RspType)
    ensures
      var v := ResponseBits(rsp);
      && LengthOf(v) == (match rsp case NONE => NoResponse case R2 => Long case R1b | R5b => ShortBusy case _ => Short)
      && (Has(v, CCCEN) <==> rsp !in {NONE, R3, R4})
      && (Has(v, CICEN) <==> rsp in {R1, R1b, R5, R5b, R6})
      && v & 0xffe4_ffff == 0
  {
  }

  /** The transfer mode: one bit for each thing it says, and no other. */
  lemma TransferModeIsEncoded(index: bv32, d: Data)
    ensures
      var v := TransferMode(index, d);
      && (Has(v, MSBSEL) <==> d.blocks > 1) && (Has(v, DTDSEL) <==> index == READ_SINGLE_BLOCK)
      && (Has(v, DMAEN) <==> d.pbuf != 0) && Has(v, BCEN) && v & 0xffff_ffcc == 0
  {
  }

  /** Fields that do not overlap are read back from their union. */
  lemma FieldsApart(index: bv32, mode: bv32, rsp: bv32, present: bv32)
    requires mode & 0xffff_ffcc == 0 && rsp & 0xffe4_ffff == 0 && present & !DPSEL == 0
    ensures
      var v := FourParts(IndexField(index), mode, rsp, present);
      && IndexOf(v) == index & CMDINX_MASK && v & 0xc0c4_ffcc == 0 && LengthOf(v) == LengthOf(rsp)
      && (Has(v, CCCEN) <==> Has(rsp, CCCEN)) && (Has(v, CICEN) <==> Has(rsp, CICEN))
      && (Has(v, MSBSEL) <==> Has(mode, MSBSEL)) && (Has(v, DTDSEL) <==> Has(mode, DTDSEL))
      && (Has(v, DMAEN) <==> Has(mode, DMAEN)) && (Has(v, BCEN) <==> Has(mode, BCEN))
      && (Has(v, DPSEL) <==> Has(present, DPSEL))
  {
  }

  /** The word that starts a command says all of it and nothing else: decoding gives back the index, the
      response expected, the presence and direction of data, single or multiple blocks, DMA or not. */
  lemma TransferTypeIsDecodable(index: bv32, rsp: RspType, data: Option<Data>)
    ensures
      var v := XfrTyp(index, rsp, data);
      && IndexOf(v) == index & CMDINX_MASK
      && LengthOf(v) == (match rsp case NONE => NoResponse case R2 => Long case R1b | R5b => ShortBusy case _ => Short)
      && (Has(v, CCCEN) <==> rsp !in {NONE, R3, R4}) && (Has(v, CICEN) <==> rsp in {R1, R1b, R5, R5b, R6})
      && (Has(v, DPSEL) <==> data.Some?) && (Has(v, BCEN) <==> data.Some?) && (Has(v, DMAEN) <==> UsesDma(data))
      && (Has(v, DTDSEL) <==> data.Some? && index == READ_SINGLE_BLOCK)
      && (Has(v, MSBSEL) <==> data.Some? && data.value.blocks > 1)
      && v & 0xc0c4_ffcc == 0
  {
    hide ResponseBits, IndexField, TransferMode, IndexOf, Has, LengthOf, XfrTyp, FourParts;
    ResponseTypeIsEncoded(rsp);
    TransferTypeParts(index, rsp, data);
    var mode, present := if data.None? then 0 else TransferMode(index, data.value), if data.None? then 0 else DPSEL;
    NoBits();
    if data.Some? { TransferModeIsEncoded(index, data.value); }
    FieldsApart(index, mode, ResponseBits(rsp), present);
  }

  /** The words of the commands this driver sends. */
  lemma WordsOfCommands(read: Data, write: Data)
    requires read.blocks == 1 && read.pbuf == 0 && write.blocks == 1 && write.pbuf == 0
    ensures XfrTyp(17, R1, Some(read)) == 0x113a_0012 && XfrTyp(24, R1, Some(write)) == 0x183a_0002
    ensures XfrTyp(0, NONE, None) == 0 && XfrTyp(8, R1, None) == 0x081a_0000 && XfrTyp(55, R1, None) == 0x371a_0000
    ensures XfrTyp(41, R3, None) == 0x2902_0000 && XfrTyp(2, R2, None) == 0x0209_0000
    ensures XfrTyp(3, R6, None) == 0x031a_0000 && XfrTyp(9, R2, None) == 0x0909_0000
    ensures XfrTyp(13, R1, None) == 0x0d1a_0000 && XfrTyp(7, R1b, None) == 0x071b_0000
    ensures XfrTyp(6, R1, None) == 0x061a_0000 && XfrTyp(16, R1, None) == 0x101a_0000
    ensures EnabledInterrupts(None) == 0x02ff_00f3 && EnabledInterrupts(Some(read)) == 0x02ff_00f3
  {
  }

  /** The mask of a command that uses DMA leaves the buffer-ready bits out. */
  lemma MaskUnderDma(d: Data)
    requires d.pbuf != 0
    ensures EnabledInterrupts(Some(d)) == 0x02ff_00c3
  {
  }

  lemma TransferTypeParts(index: bv32, rsp: RspType, data: Option<Data>)
    ensures XfrTyp(index, rsp, data) == FourParts(
              IndexField(index), if data.None? then 0 else TransferMode(index, data.value), ResponseBits(rsp),
              if data.None? then 0 else DPSEL)
  {
    hide IndexField, TransferMode, ResponseBits, FourParts;
    OrNothing(IndexField(index), ResponseBits(rsp));
    if data.Some? { PartsAre(IndexField(index), TransferMode(index, data.value), ResponseBits(rsp), DPSEL); }
  }

  function FourParts(a: bv32, b: bv32, c: bv32, d: bv32): bv32 {
    a | b | c | d
  }

  lemma PartsAre(a: bv32, b: bv32, c: bv32, d: bv32)
    ensures FourParts(a, b, c, d) == a | b | c | d
  {
  }

  lemma NoBits()
    ensures !Has(0, MSBSEL) && !Has(0, DTDSEL) && !Has(0, DMAEN) && !Has(0, BCEN) && !Has(0, DPSEL) && Has(DPSEL, DPSEL)
    ensures 0 & 0xffff_ffcc == 0 as bv32 && DPSEL & !DPSEL == 0
  {
  }

  lemma OrNothing(a: bv32, b: bv32)
    ensures FourParts(a, 0, b, 0) == a | b
  {
  }

  /** The block attributes: the size in bits 11:0, the count in bits 31:16. */
  function BlockAttributes(d: Data): u32 {
    d.blocks % 0x1_0000 * 0x1_0000 + d.blockSize % 0x1000
  }

  /** They are read back, in full when they fit, and nothing else is set. */
  lemma AttributesAreDecodable(d: Data)
    ensures
      var v := BlockAttributes(d);
      && v % 0x1000 == d.blockSize % 0x1000 && v / 0x1_0000 == d.blocks % 0x1_0000 && v / 0x1000 % 0x10 == 0
      && (d.blockSize < 0x1000 ==> v % 0x1000 == d.blockSize) && (d.blocks < 0x1_0000 ==> v / 0x1_0000 == d.blocks)
  {
    TwoFields(d.blockSize % 0x1000, d.blocks % 0x1_0000);
  }

  lemma TwoFields(low: nat, high: nat)
    requires low < 0x1000
    ensures
      var v := high * 0x1_0000 + low;
      v % 0x1000 == low && v / 0x1_0000 == high && v / 0x1000 % 0x10 == 0
  {
    assert (high * 0x1_0000 + low) / 0x1000 == high * 0x10;
  }

  /** The default data timeout replaces the old one; the clock bits are kept. */
  function WithDefaultTimeout(sysCtrl: bv32): bv32 {
    (sysCtrl & 0xff00_ffff) | 0x000e_0000
  }

  /** Bits 23:16 become 0x0E, all others stay. */
  lemma TimeoutIsDefault(sysCtrl: bv32)
    ensures (WithDefaultTimeout(sysCtrl) >> 16) & 0xff == 0x0e
    ensures WithDefaultTimeout(sysCtrl) & 0xff00_ffff == sysCtrl & 0xff00_ffff
  {
  }

  lemma CommandTypeIsClear(index: bv32, mode: bv32)
    requires mode & 0xffff_ffc0 == 0
    ensures IndexField(index) & !CMDTYP_BITS == IndexField(index)
    ensures ResponseFieldsClear(IndexField(index)) && ResponseFieldsClear(IndexField(index) | mode)
  {
  }

  /** The transfer type word, assembled bit field by bit field. */
  method TransferType(index: bv32, rsp: RspType, data: Option<Data>) returns (val: bv32)
    ensures val == XfrTyp(index, rsp, data)
  {
    hide TransferMode, ResponseBits, IndexField, ResponseFieldsClear;
    val := SetIndex(index);
    if data.None? {
      val := SetResponseType(val, rsp);
      return;
    }
    val := SetTransferMode(val, index, data.value);
    val := SetResponseType(val, rsp);
    val := val | DPSEL;
  }

  method SetIndex(index: bv32) returns (val: bv32)
    ensures val == IndexField(index) && ResponseFieldsClear(val)
  {
    CommandTypeIsClear(index, 0);
    val := (index & CMDINX_MASK) << 24;
    val := val & !CMDTYP_BITS;
  }

  predicate ResponseFieldsClear(v: bv32) {
    v & (CICEN | CCCEN | RSPTYP_BITS) == 0
  }

  method SetTransferMode(v: bv32, index: bv32, data: Data) returns (val: bv32)
    requires v == IndexField(index)
    ensures val == v | TransferMode(index, data) && ResponseFieldsClear(val)
  {
    var mode := BCEN;
    if data.blocks > 1 { mode := mode | MSBSEL; }
    if index == READ_SINGLE_BLOCK { mode := mode | DTDSEL; }
    if data.pbuf != 0 { mode := mode | DMAEN; }
    assert mode == TransferMode(index, data);
    CommandTypeIsClear(index, mode);
    val := v | mode;
  }

  lemma ClearedFieldsStayClear(v: bv32)
    requires ResponseFieldsClear(v)
    ensures ((v & !CICEN) & !CCCEN) & !RSPTYP_BITS == v
  {
  }

  method SetResponseType(v: bv32, rsp: RspType) returns (val: bv32)
    requires ResponseFieldsClear(v)
    ensures val == v | ResponseBits(rsp)
  {
    hide ResponseBits;
    ClearedFieldsStayClear(v);
    val := v & !CICEN;
    val := val & !CCCEN;
    val := val & !RSPTYP_BITS;
    var bits := ResponseType(rsp);
    val := val | bits;
  }

  method ResponseType(rsp: RspType) returns (bits: bv32)
    ensures bits == ResponseBits(rsp)
  {
    bits := 0;
    match rsp {
      case R2 =>
        bits := 0x0001_0000;
        bits := bits | CCCEN;
      case R3 | R4 =>
        bits := 0x0002_0000;
      case R1 | R5 | R6 =>
        bits := 0x0002_0000;
        bits := bits | CICEN;
        bits := bits | CCCEN;
      case R1b | R5b =>
        bits := 0x0003_0000;
        bits := bits | CICEN;
        bits := bits | CCCEN;
      case NONE =>
    }
  }

  method InterruptMask(data: Option<Data>) returns (val: bv32)
    ensures val == EnabledInterrupts(data)
  {
    val := ADMAE | OVRCURE | DEBE | DCE | DTOE | CRM | CINS | CIE | CEBE | CCE | CTOE | TC | CC;
    if data.None? || data.value.pbuf == 0 {
      val := val | BRR | BWR;
    }
  }

  const ERROR_HALF: bv32 := 0xffff_0000

  /** The status register under the mask `mask`, when the conditions `s` hold: a bit shows when it is enabled,
      and the summary bit shows whenever an error bit does (sections 2.2.17 to 2.2.20 of the SD Host
      Controller Simplified Specification 3.00). */
  function Shown(mask: bv32, s: bv32): bv32 {
    var enabled := s & mask;
    if Has(enabled, ERROR_HALF) then enabled | ERR else enabled
  }

  /** What the controller can report while a command runs: the buffer-ready bits unless it moves the data
      itself, of the errors all but auto-CMD12 and DMA, and with any of them, over-current too, the
      summary bit. */
  lemma ShownBits(data: Option<Data>, s: bv32)
    ensures
      var shown := Shown(EnabledInterrupts(data), s);
      && (Has(shown, BRR | BWR) <==> Has(s, BRR | BWR) && !UsesDma(data))
      && (forall bits :: bits in {ADMAE, OVRCURE, DEBE, DCE, DTOE, CIE, CEBE, CCE, CTOE, CRM, TC, CC} ==>
            (Has(shown, bits) <==> Has(s, bits)))
      && !Has(shown, AC12E) && !Has(shown, DMAE)
      && (Has(shown, ERR) <==>
            || Has(s, ADMAE) || Has(s, OVRCURE) || Has(s, DEBE) || Has(s, DCE) || Has(s, DTOE) || Has(s, CIE)
            || Has(s, CEBE) || Has(s, CCE) || Has(s, CTOE))
  {
    BufferBits(data, s);
    SummaryBit(data, s);
  }

  lemma BufferBits(data: Option<Data>, s: bv32)
    ensures Shown(EnabledInterrupts(data), s) & (BRR | BWR) == if UsesDma(data) then 0 else s & (BRR | BWR)
  {
  }

  lemma SummaryBit(data: Option<Data>, s: bv32)
    ensures Has(Shown(EnabledInterrupts(data), s), ERR) <==> Has(s, 0x02ff_0000)
  {
  }

  method SetDefaultTimeout(v: bv32) returns (val: bv32)
    ensures val == WithDefaultTimeout(v)
  {
    val := v & !(0xff << 16);
    val := val | (0xE << 16);
  }

  method ComposeBlockAttributes(d: Data) returns (val: u32)
    ensures val == BlockAttributes(d)
  {
    hide WordBits.Or, WordBits.Pow2;
    ShiftedCount(d);
    val := WordBits.LowBits(d.blockSize, 12);
    val := WordBits.Or(val, WordBits.Shl(d.blocks, 16));
  }

  lemma ShiftedCount(d: Data)
    ensures WordBits.LowBits(d.blockSize, 12) == d.blockSize % 0x1000
    ensures WordBits.Shl(d.blocks, 16) == d.blocks % 0x1_0000 * 0x1_0000
    ensures WordBits.Or(d.blockSize % 0x1000, d.blocks % 0x1_0000 * 0x1_0000) ==
            d.blocks % 0x1_0000 * 0x1_0000 + d.blockSize % 0x1000
  {
    hide WordBits.Or, WordBits.Pow2;
    WordBits.Pow2Word();
    WordBits.Pow2Add(8, 4);
    WordBits.Pow2Add(8, 8);
    SmallPower();
    WordBits.OrDisjoint(d.blockSize % 0x1000, d.blocks % 0x1_0000, 16);
  }

  lemma SmallPower()
    ensures WordBits.Pow2(4) == 0x10
  {
  }
}
