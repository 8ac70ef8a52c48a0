/**
 * The Si7210 register map, bit masks and configuration types that the
 * driver header declares: register addresses, the OTP calibration table,
 * the configuration enums and the plain structs.
 */
module Registers {

  // Device register addresses.
  const REG_0XC0: bv8 := 0xC0      // revid in bits 3:0, chipid in bits 7:4
  const REG_DSPSIGM: bv8 := 0xC1   // fresh bit 7, measurement bits 14:8
  const REG_DSPSIGL: bv8 := 0xC2   // measurement bits 7:0
  const REG_0XC3: bv8 := 0xC3
  const REG_0XC4: bv8 := 0xC4      // measurement control: stop, sleep
  const REG_0XC5: bv8 := 0xC5
  const REG_0XC6: bv8 := 0xC6
  const REG_0XC7: bv8 := 0xC7
  const REG_0XC8: bv8 := 0xC8      // idle time
  const REG_0XC9: bv8 := 0xC9      // idle timer enable (bit 0), fast override (bit 1)
  const REG_A0: bv8 := 0xCA
  const REG_A1: bv8 := 0xCB
  const REG_A2: bv8 := 0xCC
  const REG_0XCD: bv8 := 0xCD      // digital filter
  const REG_A3: bv8 := 0xCE
  const REG_A4: bv8 := 0xCF
  const REG_A5: bv8 := 0xD0
  const REG_OTP_ADDR: bv8 := 0xE1
  const REG_OTP_DATA: bv8 := 0xE2
  const REG_OTP_CTRL: bv8 := 0xE3  // read enable (bit 1), busy (bit 0, read-only)
  const REG_0XE4: bv8 := 0xE4

  // Bit masks.
  const OTP_BUSY_MASK: bv8 := 1
  const OTP_READ_EN_MASK: bv8 := 2
  const DF_FIR_MASK: bv8 := 0
  const DF_IIR_MASK: bv8 := 1

  /** The documented identity of a good part: chip id 0x1, revision B (0x4). */
  const CHIP_ID: bv8 := 0x1
  const REV_ID_B: bv8 := 0x4
  const GOOD_IDENTITY: bv8 := 0x14

  /** Bipolar measurement range. */
  datatype Range = Range20mT | Range200mT

  /** Magnet type used for temperature compensation. */
  datatype Magnet = NoMagnet | Neodymium | Ceramic

  /** Conversion mode. */
  datatype Mode = ConstConversion | OneBurst

  /** Digital filter type. */
  datatype FilterType = FIR | IIR | NoFilter

  /**
   * Filter setting; the burst size is the C++ `int` field (2^burstsize
   * samples are averaged).
   */
  datatype Filter = Filter(filterType: FilterType, burstsize: int)

  /** A value-initialised `Filter`. */
  const DefaultFilter: Filter := Filter(NoFilter, 0)

  /** One entry of a register dump: an address and the byte read there. */
  datatype Register = Register(addr: bv8, data: bv8)

  /** The 8-bit bus address: the 7-bit device address shifted left, R/W bit clear. */
  function BusAddress(addr7: bv8): (addr8: bv8)
    ensures addr8 & 1 == 0
    ensures addr8 as int == (2 * addr7 as int) % 256
  {
    addr7 << 1
  }

  /** The six analog-front-end coefficient registers A0..A5, in order. */
  const AFE_REGISTERS: seq<bv8> := [REG_A0, REG_A1, REG_A2, REG_A3, REG_A4, REG_A5]

  /** Coefficient register A_i. */
  function Afe(i: nat): (reg: bv8)
    requires i < 6
    ensures REG_A0 <= reg <= REG_A5 && reg != REG_0XCD
  {
    AFE_REGISTERS[i]
  }

  /** A0..A2 sit at 0xCA..0xCC and A3..A5 at 0xCE..0xD0. */
  lemma AfeAddress(i: nat)
    requires i < 6
    ensures Afe(i) as int == 0xCA + i + (if i < 3 then 0 else 1)
  {
  }

  /** A0..A5 are six distinct registers in increasing address order, skipping the filter register. */
  lemma AfeSkipsFilterRegister(i: nat, j: nat)
    requires i < j < 6
    ensures Afe(i) < Afe(j)
    ensures Afe(i) != REG_0XCD && Afe(j) != REG_0XCD
  {
  }

  /** Position of a (range, magnet) pair in the calibration table, magnet-major. */
  function CalibrationIndex(r: Range, m: Magnet): nat
  {
    (match m case NoMagnet => 0 case Neodymium => 2 case Ceramic => 4)
    + (match r case Range20mT => 0 case Range200mT => 1)
  }

  /**
   * First of the six consecutive OTP addresses holding the A0..A5
   * coefficients for a (range, magnet) pair.
   */
  function OtpBase(r: Range, m: Magnet): (base: bv8)
    ensures base as int == 0x21 + 6 * CalibrationIndex(r, m)
  {
    match (r, m)
    case (Range20mT, NoMagnet) => 0x21
    case (Range200mT, NoMagnet) => 0x27
    case (Range20mT, Neodymium) => 0x2D
    case (Range200mT, Neodymium) => 0x33
    case (Range20mT, Ceramic) => 0x39
    case (Range200mT, Ceramic) => 0x3F
  }

  /** Every (range, magnet) pair; there are exactly six. */
  const ALL_PAIRS: set<(Range, Magnet)> :=
    {(Range20mT, NoMagnet), (Range200mT, NoMagnet), (Range20mT, Neodymium),
     (Range200mT, Neodymium), (Range20mT, Ceramic), (Range200mT, Ceramic)}

  lemma ExactlySixPairs(r: Range, m: Magnet)
    ensures (r, m) in ALL_PAIRS
    ensures |ALL_PAIRS| == 6
  {
  }

  /** Distinct pairs own disjoint six-byte OTP blocks. */
  lemma CalibrationBlocksDisjoint(r1: Range, m1: Magnet, r2: Range, m2: Magnet)
    requires (r1, m1) != (r2, m2)
    ensures OtpBase(r1, m1) as int + 6 <= OtpBase(r2, m2) as int
         || OtpBase(r2, m2) as int + 6 <= OtpBase(r1, m1) as int
  {
    assert CalibrationIndex(r1, m1) != CalibrationIndex(r2, m2);
  }

  /** Together the six blocks cover OTP addresses 0x21..0x44 without a gap. */
  lemma CalibrationBlocksContiguous(a: int)
    requires 0x21 <= a < 0x45
    ensures exists r: Range, m: Magnet :: OtpBase(r, m) as int <= a < OtpBase(r, m) as int + 6
  {
    var k := (a - 0x21) / 6;
    var m := if k < 2 then NoMagnet else if k < 4 then Neodymium else Ceramic;
    var r := if k % 2 == 0 then Range20mT else Range200mT;
    assert CalibrationIndex(r, m) == k;
    assert OtpBase(r, m) as int <= a < OtpBase(r, m) as int + 6;
  }

  /** The 21 registers a dump reads: 0xC0..0xD0, then 0xE1..0xE4. */
  const DUMP_ADDRESSES: seq<bv8> :=
    [0xC0, 0xC1, 0xC2, 0xC3, 0xC4, 0xC5, 0xC6, 0xC7, 0xC8, 0xC9, 0xCA,
     0xCB, 0xCC, 0xCD, 0xCE, 0xCF, 0xD0, 0xE1, 0xE2, 0xE3, 0xE4]

  lemma DumpAddressRanges(i: nat)
    requires i < |DUMP_ADDRESSES|
    ensures |DUMP_ADDRESSES| == 21
    ensures DUMP_ADDRESSES[i] as int == if i < 17 then 0xC0 + i else 0xE1 + (i - 17)
  {
  }
}
