/**
 * The pure parts of the Si7210 driver: decoding the identity register,
 * turning the two signal registers into a field strength with C++ integer
 * arithmetic, and encoding a filter setting into the filter register.
 */
module Conversions {
  import opened Registers

  // ---------------------------------------------------------------------
  // Identity register 0xC0: chip id in bits 7:4, revision id in bits 3:0.

  /** The chip id: the high nibble of the identity byte. */
  function ChipId(identity: bv8): (id: bv8)
    ensures id < 16
    ensures id as int == identity as int / 16
  {
    identity >> 4
  }

  /**
   * The revision id as the driver computes it: the mask is `~(0x1 << 4)`,
   * which clears bit 4 only and keeps the chip id bits 7:5.
   */
  function RevId(identity: bv8): (rev: bv8)
    ensures rev & 0x10 == 0
    ensures rev as int == identity as int - (if identity & 0x10 != 0 then 16 else 0)
  {
    identity & 0xEF
  }

  /** The revision id as documented: the low nibble of the identity byte. */
  function RevIdIntended(identity: bv8): (rev: bv8)
    ensures rev < 16
    ensures rev as int == identity as int % 16
  {
    identity & 0x0F
  }

  /** The part is good when the identity byte is exactly 0x14. */
  function IsGood(identity: bv8): (good: bool)
    ensures good <==> ChipId(identity) == CHIP_ID && RevIdIntended(identity) == REV_ID_B
  {
    identity == GOOD_IDENTITY
  }

  /** The two nibble accessors split the identity byte without loss. */
  lemma IdentityNibbles(identity: bv8)
    ensures ChipId(identity) as int * 16 + RevIdIntended(identity) as int == identity as int
  {
  }

  /** With the driver's mask, the check still accepts exactly chip id 0x1 with revision 0x4. */
  lemma GoodMeansDocumentedIds(identity: bv8)
    ensures IsGood(identity) <==> ChipId(identity) == CHIP_ID && RevId(identity) == REV_ID_B
  {
  }

  /** The documented good part decodes to chip id 0x1 and revision id 0x4. */
  lemma GoodPartIdentity()
    ensures ChipId(GOOD_IDENTITY) == 0x1 && RevId(GOOD_IDENTITY) == 0x4 && IsGood(GOOD_IDENTITY)
  {
  }

  /** The driver's revision id keeps bits 7:5: identity 0x24 yields 0x24, not 0x04. */
  lemma RevIdKeepsUpperBits()
    ensures RevId(0x24) == 0x24 && RevIdIntended(0x24) == 0x04
  {
  }

  // ---------------------------------------------------------------------
  // Field strength.

  /** C++ integer division, which truncates toward zero. */
  function TruncDiv(a: int, d: int): (q: int)
    requires d > 0
    ensures a >= 0 ==> 0 <= q && 0 <= a - q * d < d
    ensures a < 0 ==> q <= 0 && 0 <= q * d - a < d
  {
    var m := if a >= 0 then a else -a;
    var k := m / d;
    assert 0 <= m - d * k < d;
    if a >= 0 then k else -k
  }

  /**
   * The signed 15-bit measurement: bit 7 of the high byte (the fresh bit) is
   * dropped and the unsigned value is centred on zero.
   */
  function RawField(dspsigm: bv8, dspsigl: bv8): (raw: int)
    ensures -16384 <= raw < 16384
    ensures (raw + 16384) / 256 == (dspsigm & 0x7F) as int
    ensures (raw + 16384) % 256 == dspsigl as int
  {
    256 * (dspsigm & 0x7F) as int + dspsigl as int - 16384
  }

  /**
   * Field strength in microtesla: one count is 1.25 uT on the 20 mT range
   * and 12.5 uT on the 200 mT range, rounded toward zero.
   */
  function FieldStrength(range: Range, raw: int): (microTesla: int)
    ensures range == Range20mT ==>
      if raw >= 0 then 0 <= 5 * raw - 4 * microTesla < 4 else 0 <= 4 * microTesla - 5 * raw < 4
    ensures range == Range200mT ==>
      if raw >= 0 then 0 <= 25 * raw - 2 * microTesla < 2 else 0 <= 2 * microTesla - 25 * raw < 2
  {
    match range
    case Range20mT => TruncDiv(raw, 4) + raw
    case Range200mT => raw * 12 + TruncDiv(raw, 2)
  }

  /** The fresh bit never changes the reading. */
  lemma FreshBitIgnored(range: Range, dspsigm: bv8, dspsigl: bv8)
    ensures FieldStrength(range, RawField(dspsigm | 0x80, dspsigl))
         == FieldStrength(range, RawField(dspsigm & 0x7F, dspsigl))
  {
    assert (dspsigm | 0x80) & 0x7F == (dspsigm & 0x7F) & 0x7F;
  }

  /** Rounding toward zero makes the conversion odd: negating the field negates the reading. */
  lemma FieldStrengthOdd(range: Range, raw: int)
    ensures FieldStrength(range, -raw) == -FieldStrength(range, raw)
  {
  }

  /** Every reading lies within the range's full scale. */
  lemma FieldStrengthBounds(range: Range, dspsigm: bv8, dspsigl: bv8)
    ensures var b := FieldStrength(range, RawField(dspsigm, dspsigl));
      match range
      case Range20mT => -20480 <= b <= 20478
      case Range200mT => -204800 <= b <= 204787
  {
  }

  /** Worked values: the zero point, full scale at 200 mT, and truncation of -1.25 to -1. */
  lemma FieldStrengthExamples()
    ensures RawField(0x40, 0x00) == 0 && FieldStrength(Range20mT, 0) == 0
    ensures RawField(0x7F, 0xFF) == 16383 && FieldStrength(Range200mT, 16383) == 204787
    ensures FieldStrength(Range20mT, -1) == -1
  {
  }

  // ---------------------------------------------------------------------
  // Filter register 0xCD: bit 0 selects IIR, bits 4:1 hold the burst size.

  /** The byte written to the filter register and whether the setting was accepted. */
  datatype FilterWrite = FilterWrite(value: bv8, accepted: bool)

  /** The filter-type bit of FIR and IIR. */
  function TypeBit(t: FilterType): (bit: bv8)
    requires t != NoFilter
    ensures bit == if t == IIR then 1 else 0
  {
    match t
    case FIR => DF_FIR_MASK
    case IIR => DF_IIR_MASK
  }

  /**
   * What setFilter writes. No filter and an over-long burst both write 0;
   * only the second is a rejection. Otherwise the burst size, shifted left
   * once and truncated to a byte as the C++ `uint8_t` assignment does, is
   * combined with the type bit.
   */
  function EncodeFilter(f: Filter): (w: FilterWrite)
    ensures w.accepted <==> f.filterType == NoFilter || f.burstsize <= 12
    ensures f.filterType == NoFilter || !w.accepted ==> w.value == 0
    ensures w.accepted && f.filterType != NoFilter ==>
      w.value & 1 == TypeBit(f.filterType) && (w.value >> 1) as int == f.burstsize % 128
  {
    match f.filterType
    case NoFilter => FilterWrite(0, true)
    case _ =>
      if f.burstsize > 12 then FilterWrite(0, false)
      else FilterWrite(ShiftedBurst(f.burstsize) | TypeBit(f.filterType), true)
  }

  /** `burstsize << 1` truncated to 8 bits (two's complement for negative sizes). */
  function ShiftedBurst(burstsize: int): (b: bv8)
    ensures b & 1 == 0
    ensures (b >> 1) as int == burstsize % 128
  {
    var x := ByteOf(burstsize % 128);
    ByteOfValue(burstsize % 128);
    ShiftBack(x);
    x << 1
  }

  /**
   * The byte holding a number below 256, counted up from zero. This is
   * `v as bv8`; the conversion is spelled out because the solver handles
   * the cast poorly.
   */
  function ByteOf(v: nat): bv8
    requires v < 256
  {
    if v == 0 then 0 else ByteOf(v - 1) + 1
  }

  lemma {:induction false} ByteOfValue(v: nat)
    requires v < 256
    ensures ByteOf(v) as int == v
  {
    if v > 0 {
      ByteOfValue(v - 1);
    }
  }

  lemma ShiftBack(x: bv8)
    requires x < 128
    ensures (x << 1) >> 1 == x && (x << 1) & 1 == 0
  {
  }

  /** Reads a filter setting back from the filter register. */
  function DecodeFilter(value: bv8): (f: Filter)
    ensures 0 <= f.burstsize < 16
    ensures f.filterType != NoFilter
  {
    Filter(if value & 1 == 1 then IIR else FIR, ((value >> 1) & 0x0F) as int)
  }

  /** Accepted FIR and IIR settings with burst size 0..12 fit bits 4:0 and decode back. */
  lemma FilterRoundTrip(f: Filter)
    requires f.filterType != NoFilter && 0 <= f.burstsize <= 12
    ensures EncodeFilter(f).accepted
    ensures EncodeFilter(f).value < 32
    ensures DecodeFilter(EncodeFilter(f).value) == f
  {
    var v := EncodeFilter(f).value;
    assert (v >> 1) as int == f.burstsize;
    assert (v >> 1) < 16;
    assert (v >> 1) & 0x0F == v >> 1;
  }

  /** "No filter" writes the same byte as a one-sample FIR. */
  lemma NoFilterIsSingleSampleFir(b: int)
    ensures EncodeFilter(Filter(NoFilter, b)).value == EncodeFilter(Filter(FIR, 0)).value
  {
  }

  /** Worked values, including a negative burst size that the driver accepts. */
  lemma FilterExamples()
    ensures EncodeFilter(Filter(FIR, 5)) == FilterWrite(0x0A, true)
    ensures EncodeFilter(Filter(IIR, 5)) == FilterWrite(0x0B, true)
    ensures EncodeFilter(Filter(FIR, 13)) == FilterWrite(0x00, false)
    ensures EncodeFilter(Filter(IIR, -1)) == FilterWrite(0xFF, true)
    ensures EncodeFilter(DefaultFilter) == FilterWrite(0x00, true)
  {
  }
}
