/**
 * The Si7210 driver object: the bus it talks through, its device address
 * and the configuration saved by the constructor. Every operation is a
 * fixed sequence of register reads and writes; each method is proved to
 * issue exactly the transactions and leave exactly the register file that
 * the matching function of module Protocol describes.
 */
module Driver {
  import opened Registers
  import opened Transport
  import opened Conversions
  import opened Protocol

  class Si7210 {
    /** The shared bus, with the chip on it. */
    const i2c: Bus
    const devAddr7Bit: bv8
    const devAddr8Bit: bv8
    var range: Range
    var magnet: Magnet
    var mode: Mode
    var filter: Filter

    /** Saves the configuration, then applies it with init. */
    constructor (bus: Bus, addr: bv8, r: Range, mag: Magnet, m: Mode, f: Filter)
      modifies bus
      ensures i2c == bus && devAddr7Bit == addr && devAddr8Bit == BusAddress(addr)
      ensures range == r && magnet == mag && mode == m && filter == f
      ensures var run := InitRun(bus.env, BusAddress(addr), old(bus.regs), |old(bus.trace)|, m, r, mag, f);
        bus.regs == run.regs && bus.trace == old(bus.trace) + run.trace
    {
      i2c := bus;
      devAddr7Bit := addr;
      devAddr8Bit := BusAddress(addr);
      range := r;
      magnet := mag;
      mode := m;
      filter := f;
      new;
      Init();
    }

    /** Applies the saved mode, then the saved range and magnet, then the saved filter. */
    method Init()
      modifies i2c
      ensures var run := InitRun(i2c.env, devAddr8Bit, old(i2c.regs), |old(i2c.trace)|, mode, range, magnet, filter);
        i2c.regs == run.regs && i2c.trace == old(i2c.trace) + run.trace
    {
      ghost var t0 := i2c.trace;
      var _ := SetMode(mode);
      ghost var t1, r1 := i2c.trace, i2c.regs;
      var _ := SetRange(range, magnet);
      ghost var t2, r2 := i2c.trace, i2c.regs;
      var _ := SetFilter(filter);
      InitComposes(i2c.env, devAddr8Bit, old(i2c.regs), mode, range, magnet, filter,
                   t0, t1, r1, t2, r2, i2c.trace, i2c.regs);
    }

    /**
     * One register read: an address phase ending in a repeated start, then a
     * one-byte read. Only the read's acknowledgement is reported.
     */
    method ReadRegister(reg: bv8) returns (ok: bool, data: bv8)
      modifies i2c
      ensures i2c.trace == old(i2c.trace) + ReadTrace(devAddr8Bit, reg)
      ensures data == Fetched(i2c.env, old(i2c.regs), |old(i2c.trace)|, reg)
      ensures ok == i2c.env.ack(|old(i2c.trace)| + 1)
      ensures i2c.regs == old(i2c.regs) && i2c.selected == None
    {
      var _ := i2c.Write(devAddr8Bit, [reg], true);
      var status;
      status, data := i2c.Read(devAddr8Bit);
      ok := status == 0;
    }

    /** One register write: the register address and the byte in a single transaction. */
    method WriteRegister(reg: bv8, data: bv8) returns (ok: bool)
      modifies i2c
      ensures i2c.trace == old(i2c.trace) + WriteTrace(devAddr8Bit, reg, data)
      ensures i2c.regs == Stored(i2c.env, old(i2c.regs), |old(i2c.trace)|, reg, data)
      ensures ok == i2c.env.ack(|old(i2c.trace)|)
      ensures i2c.selected == None
    {
      var status := i2c.Write(devAddr8Bit, [reg, data], false);
      ok := status == 0;
    }

    /** The chip id from one read of 0xC0. */
    method GetChipId() returns (id: bv8)
      modifies i2c
      ensures id == ChipId(Fetched(i2c.env, old(i2c.regs), |old(i2c.trace)|, REG_0XC0))
      ensures i2c.trace == old(i2c.trace) + ReadTrace(devAddr8Bit, REG_0XC0)
      ensures i2c.regs == old(i2c.regs)
    {
      var _, temp := ReadRegister(REG_0XC0);
      id := temp >> 4;
    }

    /** The revision id from one read of 0xC0, with the driver's mask (bit 4 cleared only). */
    method GetRevId() returns (rev: bv8)
      modifies i2c
      ensures rev == RevId(Fetched(i2c.env, old(i2c.regs), |old(i2c.trace)|, REG_0XC0))
      ensures i2c.trace == old(i2c.trace) + ReadTrace(devAddr8Bit, REG_0XC0)
      ensures i2c.regs == old(i2c.regs)
    {
      var _, temp := ReadRegister(REG_0XC0);
      rev := temp & !(0x1 << 4);
    }

    /** The part answers with identity byte 0x14. */
    method CheckGood() returns (good: bool)
      modifies i2c
      ensures good == IsGood(Fetched(i2c.env, old(i2c.regs), |old(i2c.trace)|, REG_0XC0))
      ensures i2c.trace == old(i2c.trace) + ReadTrace(devAddr8Bit, REG_0XC0)
      ensures i2c.regs == old(i2c.regs)
    {
      var _, temp := ReadRegister(REG_0XC0);
      if temp == 0x14 {
        good := true;
      } else {
        good := false;
      }
    }

    method Sleep() returns (ok: bool)
      modifies i2c
      ensures i2c.regs == SleepRun(i2c.env, devAddr8Bit, old(i2c.regs), |old(i2c.trace)|).regs
      ensures i2c.trace == old(i2c.trace) + SleepRun(i2c.env, devAddr8Bit, old(i2c.regs), |old(i2c.trace)|).trace
      ensures ok == SleepRun(i2c.env, devAddr8Bit, old(i2c.regs), |old(i2c.trace)|).ok
    {
      ghost var t0 := i2c.trace;
      var _, temp := ReadRegister(REG_0XC9);
      ghost var t1 := i2c.trace;
      temp := temp & 0xFE;
      var _ := WriteRegister(REG_0XC9, temp);
      ghost var t2, r2 := i2c.trace, i2c.regs;
      var _, temp' := ReadRegister(REG_0XC4);
      ghost var t3 := i2c.trace;
      temp' := (temp' & 0xF8) | 0x01;
      ok := WriteRegister(REG_0XC4, temp');
      SleepComposes(i2c.env, devAddr8Bit, old(i2c.regs), t0, t1, t2, r2, t3, i2c.trace, i2c.regs, ok);
    }

    /**
     * Wake-up as written: one write pulse whose byte is read from memory
     * address 0xC0, so indeterminate, and a return before the
     * re-initialisation that follows it.
     */
    method Wakeup() returns (ok: bool)
      modifies i2c
      ensures var run := WakeRun(i2c.env, devAddr8Bit, old(i2c.regs), |old(i2c.trace)|);
        i2c.regs == run.regs && i2c.trace == old(i2c.trace) + run.trace && ok == run.ok
    {
      var pulse := i2c.env.junk(|i2c.trace|);
      var status := i2c.Write(devAddr8Bit, [pulse], false);
      ok := status == 0;
    }

    /** Wake-up as evidently intended: the pulse, then init with the saved configuration. */
    method WakeupAndRestore() returns (ok: bool)
      modifies i2c
      ensures var run := WakeupRestoreRun(i2c.env, devAddr8Bit, old(i2c.regs), |old(i2c.trace)|,
                                          mode, range, magnet, filter);
        i2c.regs == run.regs && i2c.trace == old(i2c.trace) + run.trace && ok == run.ok
    {
      ghost var t0 := i2c.trace;
      ok := Wakeup();
      ghost var t1 := i2c.trace;
      Init();
      AppendAssoc(t0, t1[|t0|..], i2c.trace[|t1|..]);
    }

    /** One read of each signal register, converted with the saved range. */
    method GetFieldStrength() returns (microTesla: int)
      modifies i2c
      ensures var e, regs, n := i2c.env, old(i2c.regs), |old(i2c.trace)|;
        microTesla == FieldStrength(range, RawField(Fetched(e, regs, n, REG_DSPSIGM),
                                                    Fetched(e, regs, n + 2, REG_DSPSIGL)))
      ensures i2c.trace == old(i2c.trace) + ReadTrace(devAddr8Bit, REG_DSPSIGM) + ReadTrace(devAddr8Bit, REG_DSPSIGL)
      ensures i2c.regs == old(i2c.regs)
    {
      var _, dspsigm := ReadRegister(REG_DSPSIGM);
      var _, dspsigl := ReadRegister(REG_DSPSIGL);
      var raw := RawField(dspsigm, dspsigl);
      microTesla := FieldStrength(range, raw);
    }

    /**
     * Sets the conversion mode. The driver switches on the saved mode; the
     * argument is ignored.
     */
    method SetMode(m: Mode) returns (ok: bool)
      modifies i2c
      ensures var run := ModeRun(i2c.env, devAddr8Bit, old(i2c.regs), |old(i2c.trace)|, mode);
        i2c.regs == run.regs && i2c.trace == old(i2c.trace) + run.trace && ok == run.ok
    {
      ghost var t0 := i2c.trace;
      match mode
      case ConstConversion =>
        var _, temp := ReadRegister(REG_0XC9);
        ghost var t1 := i2c.trace;
        temp := temp | 0x02;  // bit 1: slFast
        temp := temp & 0xFE;
        var _ := WriteRegister(REG_0XC9, temp);
        ghost var t2, r2 := i2c.trace, i2c.regs;
        var _, _ := ReadRegister(REG_0XC8);
        ghost var t3 := i2c.trace;
        var _ := WriteRegister(REG_0XC8, 0x00);
        ghost var t4, r4 := i2c.trace, i2c.regs;
        var _, temp' := ReadRegister(REG_0XC4);
        ghost var t5 := i2c.trace;
        temp' := temp' & 0xFC;
        var _ := WriteRegister(REG_0XC4, temp');
        ok := true;
        ModeComposes(i2c.env, devAddr8Bit, old(i2c.regs), t0, t1, t2, r2, t3, t4, r4, t5, i2c.trace, i2c.regs);
      case OneBurst =>
        ok := false;
    }

    /** One calibration step: select OTP byte src, enable the OTP read, read it, write it to dst. */
    method CopyOtpByte(src: bv8, dst: bv8) returns (ok: bool)
      modifies i2c
      ensures var run := CopyRun(i2c.env, devAddr8Bit, old(i2c.regs), |old(i2c.trace)|, src, dst);
        i2c.regs == run.regs && i2c.trace == old(i2c.trace) + run.trace && ok == run.ok
    {
      ghost var t0 := i2c.trace;
      var _ := WriteRegister(REG_OTP_ADDR, src);
      ghost var t1, r1 := i2c.trace, i2c.regs;
      var _ := WriteRegister(REG_OTP_CTRL, OTP_READ_EN_MASK);
      ghost var t2, r2 := i2c.trace, i2c.regs;
      var _, temp := ReadRegister(REG_OTP_DATA);
      ghost var t3 := i2c.trace;
      ok := WriteRegister(dst, temp);
      CopyComposes(i2c.env, devAddr8Bit, old(i2c.regs), src, dst, t0, t1, r1, t2, r2, t3, i2c.trace, i2c.regs, ok);
    }

    /**
     * Loads the calibration of a (range, magnet) pair: A0..A5 from the six
     * OTP bytes of the pair's block, in order. The saved range and magnet
     * are not updated.
     */
    method SetRange(r: Range, mag: Magnet) returns (ok: bool)
      modifies i2c
      ensures var run := RangeRun(i2c.env, devAddr8Bit, old(i2c.regs), |old(i2c.trace)|, r, mag);
        i2c.regs == run.regs && i2c.trace == old(i2c.trace) + run.trace && ok == run.ok
    {
      var base := OtpBase(r, mag);
      ghost var e, regs0, t0 := i2c.env, i2c.regs, i2c.trace;
      ok := false;
      var i := 0;
      while i < 6
        invariant i <= 6
        invariant var done := RangeSteps(e, devAddr8Bit, regs0, |t0|, base, i);
          i2c.regs == done.regs && i2c.trace == t0 + done.trace && ok == done.ok
      {
        ghost var before := i2c.trace;
        ok := CopyOtpByte(OtpAddress(base, i), Afe(i));
        RangeStepComposes(e, devAddr8Bit, regs0, base, i, t0, before, i2c.trace, i2c.regs, ok);
        i := i + 1;
      }
    }

    /**
     * Writes the encoded filter to 0xCD. A burst size over 12 writes 0 and
     * fails; no filter writes 0 and reports the write.
     */
    method SetFilter(f: Filter) returns (ok: bool)
      modifies i2c
      ensures var run := FilterRun(i2c.env, devAddr8Bit, old(i2c.regs), |old(i2c.trace)|, f);
        i2c.regs == run.regs && i2c.trace == old(i2c.trace) + run.trace && ok == run.ok
    {
      var temp: bv8 := 0x0;
      match f.filterType
      case NoFilter =>
        ok := WriteRegister(REG_0XCD, temp);
      case FIR =>
        if f.burstsize > 12 {
          temp := 0x0;
          var _ := WriteRegister(REG_0XCD, temp);
          ok := false;
        } else {
          temp := temp | DF_FIR_MASK;
          temp := temp | ShiftedBurst(f.burstsize);
          ok := WriteRegister(REG_0XCD, temp);
        }
      case IIR =>
        if f.burstsize > 12 {
          temp := 0x0;
          var _ := WriteRegister(REG_0XCD, temp);
          ok := false;
        } else {
          temp := temp | DF_IIR_MASK;
          temp := temp | ShiftedBurst(f.burstsize);
          ok := WriteRegister(REG_0XCD, temp);
        }
    }

    /**
     * Reads the 21 dumped registers, 0xC0..0xD0 and 0xE1..0xE4, in order,
     * pairing each address with the byte read there. The read loop stops at
     * the last entry.
     */
    method I2cMemDump() returns (registers: seq<Register>)
      modifies i2c
      ensures |registers| == |DUMP_ADDRESSES|
      ensures forall k :: 0 <= k < |registers| ==>
        registers[k] == Register(DUMP_ADDRESSES[k],
                                 Fetched(i2c.env, old(i2c.regs), After(|old(i2c.trace)|, 2 * k), DUMP_ADDRESSES[k]))
      ensures i2c.trace == old(i2c.trace) + DumpTrace(devAddr8Bit, DUMP_ADDRESSES)
      ensures i2c.regs == old(i2c.regs)
    {
      ghost var e, regs0, t0 := i2c.env, i2c.regs, i2c.trace;
      registers := [];
      var i := 0;
      while i < 21
        invariant 0 <= i <= 21 && |registers| == i
        invariant forall k :: 0 <= k < i ==> registers[k] == Register(0, 0)
      {
        registers := registers + [Register(0, 0)];
        i := i + 1;
      }
      // The 21 address assignments, from the table.
      registers := seq(21, k requires 0 <= k < 21 => registers[k].(addr := DUMP_ADDRESSES[k]));
      i := 0;
      while i < |registers|
        invariant 0 <= i <= |registers| == |DUMP_ADDRESSES|
        invariant forall k :: 0 <= k < |registers| ==> registers[k].addr == DUMP_ADDRESSES[k]
        invariant forall k :: 0 <= k < i ==>
          registers[k].data == Fetched(e, regs0, After(|t0|, 2 * k), DUMP_ADDRESSES[k])
        invariant i2c.trace == t0 + DumpTrace(devAddr8Bit, DUMP_ADDRESSES[..i])
        invariant i2c.regs == regs0
      {
        ghost var before := i2c.trace;
        var _, data := ReadRegister(registers[i].addr);
        DumpStepExtends(devAddr8Bit, DUMP_ADDRESSES, i, t0, before, i2c.trace);
        registers := registers[i := registers[i].(data := data)];
        i := i + 1;
      }
      assert DUMP_ADDRESSES[..|DUMP_ADDRESSES|] == DUMP_ADDRESSES;
    }
  }
}
