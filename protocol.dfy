/**
 * The bus exchanges of the driver's operations, as functions of the
 * register file before the operation and the number of transactions
 * already on the bus. Each `...Run` function gives the register file
 * afterwards, the transactions issued and the boolean the operation
 * returns; the driver's methods are proved to behave exactly so, and the
 * lemmas here state what each exchange achieves.
 */
module Protocol {
  import opened Registers
  import opened Transport
  import opened Conversions

  /** The outcome of one operation. */
  datatype Run = Run(regs: RegisterFile, trace: seq<Transaction>, ok: bool)

  /**
   * An address other than the given ones. Written as a predicate so that
   * the frame clauses below give the solver a term to match on.
   */
  predicate Untouched(a: bv8, touched: set<bv8>)
  {
    a !in touched
  }

  // ---------------------------------------------------------------------
  // sleep: clear the idle-timer enable, then put the sleep code into 0xC4.

  function SleepRun(e: Env, dev: bv8, regs: RegisterFile, n: nat): Run
  {
    var c9 := Fetched(e, regs, n, REG_0XC9) & 0xFE;
    var afterC9 := Stored(e, regs, n + 2, REG_0XC9, c9);
    var c4 := (Fetched(e, afterC9, n + 3, REG_0XC4) & 0xF8) | 0x01;
    Run(Stored(e, afterC9, n + 5, REG_0XC4, c4),
        ReadTrace(dev, REG_0XC9) + WriteTrace(dev, REG_0XC9, c9)
        + ReadTrace(dev, REG_0XC4) + WriteTrace(dev, REG_0XC4, c4),
        e.ack(n + 5))
  }

  /**
   * Sleep changes only 0xC9 and 0xC4; whatever it stores there has the
   * idle-timer enable clear and the sleep code (stop clear, sleep set) in
   * bits 2:0; when every transaction is acknowledged the other bits are
   * kept. Only the final write's acknowledgement is reported.
   */
  lemma SleepEffect(e: Env, dev: bv8, regs: RegisterFile, n: nat)
    ensures var run := SleepRun(e, dev, regs, n);
      && |run.trace| == 6
      && run.ok == e.ack(n + 5)
      && (forall a :: Untouched(a, {0xC9, 0xC4}) ==> run.regs(a) == regs(a))
      && (run.regs(0xC9) == regs(0xC9) || run.regs(0xC9) & 0x01 == 0)
      && (run.regs(0xC4) == regs(0xC4) || run.regs(0xC4) & 0x07 == 0x01)
      && (AllAcked(e, n, 6) ==>
            run.regs(0xC9) == regs(0xC9) & 0xFE && run.regs(0xC4) == (regs(0xC4) & 0xF8) | 0x01)
  {
  }

  // ---------------------------------------------------------------------
  // setMode: continuous conversion sets slFast, clears slTimeena, zeroes
  // the idle time and clears stop and sleep; one-burst is refused.

  function ModeRun(e: Env, dev: bv8, regs: RegisterFile, n: nat, mode: Mode): Run
  {
    match mode
    case OneBurst => Run(regs, [], false)
    case ConstConversion =>
      var c9 := (Fetched(e, regs, n, REG_0XC9) | 0x02) & 0xFE;
      var afterC9 := Stored(e, regs, n + 2, REG_0XC9, c9);
      var afterC8 := Stored(e, afterC9, n + 5, REG_0XC8, 0x00);
      var c4 := Fetched(e, afterC8, n + 6, REG_0XC4) & 0xFC;
      Run(Stored(e, afterC8, n + 8, REG_0XC4, c4),
          ReadTrace(dev, REG_0XC9) + WriteTrace(dev, REG_0XC9, c9)
          + ReadTrace(dev, REG_0XC8) + WriteTrace(dev, REG_0XC8, 0x00)
          + ReadTrace(dev, REG_0XC4) + WriteTrace(dev, REG_0XC4, c4),
          true)
  }

  /** The registers continuous conversion leaves when every transaction is acknowledged. */
  function ContinuousRegs(regs: RegisterFile): RegisterFile
  {
    Update(Update(Update(regs, 0xC9, (regs(0xC9) | 0x02) & 0xFE), 0xC8, 0x00), 0xC4, regs(0xC4) & 0xFC)
  }

  /**
   * One-burst issues nothing and fails. Continuous conversion reports
   * success whatever the bus does, changes only 0xC9, 0xC8 and 0xC4, and
   * whatever it stores has slFast set and slTimeena clear (0xC9), a zero
   * idle time (0xC8) and stop and sleep clear (0xC4); when every
   * transaction is acknowledged all other bits of 0xC9 and 0xC4 are kept.
   */
  lemma ModeEffect(e: Env, dev: bv8, regs: RegisterFile, n: nat, mode: Mode)
    ensures var run := ModeRun(e, dev, regs, n, mode);
      && (mode == OneBurst ==> run == Run(regs, [], false))
      && (mode == ConstConversion ==>
            && run.ok && |run.trace| == 9
            && (forall a :: Untouched(a, {0xC9, 0xC8, 0xC4}) ==> run.regs(a) == regs(a))
            && (run.regs(0xC9) == regs(0xC9) || run.regs(0xC9) & 0x03 == 0x02)
            && (run.regs(0xC8) == regs(0xC8) || run.regs(0xC8) == 0x00)
            && (run.regs(0xC4) == regs(0xC4) || run.regs(0xC4) & 0x03 == 0x00)
            && (AllAcked(e, n, 9) ==> Same(run.regs, ContinuousRegs(regs))))
  {
    if mode == ConstConversion {
      ContinuousSteps(e, regs, n);
      if AllAcked(e, n, 9) {
        ContinuousAcked(e, regs, n);
      }
    }
  }

  /** The three writes of continuous conversion, one register at a time. */
  lemma ContinuousSteps(e: Env, regs: RegisterFile, n: nat)
    ensures var after := ModeRun(e, 0, regs, n, ConstConversion).regs;
      && (forall a :: Untouched(a, {0xC9, 0xC8, 0xC4}) ==> after(a) == regs(a))
      && (after(0xC9) == regs(0xC9) || after(0xC9) & 0x03 == 0x02)
      && (after(0xC8) == regs(0xC8) || after(0xC8) == 0x00)
      && (after(0xC4) == regs(0xC4) || after(0xC4) & 0x03 == 0x00)
  {
  }

  /** With every transaction acknowledged, continuous conversion leaves ContinuousRegs. */
  lemma ContinuousAcked(e: Env, regs: RegisterFile, n: nat)
    requires AllAcked(e, n, 9)
    ensures Same(ModeRun(e, 0, regs, n, ConstConversion).regs, ContinuousRegs(regs))
  {
    assert e.ack(n) && e.ack(n + 1) && e.ack(n + 2) && e.ack(n + 5) && e.ack(n + 6) && e.ack(n + 7) && e.ack(n + 8);
  }

  /** A write to a register other than the OTP control register touches that register only. */
  lemma StoredFacts(e: Env, regs: RegisterFile, n: nat, reg: bv8, data: bv8)
    requires reg != REG_OTP_CTRL
    ensures forall a :: a != reg ==> Stored(e, regs, n, reg, data)(a) == regs(a)
    ensures Stored(e, regs, n, reg, data)(reg) == if e.ack(n) then data else regs(reg)
    ensures !e.ack(n) ==> Stored(e, regs, n, reg, data) == regs
  {
  }

  /** The bits continuous conversion leaves, stated bit by bit. */
  lemma ContinuousRegsBits(regs: RegisterFile)
    ensures var after := ContinuousRegs(regs);
      && after(0xC9) & 0x03 == 0x02 && after(0xC9) & 0xFC == regs(0xC9) & 0xFC
      && after(0xC8) == 0x00
      && after(0xC4) & 0x03 == 0x00 && after(0xC4) & 0xFC == regs(0xC4) & 0xFC
      && (forall a :: Untouched(a, {0xC9, 0xC8, 0xC4}) ==> after(a) == regs(a))
  {
  }

  /** Setting the mode twice leaves the same registers as setting it once. */
  lemma ModeIdempotent(e: Env, dev: bv8, regs: RegisterFile, n: nat, mode: Mode)
    requires AllAcked(e, n, 18)
    ensures var once := ModeRun(e, dev, regs, n, mode);
      Same(ModeRun(e, dev, once.regs, After(n, |once.trace|), mode).regs, once.regs)
  {
    var once := ModeRun(e, dev, regs, n, mode);
    if mode == ConstConversion {
      assert |once.trace| == 9;
      ModeAcked(e, dev, regs, n, mode);
      assert AllAcked(e, After(n, 9), 9);
      ModeAcked(e, dev, once.regs, After(n, 9), mode);
      var twice := ContinuousRegs(once.regs);
      assert twice(0xC9) == once.regs(0xC9);
      assert twice(0xC4) == once.regs(0xC4);
      assert Same(twice, once.regs);
    }
  }

  // ---------------------------------------------------------------------
  // setRange: six OTP-to-AFE copies.

  /** The first four transactions of one copy: select the OTP byte, enable the OTP read, read it. */
  function CopyPrefix(dev: bv8, src: bv8): seq<Transaction>
  {
    WriteTrace(dev, REG_OTP_ADDR, src) + WriteTrace(dev, REG_OTP_CTRL, OTP_READ_EN_MASK)
    + ReadTrace(dev, REG_OTP_DATA)
  }

  /** The register file once OTP address src is written (transaction n) and the OTP read enabled (n + 1). */
  function OtpSelected(e: Env, regs: RegisterFile, n: nat, src: bv8): RegisterFile
  {
    Stored(e, Stored(e, regs, n, REG_OTP_ADDR, src), n + 1, REG_OTP_CTRL, OTP_READ_EN_MASK)
  }

  /** The byte a copy reads back from the OTP data register (transactions n + 2 and n + 3). */
  function CopiedByte(e: Env, regs: RegisterFile, n: nat, src: bv8): bv8
  {
    Fetched(e, OtpSelected(e, regs, n, src), n + 2, REG_OTP_DATA)
  }

  /** The register file after copying OTP byte src into dst (the final write is transaction n + 4). */
  function CopyRegs(e: Env, regs: RegisterFile, n: nat, src: bv8, dst: bv8): RegisterFile
  {
    Stored(e, OtpSelected(e, regs, n, src), n + 4, dst, CopiedByte(e, regs, n, src))
  }

  /** Copy OTP byte src into register dst through the OTP address/control/data registers. */
  function CopyRun(e: Env, dev: bv8, regs: RegisterFile, n: nat, src: bv8, dst: bv8): Run
  {
    Run(CopyRegs(e, regs, n, src, dst),
        CopyPrefix(dev, src) + WriteTrace(dev, dst, CopiedByte(e, regs, n, src)),
        e.ack(n + 4))
  }

  /** The OTP address, data and control registers. */
  predicate IsOtpRegister(a: bv8)
  {
    a == REG_OTP_ADDR || a == REG_OTP_DATA || a == REG_OTP_CTRL
  }

  /** The registers a calibration may change: the OTP triple and A0..A5. */
  predicate IsCalibrationRegister(a: bv8)
  {
    || IsOtpRegister(a)
    || a == REG_A0 || a == REG_A1 || a == REG_A2 || a == REG_A3 || a == REG_A4 || a == REG_A5
  }

  /** One copy step in a trace: the fixed prefix, then a write of some byte to dst. */
  predicate IsCopyStep(s: seq<Transaction>, dev: bv8, src: bv8, dst: bv8)
  {
    && |s| == 5
    && s[..4] == CopyPrefix(dev, src)
    && s[4].WriteTx? && s[4].address == dev && !s[4].repeatedStart
    && |s[4].payload| == 2 && s[4].payload[0] == dst
  }

  /** The OTP address i bytes past base, counted in 8-bit arithmetic. */
  function OtpAddress(base: bv8, i: nat): bv8
  {
    if i == 0 then base else OtpAddress(base, i - 1) + 1
  }

  /** Within a block that does not wrap, OtpAddress is plain addition. */
  lemma {:induction false} OtpAddressValue(base: bv8, i: nat)
    requires base as int + i < 256
    ensures OtpAddress(base, i) as int == base as int + i
  {
    if i > 0 {
      OtpAddressValue(base, i - 1);
      IncrementValue(OtpAddress(base, i - 1));
    }
  }

  lemma IncrementValue(x: bv8)
    requires x as int < 255
    ensures (x + 1) as int == x as int + 1
  {
  }

  /** The i-th group of five transactions. */
  function StepOf(t: seq<Transaction>, i: nat): seq<Transaction>
    requires 5 * i + 5 <= |t|
  {
    t[5 * i .. 5 * i + 5]
  }

  /**
   * One copy issues the copy-step transactions, writes the byte it read to
   * dst, and reports the final write's acknowledgement.
   */
  lemma CopyShape(e: Env, dev: bv8, regs: RegisterFile, n: nat, src: bv8, dst: bv8)
    ensures var run := CopyRun(e, dev, regs, n, src, dst);
      && IsCopyStep(run.trace, dev, src, dst)
      && run.trace[4].payload[1] == CopiedByte(e, regs, n, src)
      && run.ok == e.ack(n + 4)
  {
  }

  /** One copy changes only the OTP triple and dst. */
  lemma CopyFrame(e: Env, regs: RegisterFile, n: nat, src: bv8, dst: bv8)
    requires !IsOtpRegister(dst)
    ensures forall a :: !IsOtpRegister(a) && a != dst ==> CopyRegs(e, regs, n, src, dst)(a) == regs(a)
  {
  }

  /**
   * With every transaction acknowledged, one copy reads OTP byte src and
   * leaves it in both the OTP data register and dst.
   */
  lemma CopyAcked(e: Env, regs: RegisterFile, n: nat, src: bv8, dst: bv8)
    requires !IsOtpRegister(dst)
    requires AllAcked(e, n, 5)
    ensures CopiedByte(e, regs, n, src) == e.otp(src)
    ensures var after := CopyRegs(e, regs, n, src, dst);
      && after(dst) == e.otp(src)
      && after(REG_OTP_ADDR) == src
      && after(REG_OTP_CTRL) == OTP_READ_EN_MASK
      && after(REG_OTP_DATA) == e.otp(src)
  {
    assert e.ack(n) && e.ack(n + 1) && e.ack(n + 2) && e.ack(n + 3) && e.ack(n + 4);
  }

  /** The register file after the first k copy steps of a calibration from OTP block base. */
  function RangeRegs(e: Env, regs: RegisterFile, n: nat, base: bv8, k: nat): RegisterFile
    requires k <= 6
    decreases k
  {
    if k == 0 then regs
    else CopyRegs(e, RangeRegs(e, regs, n, base, k - 1), After(n, 5 * (k - 1)), OtpAddress(base, k - 1), Afe(k - 1))
  }

  /** The first k copy steps of a calibration from OTP block base. */
  function RangeSteps(e: Env, dev: bv8, regs: RegisterFile, n: nat, base: bv8, k: nat): (run: Run)
    requires k <= 6
    ensures |run.trace| == 5 * k
    ensures run.regs == RangeRegs(e, regs, n, base, k)
    decreases k
  {
    if k == 0 then Run(regs, [], false)
    else
      var prev := RangeSteps(e, dev, regs, n, base, k - 1);
      var step := CopyRun(e, dev, prev.regs, After(n, 5 * (k - 1)), OtpAddress(base, k - 1), Afe(k - 1));
      Run(step.regs, prev.trace + step.trace, step.ok)
  }

  lemma AfeIsCalibrationRegister(i: nat)
    requires i < 6
    ensures IsCalibrationRegister(Afe(i)) && !IsOtpRegister(Afe(i))
  {
  }

  /** Appending five transactions to k groups of five adds group k and keeps the others. */
  lemma StepsAppend(p: seq<Transaction>, q: seq<Transaction>, k: nat)
    requires |p| == 5 * k && |q| == 5
    ensures forall i :: 0 <= i < k ==> StepOf(p + q, i) == StepOf(p, i)
    ensures StepOf(p + q, k) == q
  {
    forall i | 0 <= i < k
      ensures StepOf(p + q, i) == StepOf(p, i)
    {
      assert (p + q)[5 * i .. 5 * i + 5] == p[5 * i .. 5 * i + 5];
    }
  }

  /**
   * Step i of a calibration copies OTP byte base + i into A_i, in order
   * A0..A5, whatever the bus does.
   */
  lemma {:induction false} RangeStepsShape(e: Env, dev: bv8, regs: RegisterFile, n: nat, base: bv8, k: nat)
    requires k <= 6
    ensures var run := RangeSteps(e, dev, regs, n, base, k);
      forall i :: 0 <= i < k ==> IsCopyStep(StepOf(run.trace, i), dev, OtpAddress(base, i), Afe(i))
  {
    if k > 0 {
      var prev := RangeSteps(e, dev, regs, n, base, k - 1);
      var step := CopyRun(e, dev, prev.regs, After(n, 5 * (k - 1)), OtpAddress(base, k - 1), Afe(k - 1));
      var run := RangeSteps(e, dev, regs, n, base, k);
      assert run.trace == prev.trace + step.trace;
      RangeStepsShape(e, dev, regs, n, base, k - 1);
      CopyShape(e, dev, prev.regs, After(n, 5 * (k - 1)), OtpAddress(base, k - 1), Afe(k - 1));
      StepsAppend(prev.trace, step.trace, k - 1);
      forall i | 0 <= i < k
        ensures IsCopyStep(StepOf(run.trace, i), dev, OtpAddress(base, i), Afe(i))
      {
        if i < k - 1 {
          assert StepOf(run.trace, i) == StepOf(prev.trace, i);
        } else {
          assert StepOf(run.trace, i) == step.trace;
        }
      }
    }
  }

  /** A calibration reports the acknowledgement of its last write only. */
  lemma RangeStepsOk(e: Env, dev: bv8, regs: RegisterFile, n: nat, base: bv8, k: nat)
    requires 0 < k <= 6
    ensures RangeSteps(e, dev, regs, n, base, k).ok == e.ack(After(n, 5 * k - 1))
  {
    var prev := RangeSteps(e, dev, regs, n, base, k - 1);
    var step := CopyRun(e, dev, prev.regs, After(n, 5 * (k - 1)), OtpAddress(base, k - 1), Afe(k - 1));
    assert RangeSteps(e, dev, regs, n, base, k).ok == step.ok;
    assert step.ok == e.ack(After(n, 5 * (k - 1)) + 4);
    assert After(n, 5 * k - 1) == After(n, 5 * (k - 1)) + 4;
  }

  /** A calibration changes no register outside the OTP triple and A0..A5, whatever the bus does. */
  lemma {:induction false} RangeRegsFrame(e: Env, regs: RegisterFile, n: nat, base: bv8, k: nat)
    requires k <= 6
    ensures forall a :: !IsCalibrationRegister(a) ==> RangeRegs(e, regs, n, base, k)(a) == regs(a)
  {
    if k > 0 {
      var prev := RangeRegs(e, regs, n, base, k - 1);
      RangeRegsFrame(e, regs, n, base, k - 1);
      AfeIsCalibrationRegister(k - 1);
      CopyFrame(e, prev, After(n, 5 * (k - 1)), OtpAddress(base, k - 1), Afe(k - 1));
    }
  }

  /** Copying into A_j keeps A_0..A_(j-1). */
  lemma CopyKeepsEarlier(e: Env, regs: RegisterFile, n: nat, src: bv8, j: nat)
    requires j < 6
    ensures forall i :: 0 <= i < j ==> CopyRegs(e, regs, n, src, Afe(j))(Afe(i)) == regs(Afe(i))
  {
    AfeIsCalibrationRegister(j);
    CopyFrame(e, regs, n, src, Afe(j));
    forall i | 0 <= i < j
      ensures !IsOtpRegister(Afe(i)) && Afe(i) != Afe(j)
    {
      AfeSkipsFilterRegister(i, j);
      AfeIsCalibrationRegister(i);
    }
  }

  /** With every transaction acknowledged, A_i holds OTP byte base + i after step i. */
  lemma {:induction false} RangeRegsCalibrate(e: Env, regs: RegisterFile, n: nat, base: bv8, k: nat)
    requires k <= 6
    requires AllAcked(e, n, 5 * k)
    ensures forall i :: 0 <= i < k ==> RangeRegs(e, regs, n, base, k)(Afe(i)) == e.otp(OtpAddress(base, i))
  {
    if k > 0 {
      assert AllAcked(e, n, 5 * (k - 1));
      assert AllAcked(e, After(n, 5 * (k - 1)), 5);
      RangeRegsCalibrate(e, regs, n, base, k - 1);
      var prev := RangeRegs(e, regs, n, base, k - 1);
      var after := RangeRegs(e, regs, n, base, k);
      AfeIsCalibrationRegister(k - 1);
      CopyKeepsEarlier(e, prev, After(n, 5 * (k - 1)), OtpAddress(base, k - 1), k - 1);
      CopyAcked(e, prev, After(n, 5 * (k - 1)), OtpAddress(base, k - 1), Afe(k - 1));
      forall i | 0 <= i < k
        ensures after(Afe(i)) == e.otp(OtpAddress(base, i))
      {
        if i < k - 1 {
          assert after(Afe(i)) == prev(Afe(i));
        }
      }
    }
  }

  /** The number of transactions setRange issues: six copies of five. */
  const RANGE_LENGTH: nat := 30

  /**
   * setRange for a (range, magnet) pair: six copies from that pair's OTP
   * block. The six branches of the driver differ only in the block.
   */
  function RangeRun(e: Env, dev: bv8, regs: RegisterFile, n: nat, r: Range, m: Magnet): Run
  {
    RangeSteps(e, dev, regs, n, OtpBase(r, m), |AFE_REGISTERS|)
  }

  /**
   * setRange issues six copy steps, step i moving OTP byte OtpBase + i into
   * A_i, and reports only the last write's acknowledgement.
   */
  lemma RangeShape(e: Env, dev: bv8, regs: RegisterFile, n: nat, r: Range, m: Magnet)
    ensures var run := RangeRun(e, dev, regs, n, r, m);
      && |run.trace| == RANGE_LENGTH
      && (forall i :: 0 <= i < 6 ==>
            IsCopyStep(StepOf(run.trace, i), dev, OtpAddress(OtpBase(r, m), i), Afe(i)))
      && run.ok == e.ack(After(n, RANGE_LENGTH - 1))
  {
    RangeStepsShape(e, dev, regs, n, OtpBase(r, m), |AFE_REGISTERS|);
    RangeStepsOk(e, dev, regs, n, OtpBase(r, m), |AFE_REGISTERS|);
  }

  /**
   * setRange changes nothing outside the OTP triple and A0..A5, whatever the
   * bus does, and with every transaction acknowledged leaves A0..A5 equal to
   * the pair's six OTP bytes.
   */
  lemma RangeCalibrates(e: Env, dev: bv8, regs: RegisterFile, n: nat, r: Range, m: Magnet)
    ensures var after := RangeRun(e, dev, regs, n, r, m).regs;
      && (forall a :: !IsCalibrationRegister(a) ==> after(a) == regs(a))
      && (AllAcked(e, n, RANGE_LENGTH) ==>
            forall i :: 0 <= i < 6 ==> after(Afe(i)) == e.otp(OtpAddress(OtpBase(r, m), i)))
  {
    RangeRegsFrame(e, regs, n, OtpBase(r, m), |AFE_REGISTERS|);
    if AllAcked(e, n, RANGE_LENGTH) {
      RangeRegsCalibrate(e, regs, n, OtpBase(r, m), |AFE_REGISTERS|);
    }
  }

  // ---------------------------------------------------------------------
  // setFilter: one write of the encoded filter byte.

  function FilterRun(e: Env, dev: bv8, regs: RegisterFile, n: nat, f: Filter): Run
  {
    var w := EncodeFilter(f);
    Run(Stored(e, regs, n, REG_0XCD, w.value), WriteTrace(dev, REG_0XCD, w.value), w.accepted && e.ack(n))
  }

  /**
   * setFilter writes the encoded byte to 0xCD and nothing else, and
   * succeeds exactly when the setting is accepted and the write is
   * acknowledged.
   */
  lemma FilterEffect(e: Env, dev: bv8, regs: RegisterFile, n: nat, f: Filter)
    ensures var run := FilterRun(e, dev, regs, n, f);
      && run.trace == [WriteTx(dev, [REG_0XCD, EncodeFilter(f).value], false)]
      && (run.ok <==> EncodeFilter(f).accepted && e.ack(n))
      && (forall a :: Untouched(a, {0xCD}) ==> run.regs(a) == regs(a))
      && (e.ack(n) ==> run.regs(0xCD) == EncodeFilter(f).value)
      && (!e.ack(n) ==> run.regs == regs)
  {
    StoredFacts(e, regs, n, REG_0XCD, EncodeFilter(f).value);
  }

  // ---------------------------------------------------------------------
  // init: mode, then range, then filter.

  /** The number of transactions setMode issues. */
  function ModeLength(mode: Mode): (count: nat)
    ensures count <= 9
  {
    if mode == ConstConversion then 9 else 0
  }

  /**
   * init: the mode, then the calibration, then the filter. Each stage's
   * transactions are numbered after the previous stage's (ModeLength and
   * RANGE_LENGTH are proved equal to the stages' trace lengths).
   */
  function InitRun(e: Env, dev: bv8, regs: RegisterFile, n: nat,
                   mode: Mode, range: Range, magnet: Magnet, filter: Filter): Run
  {
    var m := ModeRun(e, dev, regs, n, mode);
    var r := RangeRun(e, dev, m.regs, After(n, ModeLength(mode)), range, magnet);
    var f := FilterRun(e, dev, r.regs, After(After(n, ModeLength(mode)), RANGE_LENGTH), filter);
    Run(f.regs, m.trace + r.trace + f.trace, f.ok)
  }

  /**
   * Init issues the mode's transactions, then the calibration's thirty,
   * then the filter write.
   */
  lemma InitShape(e: Env, dev: bv8, regs: RegisterFile, n: nat,
                  mode: Mode, range: Range, magnet: Magnet, filter: Filter)
    ensures var run := InitRun(e, dev, regs, n, mode, range, magnet, filter);
      var m := ModeRun(e, dev, regs, n, mode);
      && |run.trace| == ModeLength(mode) + RANGE_LENGTH + 1
      && run.trace[..ModeLength(mode)] == m.trace
      && run.trace[ModeLength(mode)..ModeLength(mode) + RANGE_LENGTH]
         == RangeRun(e, dev, m.regs, After(n, ModeLength(mode)), range, magnet).trace
      && run.trace[|run.trace| - 1] == WriteTx(dev, [REG_0XCD, EncodeFilter(filter).value], false)
  {
    var m := ModeRun(e, dev, regs, n, mode);
    var nr := After(n, ModeLength(mode));
    var r := RangeRun(e, dev, m.regs, nr, range, magnet);
    var nf := After(nr, RANGE_LENGTH);
    var f := FilterRun(e, dev, r.regs, nf, filter);
    assert |m.trace| == ModeLength(mode) by {
      ModeEffect(e, dev, regs, n, mode);
    }
    assert |r.trace| == RANGE_LENGTH by {
      RangeShape(e, dev, m.regs, nr, range, magnet);
    }
    assert f.trace == [WriteTx(dev, [REG_0XCD, EncodeFilter(filter).value], false)] by {
      FilterEffect(e, dev, r.regs, nf, filter);
    }
  }

  /**
   * With every transaction acknowledged, init leaves the configuration in
   * the chip: the mode bits (for continuous conversion), the six
   * calibration coefficients of the stored range and magnet, and the
   * encoded filter.
   */
  lemma InitConfigures(e: Env, dev: bv8, regs: RegisterFile, n: nat,
                       mode: Mode, range: Range, magnet: Magnet, filter: Filter)
    requires AllAcked(e, n, ModeLength(mode) + RANGE_LENGTH + 1)
    ensures var after := InitRun(e, dev, regs, n, mode, range, magnet, filter).regs;
      && after(REG_0XCD) == EncodeFilter(filter).value
      && (forall i :: 0 <= i < 6 ==> after(Afe(i)) == e.otp(OtpAddress(OtpBase(range, magnet), i)))
      && (mode == ConstConversion ==>
            after(0xC9) & 0x03 == 0x02 && after(0xC8) == 0x00 && after(0xC4) & 0x03 == 0x00)
      && (mode == OneBurst ==>
            after(0xC9) == regs(0xC9) && after(0xC8) == regs(0xC8) && after(0xC4) == regs(0xC4))
  {
    var m := ModeRun(e, dev, regs, n, mode);
    var nr := After(n, ModeLength(mode));
    var r := RangeRun(e, dev, m.regs, nr, range, magnet);
    var nf := After(nr, RANGE_LENGTH);
    var f := FilterRun(e, dev, r.regs, nf, filter);
    ModeAcked(e, dev, regs, n, mode);
    assert AllAcked(e, nr, RANGE_LENGTH);
    RangeCalibrates(e, dev, m.regs, nr, range, magnet);
    assert e.ack(nf);
    FilterEffect(e, dev, r.regs, nf, filter);
    InitAcked(e, regs, m.regs, r.regs, f.regs, mode, range, magnet, filter);
  }

  /** With its transactions acknowledged, setMode leaves ContinuousRegs, or nothing changed for one-burst. */
  lemma ModeAcked(e: Env, dev: bv8, regs: RegisterFile, n: nat, mode: Mode)
    requires AllAcked(e, n, ModeLength(mode))
    ensures var after := ModeRun(e, dev, regs, n, mode).regs;
      && (mode == ConstConversion ==> Same(after, ContinuousRegs(regs)))
      && (mode == OneBurst ==> Same(after, regs))
  {
    if mode == ConstConversion {
      ContinuousAcked(e, regs, n);
    }
  }

  /** The register facts behind InitConfigures, over the three intermediate register files. */
  lemma InitAcked(e: Env, regs: RegisterFile, afterMode: RegisterFile, afterRange: RegisterFile,
                  afterFilter: RegisterFile, mode: Mode, range: Range, magnet: Magnet, filter: Filter)
    requires mode == ConstConversion ==> Same(afterMode, ContinuousRegs(regs))
    requires mode == OneBurst ==> Same(afterMode, regs)
    requires forall a :: !IsCalibrationRegister(a) ==> afterRange(a) == afterMode(a)
    requires forall i :: 0 <= i < 6 ==> afterRange(Afe(i)) == e.otp(OtpAddress(OtpBase(range, magnet), i))
    requires forall a :: Untouched(a, {0xCD}) ==> afterFilter(a) == afterRange(a)
    requires afterFilter(0xCD) == EncodeFilter(filter).value
    ensures forall i :: 0 <= i < 6 ==> afterFilter(Afe(i)) == e.otp(OtpAddress(OtpBase(range, magnet), i))
    ensures mode == ConstConversion ==>
      afterFilter(0xC9) & 0x03 == 0x02 && afterFilter(0xC8) == 0x00 && afterFilter(0xC4) & 0x03 == 0x00
    ensures mode == OneBurst ==>
      afterFilter(0xC9) == regs(0xC9) && afterFilter(0xC8) == regs(0xC8) && afterFilter(0xC4) == regs(0xC4)
  {
    forall i | 0 <= i < 6
      ensures afterFilter(Afe(i)) == e.otp(OtpAddress(OtpBase(range, magnet), i))
    {
      assert Untouched(Afe(i), {0xCD});
    }
    assert !IsCalibrationRegister(0xC9) && Untouched(0xC9, {0xCD});
    assert !IsCalibrationRegister(0xC8) && Untouched(0xC8, {0xCD});
    assert !IsCalibrationRegister(0xC4) && Untouched(0xC4, {0xCD});
    if mode == ConstConversion {
      ContinuousRegsBits(regs);
    }
  }

  // ---------------------------------------------------------------------
  // wakeup: a one-byte write pulse whose byte is read through a bad pointer.

  function WakeRun(e: Env, dev: bv8, regs: RegisterFile, n: nat): Run
  {
    Run(regs, [WriteTx(dev, [e.junk(n)], false)], e.ack(n))
  }

  /**
   * As written, wake-up returns before re-initialising: a filter register
   * that lost its setting keeps the wrong value.
   */
  lemma WakeupLeavesConfigurationUnrestored(e: Env, dev: bv8, regs: RegisterFile, n: nat, f: Filter)
    requires regs(REG_0XCD) != EncodeFilter(f).value
    ensures WakeRun(e, dev, regs, n).regs(REG_0XCD) != EncodeFilter(f).value
    ensures |WakeRun(e, dev, regs, n).trace| == 1
  {
  }

  /** Wake-up as evidently intended: the pulse, then init. */
  function WakeupRestoreRun(e: Env, dev: bv8, regs: RegisterFile, n: nat,
                            mode: Mode, range: Range, magnet: Magnet, filter: Filter): Run
  {
    var w := WakeRun(e, dev, regs, n);
    var i := InitRun(e, dev, w.regs, After(n, 1), mode, range, magnet, filter);
    Run(i.regs, w.trace + i.trace, w.ok)
  }

  /** The intended wake-up puts the whole saved configuration back. */
  lemma WakeupRestoreReapplies(e: Env, dev: bv8, regs: RegisterFile, n: nat,
                               mode: Mode, range: Range, magnet: Magnet, filter: Filter)
    ensures var run := WakeupRestoreRun(e, dev, regs, n, mode, range, magnet, filter);
      && run.ok == e.ack(n)
      && |run.trace| == 1 + ModeLength(mode) + RANGE_LENGTH + 1
      && (AllAcked(e, n, |run.trace|) ==>
            && run.regs(REG_0XCD) == EncodeFilter(filter).value
            && (forall i :: 0 <= i < 6 ==>
                  run.regs(Afe(i)) == e.otp(OtpAddress(OtpBase(range, magnet), i)))
            && (mode == ConstConversion ==>
                  run.regs(0xC9) & 0x03 == 0x02 && run.regs(0xC8) == 0x00 && run.regs(0xC4) & 0x03 == 0x00))
  {
    var run := WakeupRestoreRun(e, dev, regs, n, mode, range, magnet, filter);
    InitShape(e, dev, regs, After(n, 1), mode, range, magnet, filter);
    if AllAcked(e, n, |run.trace|) {
      assert AllAcked(e, After(n, 1), |run.trace| - 1);
      InitConfigures(e, dev, regs, After(n, 1), mode, range, magnet, filter);
    }
  }

  // ---------------------------------------------------------------------
  // i2cMemDump: one register read per dumped address.

  function DumpTrace(dev: bv8, addrs: seq<bv8>): (t: seq<Transaction>)
    ensures |t| == 2 * |addrs|
  {
    if addrs == [] then []
    else DumpTrace(dev, addrs[..|addrs| - 1]) + ReadTrace(dev, addrs[|addrs| - 1])
  }

  /** Reading one more register extends a dump's log by that register's read. */
  lemma DumpStepExtends(dev: bv8, addrs: seq<bv8>, i: nat, t0: seq<Transaction>,
                        before: seq<Transaction>, after: seq<Transaction>)
    requires i < |addrs|
    requires before == t0 + DumpTrace(dev, addrs[..i])
    requires after == before + ReadTrace(dev, addrs[i])
    ensures |before| == After(|t0|, 2 * i)
    ensures after == t0 + DumpTrace(dev, addrs[..i + 1])
  {
    assert addrs[..i + 1][..i] == addrs[..i];
    AppendAssoc(t0, DumpTrace(dev, addrs[..i]), ReadTrace(dev, addrs[i]));
  }

  /**
   * The indices the dump's read loop visits as written, from index i on:
   * the loop continues while i <= size.
   */
  function AsWrittenVisits(i: nat, size: nat): seq<nat>
    decreases size + 1 - i
  {
    if i <= size then [i] + AsWrittenVisits(i + 1, size) else []
  }

  /** From index i the as-written loop makes size + 1 - i visits, the k-th at index i + k. */
  lemma {:induction false} AsWrittenVisitsAll(i: nat, size: nat)
    requires i <= size + 1
    ensures |AsWrittenVisits(i, size)| == size + 1 - i
    ensures forall k :: 0 <= k < |AsWrittenVisits(i, size)| ==> AsWrittenVisits(i, size)[k] == i + k
    decreases size + 1 - i
  {
    if i <= size {
      AsWrittenVisitsAll(i + 1, size);
    }
  }

  /** As written, the loop's last read uses index 21 of a 21-entry vector. */
  lemma DumpLoopReadsPastEnd()
    ensures var visits := AsWrittenVisits(0, |DUMP_ADDRESSES|);
      |visits| == 22 && visits[21] == 21 && !(visits[21] < |DUMP_ADDRESSES|)
  {
    AsWrittenVisitsAll(0, |DUMP_ADDRESSES|);
  }

  // ---------------------------------------------------------------------
  // Composition: each run is its register reads and writes in sequence.
  // Logs are given as the log before each step (t0, t1, ...), so a step's
  // transactions are numbered from the length of the log it extends.

  /** sleep's four steps, each extending the log, make up SleepRun. */
  lemma SleepComposes(e: Env, dev: bv8, regs0: RegisterFile, t0: seq<Transaction>, t1: seq<Transaction>,
                      t2: seq<Transaction>, r2: RegisterFile, t3: seq<Transaction>, t4: seq<Transaction>,
                      r4: RegisterFile, ok: bool)
    requires t1 == t0 + ReadTrace(dev, REG_0XC9)
    requires var c9 := Fetched(e, regs0, |t0|, REG_0XC9) & 0xFE;
      t2 == t1 + WriteTrace(dev, REG_0XC9, c9) && r2 == Stored(e, regs0, |t1|, REG_0XC9, c9)
    requires t3 == t2 + ReadTrace(dev, REG_0XC4)
    requires var c4 := (Fetched(e, r2, |t2|, REG_0XC4) & 0xF8) | 0x01;
      t4 == t3 + WriteTrace(dev, REG_0XC4, c4) && r4 == Stored(e, r2, |t3|, REG_0XC4, c4) && ok == e.ack(|t3|)
    ensures var run := SleepRun(e, dev, regs0, |t0|);
      r4 == run.regs && t4 == t0 + run.trace && ok == run.ok
  {
    var c9 := Fetched(e, regs0, |t0|, REG_0XC9) & 0xFE;
    var c4 := (Fetched(e, r2, |t2|, REG_0XC4) & 0xF8) | 0x01;
    var a, b, c, d := ReadTrace(dev, REG_0XC9), WriteTrace(dev, REG_0XC9, c9),
                      ReadTrace(dev, REG_0XC4), WriteTrace(dev, REG_0XC4, c4);
    assert t4 == t0 + (a + b + c + d) by {
      AppendAssoc(t0, a + b + c, d);
      AppendAssoc(t0, a + b, c);
      AppendAssoc(t0, a, b);
    }
  }

  /** ModeRun, given the positions and register files of its steps. */
  lemma ModeSteps(e: Env, dev: bv8, regs0: RegisterFile, n: nat, n1: nat, n3: nat, n4: nat, n5: nat,
                  r2: RegisterFile, r4: RegisterFile, r6: RegisterFile)
    requires n1 == n + 2 && n3 == n + 5 && n4 == n + 6 && n5 == n + 8
    requires r2 == Stored(e, regs0, n1, REG_0XC9, (Fetched(e, regs0, n, REG_0XC9) | 0x02) & 0xFE)
    requires r4 == Stored(e, r2, n3, REG_0XC8, 0x00)
    requires r6 == Stored(e, r4, n5, REG_0XC4, Fetched(e, r4, n4, REG_0XC4) & 0xFC)
    ensures var c9, c4 := (Fetched(e, regs0, n, REG_0XC9) | 0x02) & 0xFE, Fetched(e, r4, n4, REG_0XC4) & 0xFC;
      ModeRun(e, dev, regs0, n, ConstConversion)
      == Run(r6, ReadTrace(dev, REG_0XC9) + WriteTrace(dev, REG_0XC9, c9)
                 + ReadTrace(dev, REG_0XC8) + WriteTrace(dev, REG_0XC8, 0x00)
                 + ReadTrace(dev, REG_0XC4) + WriteTrace(dev, REG_0XC4, c4), true)
  {
  }

  lemma ModeLengths(dev: bv8, t0: seq<Transaction>, t1: seq<Transaction>, t2: seq<Transaction>, t3: seq<Transaction>,
                    t4: seq<Transaction>, t5: seq<Transaction>, c9: bv8)
    requires t1 == t0 + ReadTrace(dev, REG_0XC9)
    requires t2 == t1 + WriteTrace(dev, REG_0XC9, c9)
    requires t3 == t2 + ReadTrace(dev, REG_0XC8)
    requires t4 == t3 + WriteTrace(dev, REG_0XC8, 0x00)
    requires t5 == t4 + ReadTrace(dev, REG_0XC4)
    ensures |t1| == |t0| + 2 && |t3| == |t0| + 5 && |t4| == |t0| + 6 && |t5| == |t0| + 8
  {
  }

  /** Continuous conversion's six steps make up ModeRun. */
  lemma ModeComposes(e: Env, dev: bv8, regs0: RegisterFile, t0: seq<Transaction>, t1: seq<Transaction>,
                     t2: seq<Transaction>, r2: RegisterFile, t3: seq<Transaction>, t4: seq<Transaction>,
                     r4: RegisterFile, t5: seq<Transaction>, t6: seq<Transaction>, r6: RegisterFile)
    requires t1 == t0 + ReadTrace(dev, REG_0XC9)
    requires var c9 := (Fetched(e, regs0, |t0|, REG_0XC9) | 0x02) & 0xFE;
      t2 == t1 + WriteTrace(dev, REG_0XC9, c9) && r2 == Stored(e, regs0, |t1|, REG_0XC9, c9)
    requires t3 == t2 + ReadTrace(dev, REG_0XC8)
    requires t4 == t3 + WriteTrace(dev, REG_0XC8, 0x00) && r4 == Stored(e, r2, |t3|, REG_0XC8, 0x00)
    requires t5 == t4 + ReadTrace(dev, REG_0XC4)
    requires var c4 := Fetched(e, r4, |t4|, REG_0XC4) & 0xFC;
      t6 == t5 + WriteTrace(dev, REG_0XC4, c4) && r6 == Stored(e, r4, |t5|, REG_0XC4, c4)
    ensures var run := ModeRun(e, dev, regs0, |t0|, ConstConversion);
      r6 == run.regs && t6 == t0 + run.trace && run.ok
  {
    var c9 := (Fetched(e, regs0, |t0|, REG_0XC9) | 0x02) & 0xFE;
    var c4 := Fetched(e, r4, |t4|, REG_0XC4) & 0xFC;
    var steps := ReadTrace(dev, REG_0XC9) + WriteTrace(dev, REG_0XC9, c9)
                 + ReadTrace(dev, REG_0XC8) + WriteTrace(dev, REG_0XC8, 0x00)
                 + ReadTrace(dev, REG_0XC4) + WriteTrace(dev, REG_0XC4, c4);
    assert ModeRun(e, dev, regs0, |t0|, ConstConversion) == Run(r6, steps, true) by {
      ModeLengths(dev, t0, t1, t2, t3, t4, t5, c9);
      ModeSteps(e, dev, regs0, |t0|, |t1|, |t3|, |t4|, |t5|, r2, r4, r6);
    }
    assert t6 == t0 + steps by {
      ExtendedBySix(t0, t1, t2, t3, t4, t5, t6,
                    ReadTrace(dev, REG_0XC9), WriteTrace(dev, REG_0XC9, c9),
                    ReadTrace(dev, REG_0XC8), WriteTrace(dev, REG_0XC8, 0x00),
                    ReadTrace(dev, REG_0XC4), WriteTrace(dev, REG_0XC4, c4));
    }
  }

  /** One copy's four steps make up CopyRun. */
  lemma CopyComposes(e: Env, dev: bv8, regs0: RegisterFile, src: bv8, dst: bv8,
                     t0: seq<Transaction>, t1: seq<Transaction>, r1: RegisterFile, t2: seq<Transaction>,
                     r2: RegisterFile, t3: seq<Transaction>, t4: seq<Transaction>, r4: RegisterFile, ok: bool)
    requires t1 == t0 + WriteTrace(dev, REG_OTP_ADDR, src) && r1 == Stored(e, regs0, |t0|, REG_OTP_ADDR, src)
    requires t2 == t1 + WriteTrace(dev, REG_OTP_CTRL, OTP_READ_EN_MASK)
          && r2 == Stored(e, r1, |t1|, REG_OTP_CTRL, OTP_READ_EN_MASK)
    requires t3 == t2 + ReadTrace(dev, REG_OTP_DATA)
    requires var v := Fetched(e, r2, |t2|, REG_OTP_DATA);
      t4 == t3 + WriteTrace(dev, dst, v) && r4 == Stored(e, r2, |t3|, dst, v) && ok == e.ack(|t3|)
    ensures var run := CopyRun(e, dev, regs0, |t0|, src, dst);
      r4 == run.regs && t4 == t0 + run.trace && ok == run.ok
  {
    var v := Fetched(e, r2, |t2|, REG_OTP_DATA);
    var a, b := WriteTrace(dev, REG_OTP_ADDR, src), WriteTrace(dev, REG_OTP_CTRL, OTP_READ_EN_MASK);
    var c, d := ReadTrace(dev, REG_OTP_DATA), WriteTrace(dev, dst, v);
    assert t4 == t0 + (a + b + c + d) by {
      AppendAssoc(t0, a + b + c, d);
      AppendAssoc(t0, a + b, c);
      AppendAssoc(t0, a, b);
    }
  }

  /** A calibration's first i steps followed by copy step i make up its first i + 1 steps. */
  lemma RangeStepComposes(e: Env, dev: bv8, regs0: RegisterFile, base: bv8, i: nat, t0: seq<Transaction>,
                          before: seq<Transaction>, after: seq<Transaction>, regs: RegisterFile, ok: bool)
    requires i < 6
    requires before == t0 + RangeSteps(e, dev, regs0, |t0|, base, i).trace
    requires var step := CopyRun(e, dev, RangeSteps(e, dev, regs0, |t0|, base, i).regs, |before|,
                                 OtpAddress(base, i), Afe(i));
      after == before + step.trace && regs == step.regs && ok == step.ok
    ensures var next := RangeSteps(e, dev, regs0, |t0|, base, i + 1);
      after == t0 + next.trace && regs == next.regs && ok == next.ok
  {
    var done := RangeSteps(e, dev, regs0, |t0|, base, i);
    assert |before| == After(|t0|, 5 * i);
    var step := CopyRun(e, dev, done.regs, After(|t0|, 5 * i), OtpAddress(base, i), Afe(i));
    AppendAssoc(t0, done.trace, step.trace);
  }

  /** init's three stages make up InitRun. */
  lemma InitComposes(e: Env, dev: bv8, regs0: RegisterFile, mode: Mode, range: Range, magnet: Magnet,
                     filter: Filter, t0: seq<Transaction>, t1: seq<Transaction>, r1: RegisterFile,
                     t2: seq<Transaction>, r2: RegisterFile, t3: seq<Transaction>, r3: RegisterFile)
    requires var m := ModeRun(e, dev, regs0, |t0|, mode); t1 == t0 + m.trace && r1 == m.regs
    requires var r := RangeRun(e, dev, r1, |t1|, range, magnet); t2 == t1 + r.trace && r2 == r.regs
    requires var f := FilterRun(e, dev, r2, |t2|, filter); t3 == t2 + f.trace && r3 == f.regs
    ensures var run := InitRun(e, dev, regs0, |t0|, mode, range, magnet, filter);
      r3 == run.regs && t3 == t0 + run.trace
  {
    var m := ModeRun(e, dev, regs0, |t0|, mode);
    var r := RangeRun(e, dev, r1, |t1|, range, magnet);
    var f := FilterRun(e, dev, r2, |t2|, filter);
    assert |t1| == After(|t0|, ModeLength(mode)) by {
      ModeEffect(e, dev, regs0, |t0|, mode);
    }
    assert |t2| == After(|t1|, RANGE_LENGTH) by {
      RangeShape(e, dev, r1, |t1|, range, magnet);
    }
    assert t3 == t0 + (m.trace + r.trace + f.trace) by {
      AppendAssoc(t0, m.trace + r.trace, f.trace);
      AppendAssoc(t0, m.trace, r.trace);
    }
  }
}
