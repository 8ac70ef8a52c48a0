/**
 * The I2C bus and the chip behind it, as the driver sees them.
 *
 * The bus is a log of transactions. Whether transaction number n (its
 * position in the log) is acknowledged is decided by the environment
 * (`Env.ack`), and so is every byte the driver cannot know (`Env.junk`):
 * the data of a read that failed, or memory read through a bad pointer.
 * The chip is a 256-byte register file plus its factory-programmed OTP
 * memory, which is only reachable through the OTP address, control and
 * data registers.
 */
module Transport {
  import opened Registers

  datatype Option<T> = None | Some(value: T)

  /** The chip's register file: one byte per 8-bit address. */
  type RegisterFile = bv8 -> bv8

  /** The register file with one register replaced. */
  function Update(regs: RegisterFile, reg: bv8, data: bv8): RegisterFile
  {
    r => if r == reg then data else regs(r)
  }

  /** Two register files that agree on every address. */
  ghost predicate Same(a: RegisterFile, b: RegisterFile)
  {
    forall r :: a(r) == b(r)
  }

  /** One bus transaction: a write of some bytes, or a one-byte read. */
  datatype Transaction =
    | WriteTx(address: bv8, payload: seq<bv8>, repeatedStart: bool)
    | ReadTx(address: bv8)

  /** What the driver does not control: OTP contents, acknowledgements, indeterminate bytes. */
  datatype Env = Env(otp: bv8 -> bv8, ack: nat -> bool, junk: nat -> bv8)

  /**
   * The position of the transaction that follows `count` transactions
   * starting at position n; the stages of a compound operation are
   * numbered with it. It is plain addition, kept as a function so that the
   * solver does not regroup the sums of stage lengths.
   */
  function After(n: nat, count: nat): nat
  {
    n + count
  }

  /** Transactions from..from+count-1 are all acknowledged. */
  ghost predicate AllAcked(e: Env, from: nat, count: nat)
  {
    forall k :: from <= k < from + count ==> e.ack(k)
  }

  /**
   * The chip's response to an acknowledged register write: the register
   * takes the byte, and setting the read-enable bit of the OTP control
   * register copies the OTP byte at the OTP address into the OTP data
   * register (immediately: the busy phase is not modelled). The registers
   * are written as numbers here: 0xE3 is REG_OTP_CTRL, 0x02 its read-enable
   * bit, 0xE2 REG_OTP_DATA and 0xE1 REG_OTP_ADDR. Literals keep the
   * solver's bit-vector reasoning cheap; OtpLiterals ties them to the names.
   */
  function ChipWrite(e: Env, regs: RegisterFile, reg: bv8, data: bv8): RegisterFile
  {
    var stored := Update(regs, reg, data);
    if reg == 0xE3 && data & 0x02 != 0 then
      Update(stored, 0xE2, e.otp(stored(0xE1)))
    else stored
  }

  /** The literals of ChipWrite are the named OTP registers and read-enable bit. */
  lemma OtpLiterals()
    ensures REG_OTP_CTRL == 0xE3 && OTP_READ_EN_MASK == 0x02
    ensures REG_OTP_DATA == 0xE2 && REG_OTP_ADDR == 0xE1
  {
  }

  /** The register file after a register write issued as transaction n. */
  function Stored(e: Env, regs: RegisterFile, n: nat, reg: bv8, data: bv8): RegisterFile
  {
    if e.ack(n) then ChipWrite(e, regs, reg, data) else regs
  }

  /**
   * The byte a register read returns when its address phase is transaction
   * n and its data phase transaction n + 1.
   */
  function Fetched(e: Env, regs: RegisterFile, n: nat, reg: bv8): bv8
  {
    if e.ack(n) && e.ack(n + 1) then regs(reg) else e.junk(n + 1)
  }

  /** A register read: the address phase ends in a repeated start, then one byte is read. */
  function ReadTrace(dev: bv8, reg: bv8): seq<Transaction>
  {
    [WriteTx(dev, [reg], true), ReadTx(dev)]
  }

  /** A register write: one transaction carrying the address and the data byte. */
  function WriteTrace(dev: bv8, reg: bv8, data: bv8): seq<Transaction>
  {
    [WriteTx(dev, [reg, data], false)]
  }

  /** Extending a log by a block of transactions is extending it by each part in turn. */
  lemma AppendAssoc(t: seq<Transaction>, a: seq<Transaction>, b: seq<Transaction>)
    ensures t + (a + b) == t + a + b
  {
  }

  /** A log extended step by step by six blocks is the first log extended by all six. */
  lemma ExtendedBySix(t0: seq<Transaction>, t1: seq<Transaction>, t2: seq<Transaction>, t3: seq<Transaction>,
                      t4: seq<Transaction>, t5: seq<Transaction>, t6: seq<Transaction>,
                      a: seq<Transaction>, b: seq<Transaction>, c: seq<Transaction>,
                      d: seq<Transaction>, f: seq<Transaction>, g: seq<Transaction>)
    requires t1 == t0 + a && t2 == t1 + b && t3 == t2 + c && t4 == t3 + d && t5 == t4 + f && t6 == t5 + g
    ensures t6 == t0 + (a + b + c + d + f + g)
  {
    AppendAssoc(t0, a + b + c + d + f, g);
    AppendAssoc(t0, a + b + c + d, f);
    AppendAssoc(t0, a + b + c, d);
    AppendAssoc(t0, a + b, c);
    AppendAssoc(t0, a, b);
  }

  /** The mbed I2C object together with the chip on it. */
  class Bus {
    var regs: RegisterFile
    /** The register chosen by an acknowledged address phase that ended in a repeated start. */
    var selected: Option<bv8>
    var trace: seq<Transaction>
    const env: Env

    constructor (initial: RegisterFile, environment: Env)
      ensures regs == initial && env == environment
      ensures selected == None && trace == []
    {
      regs := initial;
      selected := None;
      trace := [];
      env := environment;
    }

    /** `I2C::write`: status 0 on acknowledgement. */
    method Write(address: bv8, payload: seq<bv8>, repeated: bool) returns (status: int)
      modifies this
      ensures trace == old(trace) + [WriteTx(address, payload, repeated)]
      ensures status == 0 <==> env.ack(|old(trace)|)
      ensures regs == if env.ack(|old(trace)|) && |payload| >= 2
                      then ChipWrite(env, old(regs), payload[0], payload[1]) else old(regs)
      ensures selected == if env.ack(|old(trace)|) && repeated && |payload| == 1
                          then Some(payload[0]) else None
    {
      var acked := env.ack(|trace|);
      if acked && |payload| >= 2 {
        regs := ChipWrite(env, regs, payload[0], payload[1]);
      }
      selected := if acked && repeated && |payload| == 1 then Some(payload[0]) else None;
      status := if acked then 0 else 1;
      trace := trace + [WriteTx(address, payload, repeated)];
    }

    /**
     * `I2C::read` of one byte: status 0 on acknowledgement. The byte is the
     * selected register only when the read follows an acknowledged address
     * phase; otherwise it is indeterminate.
     */
    method Read(address: bv8) returns (status: int, data: bv8)
      modifies this
      ensures trace == old(trace) + [ReadTx(address)]
      ensures status == 0 <==> env.ack(|old(trace)|)
      ensures data == if env.ack(|old(trace)|) && old(selected).Some?
                      then old(regs)(old(selected).value) else env.junk(|old(trace)|)
      ensures regs == old(regs) && selected == None
    {
      var acked := env.ack(|trace|);
      data := if acked && selected.Some? then regs(selected.value) else env.junk(|trace|);
      status := if acked then 0 else 1;
      selected := None;
      trace := trace + [ReadTx(address)];
    }
  }
}
