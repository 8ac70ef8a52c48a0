# Si7210 Hall-sensor driver, modelled in Dafny

This project models the mbed C++ driver for the Silicon Labs Si7210 digital
Hall-effect sensor (`src/si7210.cpp`, `src/si7210.h`) and its byte-to-binary
string helper (`src/utility.h`), and proves what each operation does to the chip.

The chip is a 256-byte register file (`Transport.RegisterFile`, a total
function from byte to byte) plus a factory-programmed OTP memory. The OTP
memory can only be read through the OTP address, control and data registers.
The I2C bus is a log of transactions (`Transport.Transaction`). The
environment (`Transport.Env`) decides three things:

- whether transaction number n, its position in the log, is acknowledged;
- what the OTP memory holds;
- every byte the driver cannot know, such as the result of a read that was
  not acknowledged, or the byte wake-up sends from a bad pointer.

The modules follow the source:

- `Registers` (registers.dfy) holds the register map, bit masks, enums and
  structs of `si7210.h`. It also holds the OTP calibration table that
  `setRange`'s six branches spell out.
- `Conversions` (conversions.dfy) holds the pure parts of `si7210.cpp`:
  - identity decoding;
  - the field-strength arithmetic, with C++ truncating division;
  - the filter-register encoding.
- `Transport` (transport.dfy) models the mbed `I2C` object and the chip
  behind it. The class `Transport.Bus` has `Write` and `Read` methods, which
  append to the log and update the register file.
- `Protocol` (protocol.dfy) gives, for each driver operation, a function
  `...Run` of the register file and the log position. It returns the register
  file afterwards, the transactions issued and the value returned. Its lemmas
  state what each exchange achieves, whatever the bus does and when every
  transaction is acknowledged.
- `Driver` (driver.dfy) holds the class `Si7210`:
  - the fields of the C++ object;
  - one method per member function, written as the same sequence of register
    reads and writes.

  Each method is proved to leave exactly the register file and log that its
  `Protocol` function describes.
- `Utility` (utility.dfy) holds `hexToBinaryStr`.

Points where the model follows the code more closely than the comments in
`si7210.h` describe it:

- The header documents `readRegister` as returning true on success
  (src/si7210.h:142-149). The code returns only the acknowledgement of the
  data phase (src/si7210.cpp:52), so a failed address phase with an
  acknowledged data phase is reported as success.
- `setMode` switches on the saved `mode` field and ignores its argument
  (src/si7210.cpp:160).
- `setRange` does not save the range and magnet it loads, and
  `getFieldStrength` converts with the saved range (src/si7210.cpp:147).
- The model does not say whether a failed read leaves the caller's byte
  unchanged. `Env.junk` stands for whatever the byte then holds.

## Model

| member | source | states |
|---|---|---|
| Registers.BusAddress | src/si7210.cpp:15 | the 8-bit bus address is the 7-bit address shifted left once: its R/W bit is clear and its value is twice the address modulo 256 |
| Registers.Afe | src/si7210.h:30-36 | each coefficient register A0..A5 lies in 0xCA..0xD0 and is never the filter register 0xCD |
| Registers.AfeAddress | src/si7210.h:30-36 | A0..A2 are 0xCA..0xCC and A3..A5 are 0xCE..0xD0 |
| Registers.AfeSkipsFilterRegister | src/si7210.h:30-36 | A0..A5 are strictly increasing and all differ from 0xCD |
| Registers.OtpBase | src/si7210.cpp:193-369 | the OTP block of each (range, magnet) pair starts at 0x21 + 6 × its position in the magnet-major order (0x21, 0x27, 0x2D, 0x33, 0x39, 0x3F) |
| Registers.ExactlySixPairs | src/si7210.h:49-61 | every (range, magnet) pair is one of exactly six, so the final `else` of setRange is unreachable |
| Registers.CalibrationBlocksDisjoint | src/si7210.cpp:193-369 | two different pairs own non-overlapping six-byte OTP blocks |
| Registers.CalibrationBlocksContiguous | src/si7210.cpp:193-369 | every OTP address in 0x21..0x44 lies in some pair's block |
| Registers.DumpAddressRanges | src/si7210.cpp:386-406 | the dump has 21 addresses: entry i is 0xC0 + i for i < 17, then 0xE1..0xE4 |
| Conversions.ChipId | src/si7210.cpp:75-80 | the chip id is the identity byte divided by 16, below 16 |
| Conversions.RevId | src/si7210.cpp:82-92 | the revision id as computed clears bit 4 only: it is the identity byte minus 16 when bit 4 is set, and the byte itself otherwise |
| Conversions.RevIdIntended | src/si7210.h:164-165 | the documented revision id is the identity byte modulo 16 |
| Conversions.IsGood | src/si7210.cpp:95-108 | the part is good exactly when its chip id is 0x1 and its documented revision id is 0x4 |
| Conversions.IdentityNibbles | src/si7210.h:20 | chip id × 16 + revision id gives back the identity byte |
| Conversions.GoodMeansDocumentedIds | src/si7210.cpp:95-108 | checkGood holds exactly when the driver's own getChipId is 0x1 and getRevId is 0x4 |
| Conversions.GoodPartIdentity | src/si7210.h:161-165 | 0x14 decodes to chip id 0x1 and revision id 0x4 and is accepted |
| Conversions.RevIdKeepsUpperBits | src/si7210.cpp:87-91 | identity byte 0x24 gives the driver's revision id 0x24, where the documented revision id is 0x04 |
| Conversions.TruncDiv | src/si7210.cpp:150-152 | C++ division rounds toward zero: the remainder has the sign of the dividend and is smaller than the divisor |
| Conversions.RawField | src/si7210.cpp:143-145 | the raw reading lies in [-16384, 16384); shifted by 16384 its high byte is DSPSIGM without the fresh bit and its low byte is DSPSIGL |
| Conversions.FieldStrength | src/si7210.cpp:147-155 | the 20 mT result is 5/4 of the raw reading and the 200 mT result is 25/2 of it, each rounded toward zero |
| Conversions.FreshBitIgnored | src/si7210.cpp:143-145 | bit 7 of DSPSIGM never changes the reading |
| Conversions.FieldStrengthOdd | src/si7210.cpp:150-152 | negating the raw reading negates the result |
| Conversions.FieldStrengthBounds | src/si7210.cpp:131-156 | readings lie in [-20480, 20478] uT at 20 mT and in [-204800, 204787] uT at 200 mT |
| Conversions.FieldStrengthExamples | src/si7210.cpp:145-152 | 0x40 0x00 reads as 0; full scale at 200 mT is 204787; raw -1 at 20 mT gives -1 |
| Conversions.TypeBit | src/si7210.h:45-46 | the filter-type bit is 0 for FIR and 1 for IIR |
| Conversions.EncodeFilter | src/si7210.cpp:418-462 | a setting is accepted exactly when it is "no filter" or its burst size is at most 12. No filter and a rejected setting write 0. Otherwise bit 0 is the type bit and bits 7:1 hold the burst size modulo 128 |
| Conversions.ShiftedBurst | src/si7210.cpp:438-439 | the burst size shifted left and truncated to a byte has bit 0 clear and the burst size modulo 128 above it |
| Conversions.FilterRoundTrip | src/si7210.cpp:429-457 | an FIR or IIR setting with burst size 0..12 is accepted, fits bits 4:0 and decodes back to itself |
| Conversions.NoFilterIsSingleSampleFir | src/si7210.cpp:424-441 | "no filter" writes the same byte as FIR with burst size 0 |
| Conversions.FilterExamples | src/si7210.cpp:418-462 | FIR 5 writes 0x0A, IIR 5 writes 0x0B, FIR 13 writes 0 and is refused, IIR -1 writes 0xFF and is accepted, and the default filter writes 0 |
| Protocol.SleepEffect | src/si7210.cpp:110-119 | sleep issues six transactions and changes only 0xC9 and 0xC4. Whatever it stores has the idle-timer enable clear and the sleep code 0b001 in bits 2:0. With every transaction acknowledged the other bits are kept. Only the final write's acknowledgement is returned |
| Protocol.ModeEffect | src/si7210.cpp:158-191 | one-burst issues nothing, changes nothing and returns false. Continuous conversion issues nine transactions, returns true whatever the bus does, and changes only 0xC9, 0xC8 and 0xC4. Whatever it stores has bit 1 set and bit 0 clear in 0xC9, zero in 0xC8 and bits 1:0 clear in 0xC4. With every transaction acknowledged the result is exactly ContinuousRegs |
| Protocol.ContinuousRegsBits | src/si7210.cpp:167-183 | continuous conversion keeps every other bit of 0xC9 and 0xC4 |
| Protocol.ModeIdempotent | src/si7210.cpp:158-184 | with its transactions acknowledged, applying the mode a second time leaves the same register file as applying it once |
| Protocol.CopyShape | src/si7210.cpp:200-203 | one copy step writes the OTP address, enables the OTP read, reads the OTP data register and writes the byte read to the destination, and returns that write's acknowledgement |
| Protocol.CopyFrame | src/si7210.cpp:200-203 | a copy step changes only the OTP register triple and its destination |
| Protocol.CopyAcked | src/si7210.cpp:200-203 | with every transaction acknowledged, a copy step leaves OTP byte src in the destination and in the OTP data register |
| Protocol.OtpAddressValue | src/si7210.cpp:200-220 | the OTP address of step i is the block base plus i |
| Protocol.RangeStepsShape | src/si7210.cpp:198-224 | step i of a calibration copies OTP byte base + i into A_i, in the order A0..A5 |
| Protocol.RangeStepsOk | src/si7210.cpp:223 | a calibration returns the acknowledgement of its last write only |
| Protocol.RangeRegsFrame | src/si7210.cpp:198-224 | a calibration changes no register outside the OTP triple and A0..A5, whatever the bus does |
| Protocol.RangeRegsCalibrate | src/si7210.cpp:198-224 | with every transaction acknowledged, A_i holds OTP byte base + i |
| Protocol.RangeShape | src/si7210.cpp:193-369 | setRange issues 30 transactions, six copy steps from the pair's block into A0..A5, and returns the last write's acknowledgement |
| Protocol.RangeCalibrates | src/si7210.cpp:193-369 | setRange changes nothing outside the OTP triple and A0..A5. With every transaction acknowledged, A0..A5 equal the pair's six OTP bytes |
| Protocol.FilterEffect | src/si7210.cpp:418-462 | setFilter writes the encoded byte to 0xCD in one transaction and changes nothing else. It succeeds exactly when the setting is accepted and the write is acknowledged |
| Protocol.InitShape | src/si7210.cpp:26-31 | init issues the mode's transactions, then the calibration's 30, then the filter write last |
| Protocol.InitConfigures | src/si7210.cpp:26-31 | with every transaction acknowledged, init leaves the encoded filter in 0xCD, the pair's OTP bytes in A0..A5, and the mode bits for continuous conversion. Under one-burst, 0xC9, 0xC8 and 0xC4 are untouched |
| Protocol.ModeAcked | src/si7210.cpp:158-191 | with its transactions acknowledged, setMode leaves ContinuousRegs, or the unchanged file for one-burst |
| Protocol.InitAcked | src/si7210.cpp:26-31 | the filter write after the calibration keeps A0..A5 and the mode registers |
| Protocol.WakeupLeavesConfigurationUnrestored | src/si7210.cpp:121-129 | as written, wake-up issues one transaction and returns, so a filter register that lost its setting keeps the wrong value |
| Protocol.WakeupRestoreReapplies | src/si7210.cpp:121-129 | wake-up followed by init returns the pulse's acknowledgement. With every transaction acknowledged it restores the filter, the calibration and the mode bits |
| Protocol.AsWrittenVisitsAll | src/si7210.cpp:410 | the loop as written, continuing while the index is at most the size, visits size + 1 - i indices from index i, the k-th being i + k |
| Protocol.DumpLoopReadsPastEnd | src/si7210.cpp:410-413 | the loop as written makes 22 visits over a 21-entry vector, the last at index 21, which is out of range |
| Driver.Si7210.constructor | src/si7210.cpp:11-22 | saves the bus, both addresses and the configuration, then leaves exactly the register file and log of InitRun |
| Driver.Si7210.Init | src/si7210.cpp:26-31 | mode, then range and magnet, then filter: exactly InitRun |
| Driver.Si7210.ReadRegister | src/si7210.cpp:37-53 | an address phase ending in a repeated start and then a one-byte read. The byte is the register's when both phases are acknowledged. Only the data phase's acknowledgement is returned, and no register changes |
| Driver.Si7210.WriteRegister | src/si7210.cpp:59-73 | one transaction carrying the register and the byte. It stores the byte when acknowledged and returns the acknowledgement |
| Driver.Si7210.GetChipId | src/si7210.cpp:75-80 | ChipId of the byte read from 0xC0 |
| Driver.Si7210.GetRevId | src/si7210.cpp:82-92 | RevId, bit 4 cleared only, of the byte read from 0xC0 |
| Driver.Si7210.CheckGood | src/si7210.cpp:95-108 | IsGood of the byte read from 0xC0 |
| Driver.Si7210.Sleep | src/si7210.cpp:110-119 | exactly SleepRun: register file, log and return value |
| Driver.Si7210.Wakeup | src/si7210.cpp:121-129 | as written: one write pulse carrying an indeterminate byte, returning its acknowledgement, with no re-initialisation |
| Driver.Si7210.WakeupAndRestore | src/si7210.cpp:121-129 | as intended: the pulse and then init, exactly WakeupRestoreRun |
| Driver.Si7210.GetFieldStrength | src/si7210.cpp:133-156 | reads DSPSIGM then DSPSIGL and returns FieldStrength of their RawField under the saved range, changing no register |
| Driver.Si7210.SetMode | src/si7210.cpp:158-191 | exactly ModeRun for the saved mode |
| Driver.Si7210.CopyOtpByte | src/si7210.cpp:200-203 | exactly CopyRun: one four-call copy group |
| Driver.Si7210.SetRange | src/si7210.cpp:193-374 | exactly RangeRun: six copy groups from the pair's OTP block |
| Driver.Si7210.SetFilter | src/si7210.cpp:418-462 | exactly FilterRun: one write of the encoded byte, failing for a rejected setting |
| Driver.Si7210.I2cMemDump | src/si7210.cpp:376-416 | 21 entries in dump order, each the address paired with the byte read there; the log is the 21 reads, and no register changes |
| Utility.HexToBinaryStr | src/utility.h:23-27 | eight characters, each '0' or '1' |
| Utility.MostSignificantFirst | src/utility.h:25-26 | character i is '1' exactly when bit 7 - i of the byte is set |
| Utility.ParseRoundTrip | src/utility.h:23-27 | reading the string back in base 2 gives the byte |
| Utility.Injective | src/utility.h:23-27 | different bytes give different strings |
| Utility.RevisionExample | src/utility.h:23-27 | 0x04 prints as "00000100" |
| Utility.ExtremeExamples | src/utility.h:23-27 | 0x00 prints as "00000000" and 0xFF as "11111111" |

## Left out

- The electrical framing of I2C (START, repeated START, ACK bits, STOP) is
  left to mbed. Each bus call is one transaction whose acknowledgement
  `Env.ack` decides.
- OTP busy polling and timing are not modelled. The driver never waits on the
  busy bit, so an enabled OTP read completes at once.
- Measurement is not modelled: the chip never changes its own registers, so
  DSPSIGM/DSPSIGL read as whatever the register file holds.
- Driver.Si7210.Wakeup: the byte sent comes from casting the integer 0xC0 to
  a pointer, which is undefined behaviour. It is modelled as the
  indeterminate byte `Env.junk` at that log position.
- Conversions.ShiftedBurst: `burstsize << 1` on a negative `int` is undefined
  before C++20. It is modelled as two's complement, truncated to a byte.
- Conversions.EncodeFilter: the documented IIR limit of 0-7 is not enforced,
  because the code checks only `> 12` for both filter types.
- Driver.Si7210.SetRange: the six branches, each six inline copy groups, are
  modelled as the OtpBase table and a loop of six CopyOtpByte calls. The
  unreachable final `else`, which returns false, is absent because the
  enums have no other values.
- Driver.Si7210.GetFieldStrength: the `default` branch returning 0 is
  absent, because the range enum has no third value.
- Driver.Si7210.I2cMemDump: `si7210_register_t.addr` is an `int` in C++ and
  a byte here, since every stored address fits in a byte. `shrink_to_fit`
  has no observable effect and is left out. The 21 address assignments are
  one update from the address table.
- Transport.Bus: one chip per bus. The device address is logged but does
  not select a register file, so other devices on a shared bus, or two
  driver objects on one bus, are not modelled as separate chips.
- The destructor, `src/main.cpp` (a timing and printing harness),
  `src/Printer.h` (serial output) and the on-target unit tests are not part
  of this model.

## Findings

| source | as written | input that shows it | evidently intended | confidence | as-written member | corrected member |
|---|---|---|---|---|---|---|
| src/si7210.cpp:87-91 | `temp & ~(0x1 << 4)` clears bit 4 only, so the chip id bits 7:5 stay in the revision id | identity byte 0x24 gives 0x24 | the low nibble, `temp & 0x0F` (0x04 for 0x24), as the comment and the header document | high (not executed) | Conversions.RevIdKeepsUpperBits | Conversions.RevIdIntended |
| src/si7210.cpp:125-128 | wake-up returns the pulse's result before the `init()` that should re-apply the saved configuration | any filter register whose content differs from the saved filter | pulse, then init | high (not executed) | Protocol.WakeupLeavesConfigurationUnrestored | Protocol.WakeupRestoreReapplies |
| src/si7210.cpp:410 | the read loop runs `i <= registers.size()`, reading `registers[21]` of a 21-entry vector | any call: the 22nd iteration indexes past the end | `i < registers.size()` | high (not executed) | Protocol.DumpLoopReadsPastEnd | Driver.Si7210.I2cMemDump |
