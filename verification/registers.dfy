/**
 The slice of the console's I/O register file that the JOY BUS driver
 touches, and the driver's interception of CPU writes to it
 (`GBASIODolphinWriteRegister`).
 */
module JoyRegisters {

  /** Offsets of the JOY BUS registers in the console's I/O map. */
  const RegJoyCnt: bv32 := 0x140
  const RegJoyTransLo: bv32 := 0x154
  const RegJoyTransHi: bv32 := 0x156
  const RegJoyStat: bv32 := 0x158

  /** JOYCNT: device reset, receive complete and send complete flags, and the interrupt enable. */
  const CntReset: bv16 := 0x01
  const CntRecv: bv16 := 0x02
  const CntTrans: bv16 := 0x04
  const CntFlags: bv16 := 0x07
  const CntIrqEnable: bv16 := 0x40

  /** JOYSTAT: receive-data flag, send-data flag and the two general-purpose bits the CPU owns. */
  const StatRecv: bv16 := 0x02
  const StatTrans: bv16 := 0x08
  const StatGeneral: bv16 := 0x30

  /** The two halves of the outgoing payload. */
  predicate IsTransmitRegister(address: bv32) {
    address == RegJoyTransLo || address == RegJoyTransHi
  }

  datatype Registers = Registers(
    joyCnt: bv16,
    joyStat: bv16,
    transLo: bv16,
    transHi: bv16,
    recvLo: bv16,
    recvHi: bv16)

  predicate IrqEnabled(regs: Registers) {
    regs.joyCnt & CntIrqEnable != 0
  }

  /** `after` agrees with `before` on every bit outside `mask`. */
  predicate SameOutside(before: bv16, after: bv16, mask: bv16) {
    before & !mask == after & !mask
  }

  /** `after` is `before` with the bits of `mask` set and nothing else changed. */
  predicate SetsOnly(before: bv16, after: bv16, mask: bv16) {
    after & mask == mask && SameOutside(before, after, mask)
  }

  /** `after` is `before` with the bits of `mask` cleared and nothing else changed. */
  predicate ClearsOnly(before: bv16, after: bv16, mask: bv16) {
    after & mask == 0 && SameOutside(before, after, mask)
  }

  /** Bit `i` of a register; a `bv4` index ranges over exactly the sixteen bits. */
  predicate Bit(w: bv16, i: bv4) {
    (w >> i) & 1 == 1
  }

  /**
   What an intercepted write leaves behind: the value the console then
   stores at the written address, and the register file as the driver
   left it before that store.
   */
  datatype WriteOutcome = WriteOutcome(stored: bv16, regs: Registers)

  /** The JOYCNT value stored for a CPU write of `value` over `prior`. */
  function JoyCntStore(prior: bv16, value: bv16): (w: bv16)
    ensures w & CntIrqEnable == value & CntIrqEnable
    ensures w & CntFlags == prior & CntFlags & !value
    ensures SameOutside(prior, w, CntFlags | CntIrqEnable)
  {
    (value & CntIrqEnable) | (prior & !(value & CntFlags) & !CntIrqEnable)
  }

  /** The JOYSTAT value stored for a CPU write of `value` over `prior`. */
  function JoyStatStore(prior: bv16, value: bv16): (w: bv16)
    ensures w & StatGeneral == value & StatGeneral
    ensures SameOutside(prior, w, StatGeneral)
  {
    (value & StatGeneral) | (prior & !StatGeneral)
  }

  /**
   The interception of a CPU write: JOYCNT and JOYSTAT are filtered by their
   store rules and leave the file alone; a write to either transmit half is
   stored as given and raises the send-data flag; any other address passes
   through untouched.
   */
  function WriteRegister(regs: Registers, address: bv32, value: bv16): (r: WriteOutcome)
    ensures address == RegJoyCnt ==> r == WriteOutcome(JoyCntStore(regs.joyCnt, value), regs)
    ensures address == RegJoyStat ==> r == WriteOutcome(JoyStatStore(regs.joyStat, value), regs)
    ensures IsTransmitRegister(address) ==>
              && r.stored == value
              && SetsOnly(regs.joyStat, r.regs.joyStat, StatTrans)
              && r.regs == regs.(joyStat := r.regs.joyStat)
    ensures address != RegJoyCnt && address != RegJoyStat && !IsTransmitRegister(address) ==>
              r == WriteOutcome(value, regs)
    // Only a transmit write changes the register file, and then only JOYSTAT.
    ensures r.regs.(joyStat := regs.joyStat) == regs
  {
    if address == RegJoyCnt then
      WriteOutcome(JoyCntStore(regs.joyCnt, value), regs)
    else if address == RegJoyStat then
      WriteOutcome(JoyStatStore(regs.joyStat, value), regs)
    else if IsTransmitRegister(address) then
      WriteOutcome(value, regs.(joyStat := regs.joyStat | StatTrans))
    else
      WriteOutcome(value, regs)
  }

  /**
   The same JOYCNT write, bit by bit: bits 0-2 stay set only when they were
   set and the write left them 0, bit 6 is the written bit, and every other
   bit is the stored one.
   */
  lemma JoyCntWriteBits(regs: Registers, value: bv16, i: bv4)
    ensures var w := WriteRegister(regs, RegJoyCnt, value).stored;
            Bit(w, i) == if i < 3 then Bit(regs.joyCnt, i) && !Bit(value, i)
                         else if i == 6 then Bit(value, i)
                         else Bit(regs.joyCnt, i)
  {
  }

  /** The same JOYSTAT write, bit by bit: bits 4 and 5 are the written ones, all others the stored ones. */
  lemma JoyStatWriteBits(regs: Registers, value: bv16, i: bv4)
    ensures var w := WriteRegister(regs, RegJoyStat, value).stored;
            Bit(w, i) == if i == 4 || i == 5 then Bit(value, i) else Bit(regs.joyStat, i)
  {
  }

  /**
   Writing back the JOYCNT value just read acknowledges every pending flag
   and keeps the interrupt enable as it was.
   */
  lemma AcknowledgeAll(regs: Registers)
    ensures var w := WriteRegister(regs, RegJoyCnt, regs.joyCnt).stored;
            w & CntFlags == 0 && w & CntIrqEnable == regs.joyCnt & CntIrqEnable
  {
  }

  /** A JOYSTAT write is idempotent: writing the same value twice stores what one write stores. */
  lemma JoyStatWriteIdempotent(regs: Registers, value: bv16)
    ensures var once := WriteRegister(regs, RegJoyStat, value).stored;
            WriteRegister(regs.(joyStat := once), RegJoyStat, value).stored == once
  {
  }
}
