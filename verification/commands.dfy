/**
 The JOY BUS command set and the driver's response to one command byte
 from the peer (`_processCommand`): the register side effects, the bytes
 sent back over the data channel, the serial interrupts raised and the
 cycles the transaction occupies on the link.
 */
module JoyCommands {
  import opened Bytes
  import opened JoyRegisters

  /** The link runs at 75 CPU cycles per bit. */
  const CyclesPerBit: int := 75
  /** A command byte and its stop bit. */
  const CommandBits: int := 8 + 1

  const CmdReset: bv8 := 0xFF
  const CmdPoll: bv8 := 0x00
  const CmdTrans: bv8 := 0x14
  const CmdRecv: bv8 := 0x15

  datatype Command = Reset | Poll | Trans | Recv | Unknown(code: bv8)

  predicate IsCommandCode(b: bv8) {
    b == CmdReset || b == CmdPoll || b == CmdTrans || b == CmdRecv
  }

  /** A command as it is written: `Unknown` never carries one of the four codes. */
  predicate Canonical(c: Command) {
    c.Unknown? ==> !IsCommandCode(c.code)
  }

  function Code(c: Command): bv8 {
    match c
    case Reset => CmdReset
    case Poll => CmdPoll
    case Trans => CmdTrans
    case Recv => CmdRecv
    case Unknown(b) => b
  }

  /** Reading a byte off the data channel as a command; no byte is rejected. */
  function Decode(b: bv8): (c: Command)
    ensures Code(c) == b
    ensures Canonical(c)
    ensures c.Unknown? <==> !IsCommandCode(b)
  {
    if b == CmdReset then Reset
    else if b == CmdPoll then Poll
    else if b == CmdTrans then Trans
    else if b == CmdRecv then Recv
    else Unknown(b)
  }

  /** Every command, written as its byte, is read back as itself. */
  lemma DecodeCode(c: Command)
    requires Canonical(c)
    ensures Decode(Code(c)) == c
  {
  }

  /**
   The effect of one command: the register file afterwards, the bytes sent
   to the peer, how many times the serial interrupt was raised, and the
   transaction's length in CPU cycles.
   */
  datatype Outcome = Outcome(regs: Registers, sent: seq<bv8>, irqs: nat, cycles: int)

  /** The serial interrupt is raised once when JOYCNT enables it, and not at all otherwise. */
  function InterruptCount(regs: Registers): (n: nat)
    ensures n <= 1
    ensures n == 1 <==> IrqEnabled(regs)
  {
    if IrqEnabled(regs) then 1 else 0
  }

  /** Poll's three-byte reply; Reset reuses it after its own side effects. */
  function PollResponse(regs: Registers, irqs: nat): (r: Outcome)
    ensures r.regs == regs && r.irqs == irqs
    ensures r.sent == [0x00, 0x04, Lo(regs.joyStat)]
    ensures r.cycles == 2550
  {
    var buffer := [0x00, 0x04, Lo(regs.joyStat)];
    Outcome(regs, buffer, irqs, (CommandBits + 24 + 1) * CyclesPerBit)
  }

  function PollCommand(regs: Registers): (r: Outcome)
    ensures r.regs == regs
    ensures r.irqs == 0
    ensures r.sent == [0x00, 0x04, Lo(regs.joyStat)]
    ensures r.cycles == 2550
  {
    PollResponse(regs, 0)
  }

  function ResetCommand(regs: Registers): (r: Outcome)
    ensures SetsOnly(regs.joyCnt, r.regs.joyCnt, CntReset)
    ensures r.regs == regs.(joyCnt := r.regs.joyCnt)
    ensures r.irqs == (if IrqEnabled(regs) then 1 else 0)
    ensures r.sent == PollCommand(regs).sent && r.cycles == PollCommand(regs).cycles
  {
    var regs' := regs.(joyCnt := regs.joyCnt | CntReset);
    PollResponse(regs', InterruptCount(regs'))
  }

  /** The peer sends four bytes that land, low byte first, in RECV_LO and RECV_HI. */
  function RecvCommand(regs: Registers, payload: Quad): (r: Outcome)
    ensures SetsOnly(regs.joyCnt, r.regs.joyCnt, CntRecv)
    ensures SetsOnly(regs.joyStat, r.regs.joyStat, StatRecv)
    ensures [Lo(r.regs.recvLo), Hi(r.regs.recvLo), Lo(r.regs.recvHi), Hi(r.regs.recvHi)] == payload
    ensures r.regs.transLo == regs.transLo && r.regs.transHi == regs.transHi
    ensures r.sent == [Lo(r.regs.joyStat)]
    ensures r.irqs == (if IrqEnabled(regs) then 1 else 0)
    ensures r.cycles == 3750
  {
    var regs' := regs.(
      joyCnt := regs.joyCnt | CntRecv,
      joyStat := regs.joyStat | StatRecv,
      recvLo := Join(payload[0], payload[1]),
      recvHi := Join(payload[2], payload[3]));
    Outcome(regs', [Lo(regs'.joyStat)], InterruptCount(regs'), (CommandBits + 40 + 1) * CyclesPerBit)
  }

  /** The driver hands TRANS_LO and TRANS_HI to the peer, low byte first, and marks them taken. */
  function TransCommand(regs: Registers): (r: Outcome)
    ensures SetsOnly(regs.joyCnt, r.regs.joyCnt, CntTrans)
    ensures ClearsOnly(regs.joyStat, r.regs.joyStat, StatTrans)
    ensures r.regs == regs.(joyCnt := r.regs.joyCnt, joyStat := r.regs.joyStat)
    ensures r.sent == [Lo(regs.transLo), Hi(regs.transLo), Lo(regs.transHi), Hi(regs.transHi), Lo(r.regs.joyStat)]
    ensures r.irqs == (if IrqEnabled(regs) then 1 else 0)
    ensures r.cycles == 3750
  {
    var regs' := regs.(joyCnt := regs.joyCnt | CntTrans, joyStat := regs.joyStat & !StatTrans);
    var buffer := [Lo(regs'.transLo), Hi(regs'.transLo), Lo(regs'.transHi), Hi(regs'.transHi), Lo(regs'.joyStat)];
    Outcome(regs', buffer, InterruptCount(regs'), (CommandBits + 40 + 1) * CyclesPerBit)
  }

  /**
   Dispatch on a command byte. `payload` stands for whatever the four-byte
   receive that follows a Recv command leaves in the buffer; no other
   command reads it.
   */
  function ProcessCommand(regs: Registers, command: bv8, payload: Quad): (r: Outcome)
    ensures Decode(command) == Reset ==> r == ResetCommand(regs)
    ensures Decode(command) == Poll ==> r == PollCommand(regs)
    ensures Decode(command) == Recv ==> r == RecvCommand(regs, payload)
    ensures Decode(command) == Trans ==> r == TransCommand(regs)
    // An unrecognised byte costs only its own framing and does nothing else.
    ensures !IsCommandCode(command) ==> r == Outcome(regs, [], 0, 675)
    ensures r.cycles == (if IsCommandCode(command) then (if command == CmdRecv || command == CmdTrans then 3750 else 2550) else 675)
    ensures r.irqs <= 1 && |r.sent| <= 5
  {
    match Decode(command)
    case Reset => ResetCommand(regs)
    case Poll => PollCommand(regs)
    case Recv => RecvCommand(regs, payload)
    case Trans => TransCommand(regs)
    case Unknown(_) => Outcome(regs, [], 0, CommandBits * CyclesPerBit)
  }

  /** The peer rebuilds TRANS_LO and TRANS_HI exactly from the first four bytes Trans sends. */
  lemma TransSendsRegisters(regs: Registers)
    ensures var sent := TransCommand(regs).sent;
            Join(sent[0], sent[1]) == regs.transLo && Join(sent[2], sent[3]) == regs.transHi
  {
    SplitJoin(regs.transLo);
    SplitJoin(regs.transHi);
  }

  /** For example, LO = 0x1234, HI = 0x5678 and JOYSTAT = 0x20 go out as 34 12 78 56 20. */
  lemma TransExample(regs: Registers)
    requires regs.transLo == 0x1234 && regs.transHi == 0x5678 && regs.joyStat == 0x20
    ensures ProcessCommand(regs, CmdTrans, [0, 0, 0, 0]).sent == [0x34, 0x12, 0x78, 0x56, 0x20]
  {
  }

  /**
   A Recv followed by a Trans, with the CPU copying RECV_LO/HI into
   TRANS_LO/HI in between, echoes the four payload bytes back to the peer.
   */
  lemma RecvTransEcho(regs: Registers, payload: Quad)
    ensures var received := RecvCommand(regs, payload).regs;
            var echoed := TransCommand(received.(transLo := received.recvLo, transHi := received.recvHi));
            echoed.sent[..4] == payload
  {
    var received := RecvCommand(regs, payload).regs;
    var echoed := TransCommand(received.(transLo := received.recvLo, transHi := received.recvHi));
    SplitJoin(received.recvLo);
    SplitJoin(received.recvHi);
    assert echoed.sent[..4] == [echoed.sent[0], echoed.sent[1], echoed.sent[2], echoed.sent[3]];
  }
}
