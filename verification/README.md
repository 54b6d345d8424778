# JOY BUS link driver — a Dafny model

This project models the "Dolphin" serial-link driver of the mGBA emulator
(`src/gba/sio/dolphin.c`). The driver serves the emulated handheld's serial
port while it is in JOY BUS mode and bridges it to a remote host over two TCP channels:

- the **data channel** brings one-byte commands from the host and carries the replies back;
- the **clock channel** brings 4-byte big-endian grants of CPU cycles.

The model has three parts. Each is a pure function over an immutable state:

- **Register-write interception** (`JoyRegisters.WriteRegister`). A CPU write
  to JOYCNT, JOYSTAT or a transmit register is filtered before the console
  stores it. JOYCNT flags are write-one-to-clear. Only bits 4-5 of JOYSTAT are
  writable. A transmit write raises the JOYSTAT send flag.
- **Command dispatch** (`JoyCommands.ProcessCommand`). The driver handles
  Reset (0xFF), Poll (0x00), Trans (0x14), Recv (0x15) and any other byte.
  Reset, Recv and Trans change registers. Each of the four codes sends an
  exact byte string, and any other byte does neither. Every command raises
  the serial interrupt at most once and costs `(9 + extra bits) × 75` cycles.
  Reset shares Poll's reply through `PollResponse`.
- **Cycle-budget scheduling** (`Dolphin.ProcessEvents`, `Dolphin.Load`). This
  part keeps two signed countdowns, `nextEvent` and `clockSlice`. It takes a
  clock grant only when the budget is spent, and it adds a command's cost or
  the idle grain of 600 cycles. The result is clamped so the driver never
  asks to run past its budget.

The non-blocking socket reads of one scheduler call become the fields of a
`Tick` input:

- the elapsed cycles;
- what the clock channel yields: not readable, a short read, or a full grant;
- the optional command byte;
- the four bytes a Recv leaves in its buffer. A short read leaves arbitrary
  contents, so any four bytes are allowed.

The bytes sent, the interrupt count and the returned cycles are fields of the
`Step` result.

Modules: `Bytes` (`bytes.dfy`: byte splitting, big-endian signed grants),
`JoyRegisters` (`registers.dfy`), `JoyCommands` (`commands.dfy`) and
`Dolphin` (`driver.dfy`).

The register offsets (JOYCNT 0x140, TRANS_LO/HI 0x154/0x156, JOYSTAT
0x158) are those of the console's I/O map. `gba/io.h`,
where they are defined, is not part of this model.

Transaction costs and status flags, as `dolphin.c` has them:

- `bitsOnLine` starts at 9 (the command byte and its stop bit), and Reset
  and Poll add 25 while Recv and Trans add 41. At 75 cycles per bit, Reset
  and Poll cost 2550 cycles, Recv and Trans 3750, and an unknown byte 675.
- Recv sets JOYSTAT bit 1 (dolphin.c:160) and Trans clears JOYSTAT bit 3
  (dolphin.c:173).

## Model

| member | source | states |
|---|---|---|
| Bytes.Join | src/gba/sio/dolphin.c:162-163 | A receive register built from two bytes gives back exactly those bytes as its low and high byte |
| Bytes.SplitJoin | src/gba/sio/dolphin.c:174-177 | A register is the little-endian join of the low and high bytes Trans sends, so no bit is lost |
| Bytes.DecodeGrant | src/gba/sio/dolphin.c:121-123 | The grant read from four network-order bytes is a signed 32-bit value congruent, modulo 2^32, to their big-endian value |
| Bytes.GrantRoundTrip | src/gba/sio/dolphin.c:121-123 | Every signed 32-bit grant a peer writes in network order is decoded to itself |
| Bytes.BytesRoundTrip | src/gba/sio/dolphin.c:121-122 | Every four bytes on the clock channel are the encoding of the grant they decode to, so no two byte strings give the same grant |
| JoyRegisters.JoyCntStore | src/gba/sio/dolphin.c:100-101 | A JOYCNT write stores bit 6 as written, clears each of bits 0-2 written as 1 and keeps the rest, and keeps every other bit as stored |
| JoyRegisters.JoyStatStore | src/gba/sio/dolphin.c:102-103 | A JOYSTAT write stores bits 4-5 as written and every other bit as stored |
| JoyRegisters.WriteRegister | src/gba/sio/dolphin.c:97-110 | JOYCNT and JOYSTAT writes go through their store rules and leave the file unchanged. A TRANS_LO/HI write is stored as given and sets only JOYSTAT bit 3. Any other address passes through with no change. Only JOYSTAT can ever change |
| JoyRegisters.JoyCntWriteBits | src/gba/sio/dolphin.c:100-101 | Per bit: after a JOYCNT write, bits 0-2 are set iff they were set and written 0; bit 6 is the written bit; every other bit is the stored bit |
| JoyRegisters.JoyStatWriteBits | src/gba/sio/dolphin.c:102-103 | Per bit: after a JOYSTAT write, bits 4 and 5 are the written bits and every other bit is the stored bit |
| JoyRegisters.AcknowledgeAll | src/gba/sio/dolphin.c:100-101 | Writing back the JOYCNT value just read clears all three event flags and keeps the interrupt enable |
| JoyRegisters.JoyStatWriteIdempotent | src/gba/sio/dolphin.c:102-103 | Writing the same value to JOYSTAT twice stores what one write stores |
| JoyCommands.Decode | src/gba/sio/dolphin.c:16-20 | Every byte reads as a command whose code is that byte; it is unknown exactly when it is none of 0xFF, 0x00, 0x14, 0x15 |
| JoyCommands.DecodeCode | src/gba/sio/dolphin.c:16-20 | Every command written as its byte reads back as itself |
| JoyCommands.InterruptCount | src/gba/sio/dolphin.c:147-149 | The serial interrupt is raised once iff JOYCNT bit 6 is set, never more |
| JoyCommands.PollResponse | src/gba/sio/dolphin.c:151-157 | The shared Poll reply sends 00 04 and the low byte of JOYSTAT, keeps the registers and costs 2550 cycles |
| JoyCommands.PollCommand | src/gba/sio/dolphin.c:151-157 | Poll changes no register, raises no interrupt, sends 00 04 and the JOYSTAT low byte, and costs 2550 cycles |
| JoyCommands.ResetCommand | src/gba/sio/dolphin.c:145-157 | Reset sets only JOYCNT bit 0 and changes no other register. It raises the interrupt once iff bit 6 is set, and sends the same bytes at the same cost as Poll |
| JoyCommands.RecvCommand | src/gba/sio/dolphin.c:158-170 | Recv sets only JOYCNT bit 1 and only JOYSTAT bit 1. The four payload bytes land low byte first in RECV_LO and RECV_HI, and the transmit registers are kept. It sends the new JOYSTAT low byte, raises the interrupt once iff bit 6 is set, and costs 3750 cycles |
| JoyCommands.TransCommand | src/gba/sio/dolphin.c:171-184 | Trans sets only JOYCNT bit 2, clears only JOYSTAT bit 3 and keeps every other register. It sends five bytes: TRANS_LO, then TRANS_HI, each low byte first, then the new JOYSTAT low byte. It raises the interrupt once iff bit 6 is set and costs 3750 cycles |
| JoyCommands.TransSendsRegisters | src/gba/sio/dolphin.c:174-177 | The peer rebuilds TRANS_LO and TRANS_HI exactly from the first four bytes Trans sends, each pair read low byte first |
| JoyCommands.ProcessCommand | src/gba/sio/dolphin.c:140-187 | Each of the four codes runs its command. Any other byte changes nothing, sends nothing, raises nothing and costs 675 cycles. The cost is 2550 for Reset and Poll and 3750 for Recv and Trans. At most one interrupt and at most five bytes per command |
| JoyCommands.TransExample | src/gba/sio/dolphin.c:171-179 | With TRANS_LO 0x1234, TRANS_HI 0x5678 and JOYSTAT 0x20, Trans sends 34 12 78 56 20 |
| JoyCommands.RecvTransEcho | src/gba/sio/dolphin.c:158-179 | If the CPU copies the receive registers into the transmit registers after a Recv, the next Trans sends the received four bytes back unchanged |
| Dolphin.Load | src/gba/sio/dolphin.c:90-95 | Loading zeroes both counters, keeps the registers and starts inside the budget |
| Dolphin.GrantOf | src/gba/sio/dolphin.c:118-124 | A full four-byte clock read grants the signed 32-bit value of those bytes in network order. No read or a short read grants 0 |
| Dolphin.ProcessEvents | src/gba/sio/dolphin.c:112-138 | Both counters drop by the elapsed cycles. If the countdown is still positive it is returned, with nothing read, sent or raised. Otherwise the clock is polled iff the budget is spent, and only a full grant moves the budget. The command's effect and cost (or the 600-cycle idle grain) are applied, clamped so the result never exceeds the budget. The budget invariant is preserved |
| Dolphin.RunWithinBudget | src/gba/sio/dolphin.c:112-138 | Starting inside the budget, over any sequence of calls and any peer behaviour, every returned cycle count stays within the budget left after that call |
| Dolphin.IdleGrantExample | src/gba/sio/dolphin.c:112-138 | After Load, a 1000-cycle grant with an idle data channel returns 600, then 400 (clamped), then 0 once the budget is spent; the clock is polled only on the first and third calls |
| Dolphin.ShortReadKeepsBudget | src/gba/sio/dolphin.c:119-124 | A short read on the clock channel leaves the budget where the countdown put it |

## Left out

- `GBASIODolphinCreate`, `GBASIODolphinDestroy` and `GBASIODolphinConnect` (dolphin.c:31-88) are left out. `GBASIODolphinCreate` installs the `load`, `writeRegister` and `processEvents` callbacks (dolphin.c:32-37) that the model's `Load`, `WriteRegister` and `ProcessEvents` stand for; otherwise the three only open, configure and close TCP sockets. The one rule they hold: a zero port means the default, 54970 for data and 49420 for clock.
- `SocketPoll`, `SocketRecv` and `SocketSend` are not modelled. Their results are `Tick` inputs. `sent` holds the bytes handed to `SocketSend`; a short or failed send is not retried by the source, so the model does not track it.
- `GBARaiseIRQ` and the interrupt controller are external. The model only counts raised interrupts in `irqs`.
- Only the six JOY BUS registers of the console's I/O file are modelled. The rest of the register file and the console model are out of scope.
- Dolphin.ProcessEvents: does not model the 32-bit wrap-around of `nextEvent`, `clockSlice` or the addition of a grant. The counters are unbounded integers, so an overflowing sum is not reproduced.
- Dolphin.Load: the source always returns `true`. The model returns only the new state.
- The constant `CMD_NONE` (0x80) is declared but never dispatched on, so it is an unknown command like any other byte.