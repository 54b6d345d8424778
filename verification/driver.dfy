/**
 The JOY BUS link driver's scheduling (`GBASIODolphinLoad`,
 `GBASIODolphinProcessEvents`): two signed cycle counters, the clock-slice
 budget granted by the peer, and one command per processing step.

 The non-blocking socket reads of one call are inputs here (`Tick`), and
 everything the call sends or signals is part of its result (`Step`).
 */
module Dolphin {
  import opened Bytes
  import opened JoyRegisters
  import opened JoyCommands

  /** Cycles until the next look at the data channel when no command byte was waiting. */
  const ClockGrain: int := CyclesPerBit * 8

  datatype Option<T> = None | Some(value: T)

  /** The driver's counters together with the registers it shares with the console. */
  datatype Link = Link(regs: Registers, nextEvent: int, clockSlice: int)

  /**
   What a poll and a four-byte receive on the clock channel yield: not
   readable, readable but not four bytes (short read, closed channel or
   error), or a full grant.
   */
  datatype ClockRead = NotReady | ShortRead | Grant(bytes: Quad)

  /**
   One call from the scheduler: the elapsed cycles, what the clock channel
   would yield if polled, what the one-byte read on the data channel
   yields, and the buffer contents a Recv command's four-byte read leaves.
   Only `cycles` is looked at when no processing step is due.
   */
  datatype Tick = Tick(cycles: int, clock: ClockRead, command: Option<bv8>, payload: Quad)

  /**
   The result of one call: the new state, the bytes sent on the data
   channel, the serial interrupts raised, whether the clock channel was
   polled, whether a processing step ran, and the returned cycle count.
   */
  datatype Step = Step(
    link: Link,
    sent: seq<bv8>,
    irqs: nat,
    clockPolled: bool,
    processed: bool,
    returned: int)

  /** The budget invariant: the driver never asks to run past the cycles granted to it. */
  predicate WithinBudget(link: Link) {
    link.nextEvent <= link.clockSlice
  }

  /** The driver becomes the active link handler: both counters restart from zero. */
  function Load(link: Link): (r: Link)
    ensures r.regs == link.regs
    ensures r.nextEvent == 0 && r.clockSlice == 0
    ensures WithinBudget(r)
  {
    link.(nextEvent := 0, clockSlice := 0)
  }

  /** The cycles a clock read adds to the budget. */
  function GrantOf(read: ClockRead): (g: int)
    ensures IsInt32(g)
    ensures !read.Grant? ==> g == 0
    ensures read.Grant? ==> g == DecodeGrant(read.bytes)
  {
    match read
    case Grant(q) => DecodeGrant(q)
    case _ => 0
  }

  function ProcessEvents(link: Link, tick: Tick): (r: Step)
    // Always: what is returned is the new countdown.
    ensures r.returned == r.link.nextEvent
    // Nothing is due: both counters count down, nothing is read, sent or signalled.
    ensures !r.processed <==> link.nextEvent - tick.cycles > 0
    ensures !r.processed ==>
              && r.link == Link(link.regs, link.nextEvent - tick.cycles, link.clockSlice - tick.cycles)
              && r.sent == [] && r.irqs == 0 && !r.clockPolled
    // The clock channel is consulted only when a step is due and the budget is spent,
    // and only a full four-byte read moves the budget.
    ensures r.clockPolled <==> r.processed && link.clockSlice - tick.cycles <= 0
    ensures r.link.clockSlice == link.clockSlice - tick.cycles
                                 + (if r.clockPolled && tick.clock.Grant? then DecodeGrant(tick.clock.bytes) else 0)
    // A processing step never returns more than the remaining budget.
    ensures r.processed ==> r.returned <= r.link.clockSlice
    // A processing step adds the command's cost (or the idle grain) unless the budget cuts it short.
    ensures r.processed ==>
              var cost := if tick.command.Some? then ProcessCommand(link.regs, tick.command.value, tick.payload).cycles
                          else 600;
              var due := link.nextEvent - tick.cycles + cost;
              r.link.nextEvent <= due && (r.link.nextEvent == due || r.link.nextEvent == r.link.clockSlice)
    // No command byte: no register change, nothing sent, no interrupt.
    ensures tick.command.None? ==> r.link.regs == link.regs && r.sent == [] && r.irqs == 0
    ensures r.processed && tick.command.Some? ==>
              var out := ProcessCommand(link.regs, tick.command.value, tick.payload);
              r.link.regs == out.regs && r.sent == out.sent && r.irqs == out.irqs
    ensures WithinBudget(link) ==> WithinBudget(r.link)
  {
    var nextEvent := link.nextEvent - tick.cycles;
    var clockSlice := link.clockSlice - tick.cycles;
    if nextEvent > 0 then
      Step(link.(nextEvent := nextEvent, clockSlice := clockSlice), [], 0, false, false, nextEvent)
    else
      var polled := clockSlice <= 0;
      var clockSlice := if polled then clockSlice + GrantOf(tick.clock) else clockSlice;
      var out := match tick.command
        case Some(command) => ProcessCommand(link.regs, command, tick.payload)
        case None => Outcome(link.regs, [], 0, ClockGrain);
      var nextEvent := nextEvent + out.cycles;
      var nextEvent := if nextEvent > clockSlice then clockSlice else nextEvent;
      Step(Link(out.regs, nextEvent, clockSlice), out.sent, out.irqs, polled, true, nextEvent)
  }

  /** The driver called once per tick, in order, from `link`. */
  function Run(link: Link, ticks: seq<Tick>): (steps: seq<Step>)
    ensures |steps| == |ticks|
    decreases |ticks|
  {
    if |ticks| == 0 then []
    else
      var first := ProcessEvents(link, ticks[0]);
      [first] + Run(first.link, ticks[1..])
  }

  /**
   From a state inside its budget (as `Load` leaves it), however the
   scheduler, the peer and the clock behave, no call ever returns more
   cycles than the budget left after it, and every state stays inside it.
   */
  lemma {:induction false} RunWithinBudget(link: Link, ticks: seq<Tick>)
    requires WithinBudget(link)
    decreases |ticks|
    ensures var steps := Run(link, ticks);
            forall i :: 0 <= i < |steps| ==>
              steps[i].returned <= steps[i].link.clockSlice && WithinBudget(steps[i].link)
  {
    if |ticks| > 0 {
      var first := ProcessEvents(link, ticks[0]);
      RunWithinBudget(first.link, ticks[1..]);
      var steps := Run(link, ticks);
      assert steps == [first] + Run(first.link, ticks[1..]);
      forall i | 0 <= i < |steps|
        ensures steps[i].returned <= steps[i].link.clockSlice && WithinBudget(steps[i].link)
      {
        if i > 0 {
          assert steps[i] == Run(first.link, ticks[1..])[i - 1];
        }
      }
    }
  }

  /**
   A grant of 1000 cycles against an idle data channel, right after `Load`:
   the first call takes the grant and asks for one idle grain (600), the
   second is clamped to the 400 cycles left, and the third, with the budget
   spent and no new grant, returns 0.
   */
  lemma IdleGrantExample(regs: Registers, payload: Quad)
    ensures var start := Load(Link(regs, 5, -7));
            var steps := Run(start, [
              Tick(0, Grant(EncodeGrant(1000)), None, payload),
              Tick(600, NotReady, None, payload),
              Tick(400, NotReady, None, payload)]);
            && steps[0].returned == 600 && steps[0].link.clockSlice == 1000
            && steps[1].returned == 400 && steps[1].link.clockSlice == 400
            && steps[2].returned == 0 && steps[2].link.clockSlice == 0
            && steps[0].clockPolled && !steps[1].clockPolled && steps[2].clockPolled
  {
    GrantRoundTrip(1000);
    var start := Load(Link(regs, 5, -7));
    var ticks := [
      Tick(0, Grant(EncodeGrant(1000)), None, payload),
      Tick(600, NotReady, None, payload),
      Tick(400, NotReady, None, payload)];
    var s0 := ProcessEvents(start, ticks[0]);
    var s1 := ProcessEvents(s0.link, ticks[1]);
    var s2 := ProcessEvents(s1.link, ticks[2]);
    assert Run(s1.link, ticks[2..]) == [s2];
    assert Run(s0.link, ticks[1..]) == [s1, s2];
    assert Run(start, ticks) == [s0, s1, s2];
  }

  /** A short read on the clock channel leaves the budget where the countdown put it. */
  lemma ShortReadKeepsBudget(link: Link, tick: Tick)
    requires tick.clock.ShortRead?
    ensures ProcessEvents(link, tick).link.clockSlice == link.clockSlice - tick.cycles
  {
  }
}
