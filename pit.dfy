/** The programmable interval timer: its initialisation (mode byte, then the 16-bit
    divisor low byte first) and its interrupt handler, which acknowledges the interrupt
    and rotates the executing terminal round-robin. Port writes and the other calls are
    recorded as a trace of events. */
module Pit {
  import opened Common

  const PIT_IRQ_NUM: nat := 0
  const PIT_PORT: nat := 0x43
  const PIT_DATA: nat := 0x40
  const PIT_DESIRED_FREQ: nat := 100
  const PIT_BASE_FREQ: nat := 1193180
  /** The divisor for 100 Hz, under integer division. */
  const PIT_DIVISOR: nat := PIT_BASE_FREQ / PIT_DESIRED_FREQ
  /** Channel 0, low byte then high byte, square-wave generator, binary mode. */
  const PIT_MODE: byte := 0x36
  /** The number of terminals the scheduler rotates over. */
  const MAX_TERMINAL_ID: nat := 3

  /** What the init and the handler do, in order. */
  datatype Event =
    | Cli
    | Sti
    | Outb(value: byte, port: nat)
    | EnableIrq(irq: nat)
    | SendEoi(irq: nat)
    | ContextSwitch(terminal: nat)

  /** `(uint8_t)(d & 0xFF)` and `(uint8_t)((d >> 8) & 0xFF)` of a non-negative divisor. */
  function DivisorBytes(d: nat): (r: (byte, byte))
    ensures d < 0x1_0000 ==> r.1 * 256 + r.0 == d
    ensures r.0 == d % 256
  {
    (d % 256, (d / 256) % 256)
  }

  /** The 100 Hz divisor is 11931 = 0x2E9B: it fits in 16 bits, so the two bytes sent
      carry it whole. */
  lemma DivisorFits()
    ensures PIT_DIVISOR == 11931 && PIT_DIVISOR < 0x1_0000
    ensures DivisorBytes(PIT_DIVISOR) == (0x9B, 0x2E)
  {
  }

  /** `pit_init`: with interrupts off, the mode byte goes to the command port, then the
      divisor's low and high bytes to channel 0's data port, then IRQ 0 is unmasked and
      interrupts are enabled again. */
  function PitInit(): (t: seq<Event>)
    ensures |t| == 6 && t[0] == Cli && t[|t| - 1] == Sti
    ensures t[1] == Outb(PIT_MODE, PIT_PORT)
    ensures t[2].Outb? && t[3].Outb? && t[2].port == PIT_DATA && t[3].port == PIT_DATA
    ensures t[3].value * 256 + t[2].value == PIT_DIVISOR
    ensures t[4] == EnableIrq(PIT_IRQ_NUM)
  {
    var (l, h) := DivisorBytes(PIT_DIVISOR);
    [Cli, Outb(PIT_MODE, PIT_PORT), Outb(l, PIT_DATA), Outb(h, PIT_DATA), EnableIrq(PIT_IRQ_NUM), Sti]
  }

  /** The terminal the handler switches to after `curr`. */
  function NextTerminal(curr: nat): (n: nat)
    ensures n < MAX_TERMINAL_ID
    ensures curr < MAX_TERMINAL_ID - 1 ==> n == curr + 1
    ensures curr == MAX_TERMINAL_ID - 1 ==> n == 0
  {
    (curr + 1) % MAX_TERMINAL_ID
  }

  /** `pit_handler` with `curr` the executing terminal: with interrupts off, the
      end-of-interrupt for IRQ 0 is sent before the one context switch, to the next
      terminal. */
  function PitHandler(curr: nat): (t: seq<Event>)
    ensures |t| == 4 && t[0] == Cli && t[|t| - 1] == Sti
    ensures exists i, j :: 0 <= i < j < |t| && t[i] == SendEoi(PIT_IRQ_NUM) && t[j] == ContextSwitch(NextTerminal(curr))
    ensures forall k :: 0 <= k < |t| && t[k].ContextSwitch? ==> t[k].terminal < MAX_TERMINAL_ID
  {
    var t := [Cli, SendEoi(PIT_IRQ_NUM), ContextSwitch(NextTerminal(curr)), Sti];
    assert t[1] == SendEoi(PIT_IRQ_NUM) && t[2] == ContextSwitch(NextTerminal(curr));
    t
  }

  /** The executing terminal after `k` timer ticks starting from `curr`. */
  function AfterTicks(curr: nat, k: nat): nat
  {
    if k == 0 then curr else NextTerminal(AfterTicks(curr, k - 1))
  }

  /** The terminals chosen on ticks 1 to `MAX_TERMINAL_ID` after `curr`. */
  function Chosen(curr: nat): set<nat>
  {
    set i | 1 <= i <= MAX_TERMINAL_ID :: AfterTicks(curr, i)
  }

  /** From a terminal in range, `k` ticks move `k` places round the ring. */
  lemma {:induction false} AfterTicksRotates(curr: nat, k: nat)
    requires curr < MAX_TERMINAL_ID
    ensures AfterTicks(curr, k) == (curr + k) % MAX_TERMINAL_ID
  {
    if k > 0 {
      AfterTicksRotates(curr, k - 1);
    }
  }

  /** Over `MAX_TERMINAL_ID` consecutive ticks every terminal is chosen exactly once, and
      the rotation is back where it started. */
  lemma RoundRobin(curr: nat)
    requires curr < MAX_TERMINAL_ID
    ensures AfterTicks(curr, MAX_TERMINAL_ID) == curr
    ensures forall i, j :: 1 <= i < j <= MAX_TERMINAL_ID ==> AfterTicks(curr, i) != AfterTicks(curr, j)
    ensures forall t: nat :: t in Chosen(curr) <==> t < MAX_TERMINAL_ID
  {
    AfterTicksRotates(curr, 1);
    AfterTicksRotates(curr, 2);
    AfterTicksRotates(curr, 3);
    assert Chosen(curr) == {AfterTicks(curr, 1), AfterTicks(curr, 2), AfterTicks(curr, 3)};
  }
}
