/** The interrupt descriptor table as `setup_idt` fills it in place: every vector gets a
    present 32-bit gate in the kernel code segment, a trap gate for the 32 processor
    exception vectors and an interrupt gate above them, user privilege only for the
    system-call vector 0x80; then the handler addresses of exceptions 0x00 to 0x12 and of
    the system-call entry are installed. */
module Idt {
  import opened Common

  const SYSCALL_VECTOR: nat := 0x80
  /** Vectors below this one are processor exceptions. */
  const EXCEPTION_VECTORS: nat := 32
  /** Exceptions 0x00 to 0x12 have handlers. */
  const NUM_EXCEPTION_HANDLERS: nat := 0x13
  /** The x86 gate types (section 6.11 of the Intel Software Developer's Manual, volume
      3A): 32-bit interrupt gate and 32-bit trap gate. */
  const INTERRUPT_GATE_32: nat := 0xE
  const TRAP_GATE_32: nat := 0xF

  /** A gate descriptor; every field holds the bits of its C bit-field. */
  datatype Gate = Gate(offset15_00: nat, segSelector: nat, reserved4: nat, reserved3: nat,
                       reserved2: nat, reserved1: nat, size: nat, reserved0: nat, dpl: nat,
                       present: nat, offset31_16: nat)

  /** The four-bit type field of a gate: `reserved3`, `reserved2`, `reserved1` and `size`
      are its bits 0 to 3. */
  function GateType(g: Gate): nat
  {
    g.reserved3 + 2 * g.reserved2 + 4 * g.reserved1 + 8 * g.size
  }

  /** The handler address `setup_idt` installs at vector `i`, if any. */
  function Installed(i: nat, exceptions: seq<nat>, syscall: nat): Option<nat>
    requires |exceptions| == NUM_EXCEPTION_HANDLERS
  {
    if i < NUM_EXCEPTION_HANDLERS then Some(exceptions[i])
    else if i == SYSCALL_VECTOR then Some(syscall)
    else None
  }

  /** `SET_IDT_ENTRY(g, handler)`: the low and high 16 bits of the 32-bit handler address
      go to the two offset fields. */
  function WithHandler(g: Gate, handler: nat): (r: Gate)
    ensures r.offset15_00 < 0x1_0000 && r.offset31_16 < 0x1_0000
    ensures r.offset15_00 + 0x1_0000 * r.offset31_16 == handler % 0x1_0000_0000
    ensures r == g.(offset15_00 := r.offset15_00, offset31_16 := r.offset31_16)
  {
    g.(offset15_00 := handler % 0x1_0000, offset31_16 := (handler / 0x1_0000) % 0x1_0000)
  }

  /** The fields the loop of `setup_idt` writes for vector `i`, over entry `g`. */
  function Configured(g: Gate, i: nat, kernelCs: nat): (r: Gate)
    ensures r.offset15_00 == g.offset15_00 && r.offset31_16 == g.offset31_16
    ensures r.present == 1 && r.segSelector == kernelCs
    ensures r.reserved3 == 1 <==> i < EXCEPTION_VECTORS
    ensures r.dpl == 3 <==> i == SYSCALL_VECTOR
  {
    g.(present := 1, segSelector := kernelCs, reserved4 := 0,
       reserved3 := if i < EXCEPTION_VECTORS then 1 else 0,
       reserved2 := 1, reserved1 := 1, size := 1, reserved0 := 0,
       dpl := if i == SYSCALL_VECTOR then 3 else 0)
  }

  /** Entry `i` as `setup_idt` leaves it, from its previous contents `g`. */
  function SetUp(g: Gate, i: nat, kernelCs: nat, exceptions: seq<nat>, syscall: nat): Gate
    requires |exceptions| == NUM_EXCEPTION_HANDLERS
  {
    var c := Configured(g, i, kernelCs);
    match Installed(i, exceptions, syscall)
    case Some(h) => WithHandler(c, h)
    case None => c
  }

  /** Every gate is present in the kernel code segment; exception vectors get 32-bit trap
      gates and all others 32-bit interrupt gates; only the system-call gate can be
      reached from user mode. */
  lemma GateKinds(g: Gate, i: nat, kernelCs: nat, exceptions: seq<nat>, syscall: nat)
    requires |exceptions| == NUM_EXCEPTION_HANDLERS
    ensures var e := SetUp(g, i, kernelCs, exceptions, syscall);
            e.present == 1 && e.segSelector == kernelCs && e.reserved0 == 0 && e.reserved4 == 0 &&
            (GateType(e) == TRAP_GATE_32 <==> i < EXCEPTION_VECTORS) &&
            (GateType(e) == INTERRUPT_GATE_32 <==> i >= EXCEPTION_VECTORS) &&
            (e.dpl == 3 <==> i == SYSCALL_VECTOR) && (e.dpl == 0 <==> i != SYSCALL_VECTOR)
  {
  }

  /** The offset halves of an installed gate recombine to its handler's address; a gate
      without a handler keeps the offsets it had. */
  lemma HandlerOffsets(g: Gate, i: nat, kernelCs: nat, exceptions: seq<nat>, syscall: nat)
    requires |exceptions| == NUM_EXCEPTION_HANDLERS
    requires forall k :: 0 <= k < NUM_EXCEPTION_HANDLERS ==> exceptions[k] < TWO_32
    requires syscall < TWO_32
    ensures var e := SetUp(g, i, kernelCs, exceptions, syscall);
            match Installed(i, exceptions, syscall)
            case Some(h) => e.offset31_16 * 0x1_0000 + e.offset15_00 == h
            case None => e.offset31_16 == g.offset31_16 && e.offset15_00 == g.offset15_00
  {
  }

  /** The boot test's claim: when every exception handler has a non-zero address, the
      first ten gates do not have both offset halves zero. */
  lemma FirstTenInstalled(g: Gate, i: nat, kernelCs: nat, exceptions: seq<nat>, syscall: nat)
    requires |exceptions| == NUM_EXCEPTION_HANDLERS && i < 10
    requires forall k :: 0 <= k < NUM_EXCEPTION_HANDLERS ==> 0 < exceptions[k] < TWO_32
    requires syscall < TWO_32
    ensures var e := SetUp(g, i, kernelCs, exceptions, syscall);
            !(e.offset15_00 == 0 && e.offset31_16 == 0)
  {
    HandlerOffsets(g, i, kernelCs, exceptions, syscall);
  }

  /** `SET_IDT_ENTRY(idt[v], handler)`. */
  method SetEntry(idt: array<Gate>, v: nat, handler: nat)
    requires v < idt.Length
    modifies idt
    ensures idt[..] == old(idt[..])[v := WithHandler(old(idt[v]), handler)]
  {
    idt[v] := WithHandler(idt[v], handler);
  }

  /** `s` is `configured` with the exception handlers below vector `k` installed. */
  ghost predicate InstalledBelow(s: seq<Gate>, configured: seq<Gate>, exceptions: seq<nat>, k: nat)
    requires |exceptions| == NUM_EXCEPTION_HANDLERS
  {
    |s| == |configured| &&
    forall j :: 0 <= j < |s| ==>
      s[j] == if j < k && j < NUM_EXCEPTION_HANDLERS then WithHandler(configured[j], exceptions[j]) else configured[j]
  }

  /** `SET_IDT_ENTRY(idt[k], ...)` with the handler of exception `k`, which extends the
      installed range by one. */
  method InstallException(idt: array<Gate>, k: nat, exceptions: seq<nat>, ghost configured: seq<Gate>)
    requires |exceptions| == NUM_EXCEPTION_HANDLERS && k < NUM_EXCEPTION_HANDLERS && k < idt.Length
    requires InstalledBelow(idt[..], configured, exceptions, k)
    modifies idt
    ensures InstalledBelow(idt[..], configured, exceptions, k + 1)
  {
    SetEntry(idt, k, exceptions[k]);
  }

  /** The nineteen exception installs and the system-call install of `setup_idt`. */
  method InstallHandlers(idt: array<Gate>, exceptions: seq<nat>, syscall: nat)
    requires idt.Length > SYSCALL_VECTOR && |exceptions| == NUM_EXCEPTION_HANDLERS
    modifies idt
    ensures forall i :: 0 <= i < idt.Length ==>
              idt[i] == match Installed(i, exceptions, syscall)
                        case Some(h) => WithHandler(old(idt[i]), h)
                        case None => old(idt[i])
  {
    ghost var c := idt[..];
    InstallException(idt, 0x00, exceptions, c);
    InstallException(idt, 0x01, exceptions, c);
    InstallException(idt, 0x02, exceptions, c);
    InstallException(idt, 0x03, exceptions, c);
    InstallException(idt, 0x04, exceptions, c);
    InstallException(idt, 0x05, exceptions, c);
    InstallException(idt, 0x06, exceptions, c);
    InstallException(idt, 0x07, exceptions, c);
    InstallException(idt, 0x08, exceptions, c);
    InstallException(idt, 0x09, exceptions, c);
    InstallException(idt, 0x0A, exceptions, c);
    InstallException(idt, 0x0B, exceptions, c);
    InstallException(idt, 0x0C, exceptions, c);
    InstallException(idt, 0x0D, exceptions, c);
    InstallException(idt, 0x0E, exceptions, c);
    InstallException(idt, 0x0F, exceptions, c);
    InstallException(idt, 0x10, exceptions, c);
    InstallException(idt, 0x11, exceptions, c);
    InstallException(idt, 0x12, exceptions, c);
    ghost var s := idt[..];
    SetEntry(idt, SYSCALL_VECTOR, syscall);
    assert InstalledBelow(s, c, exceptions, NUM_EXCEPTION_HANDLERS);
    assert idt[..] == s[SYSCALL_VECTOR := WithHandler(c[SYSCALL_VECTOR], syscall)];
  }

  /** `setup_idt` over an IDT of `idt.Length` vectors, with the exception handlers'
      addresses in `exceptions` and the system-call entry's in `syscall`. */
  method SetupIdt(idt: array<Gate>, kernelCs: nat, exceptions: seq<nat>, syscall: nat)
    requires idt.Length > SYSCALL_VECTOR && |exceptions| == NUM_EXCEPTION_HANDLERS
    modifies idt
    ensures forall i :: 0 <= i < idt.Length ==> idt[i] == SetUp(old(idt[i]), i, kernelCs, exceptions, syscall)
  {
    var i := 0;
    while i < idt.Length
      invariant 0 <= i <= idt.Length
      invariant forall j :: 0 <= j < i ==> idt[j] == Configured(old(idt[j]), j, kernelCs)
      invariant forall j :: i <= j < idt.Length ==> idt[j] == old(idt[j])
    {
      idt[i] := Configured(idt[i], i, kernelCs);
      i := i + 1;
    }
    InstallHandlers(idt, exceptions, syscall);
  }
}
