/** The process-control-block slots: three PCBs at the top of the kernel stacks, reset at
    boot and handed out to new processes lowest slot first. */
module Task {
  import opened Common

  const MAX_PID_COUNT: nat := 3
  /** Top of the kernel stacks; PCB `pid` sits at the bottom of the `pid`-th 8 KiB stack
      below it. */
  const KERNEL_STACK_ADDR: nat := 0x800000
  const USER_KERNEL_STACK_SIZE: nat := 0x2000

  /** The PCB fields the slot logic touches: `active` (any non-zero value is active), the
      terminal the process runs on and whether it has video memory mapped. */
  datatype Pcb = Pcb(active: nat, terminalId: int, isVidmapped: nat)

  const ResetPcb: Pcb := Pcb(0, -1, 0)

  /** `get_pcb(pid)`: the address of the PCB of `pid`, or NULL for a pid outside 0 to 2.
      Each PCB occupies an 8 KiB-aligned block of the three just below 0x800000. */
  function GetPcb(pid: nat): (a: Option<nat>)
    ensures a.None? <==> pid >= MAX_PID_COUNT
    ensures a.Some? ==> KERNEL_STACK_ADDR - MAX_PID_COUNT * USER_KERNEL_STACK_SIZE <= a.value
    ensures a.Some? ==> a.value + USER_KERNEL_STACK_SIZE <= KERNEL_STACK_ADDR
    ensures a.Some? ==> a.value % USER_KERNEL_STACK_SIZE == 0
  {
    if pid >= MAX_PID_COUNT then None
    else Some(KERNEL_STACK_ADDR - (pid + 1) * USER_KERNEL_STACK_SIZE)
  }

  /** Distinct pids get disjoint 8 KiB blocks, a higher pid a lower block. */
  lemma PcbBlocksDisjoint(p: nat, q: nat)
    requires p < q < MAX_PID_COUNT
    ensures GetPcb(q).value + USER_KERNEL_STACK_SIZE <= GetPcb(p).value
  {
  }

  /** `task_init`: every slot inactive, on no terminal (-1) and without video mapping. */
  method TaskInit(pcbs: array<Pcb>)
    requires pcbs.Length == MAX_PID_COUNT
    modifies pcbs
    ensures forall i :: 0 <= i < MAX_PID_COUNT ==> pcbs[i] == ResetPcb
  {
    var i := 0;
    while i < MAX_PID_COUNT
      invariant 0 <= i <= MAX_PID_COUNT
      invariant forall j :: 0 <= j < i ==> pcbs[j] == ResetPcb
    {
      pcbs[i] := pcbs[i].(active := 0, terminalId := -1, isVidmapped := 0);
      i := i + 1;
    }
  }

  /** The number of active slots. */
  function ActiveCount(s: seq<Pcb>): (n: nat)
    ensures n <= |s|
    ensures n == |s| <==> forall i :: 0 <= i < |s| ==> s[i].active != 0
  {
    if s == [] then 0 else (if s[0].active != 0 then 1 else 0) + ActiveCount(s[1..])
  }

  /** Marking one inactive slot active raises the count by exactly one. */
  lemma {:induction false} ActivateCounts(s: seq<Pcb>, i: nat, v: nat)
    requires i < |s| && s[i].active == 0 && v != 0
    ensures ActiveCount(s[i := s[i].(active := v)]) == ActiveCount(s) + 1
  {
    var t := s[i := s[i].(active := v)];
    if i > 0 {
      assert t[1..] == s[1..][i - 1 := s[i].(active := v)];
      ActivateCounts(s[1..], i - 1, v);
    } else {
      assert t[1..] == s[1..];
    }
  }

  /** The lowest inactive slot at or after `from`, or `|s|` when there is none. */
  function FirstInactive(s: seq<Pcb>, from: nat): (r: nat)
    requires from <= |s|
    ensures from <= r <= |s|
    ensures r < |s| ==> s[r].active == 0
    ensures forall j :: from <= j < r ==> s[j].active != 0
    decreases |s| - from
  {
    if from == |s| then |s|
    else if s[from].active == 0 then from
    else FirstInactive(s, from + 1)
  }

  /** `get_new_pid`: the lowest inactive slot becomes active (value 1) and its index is
      returned; with all three active the result is -1 and nothing changes. Each success
      raises the active count by one, so it never exceeds three. */
  method GetNewPid(pcbs: array<Pcb>) returns (r: int)
    requires pcbs.Length == MAX_PID_COUNT
    modifies pcbs
    ensures r == -1 <==> forall i :: 0 <= i < MAX_PID_COUNT ==> old(pcbs[i]).active != 0
    ensures r == -1 ==> pcbs[..] == old(pcbs[..])
    ensures r != -1 ==> r == FirstInactive(old(pcbs[..]), 0) &&
                        pcbs[..] == old(pcbs[..])[r := old(pcbs[r]).(active := 1)]
    ensures r != -1 ==> ActiveCount(pcbs[..]) == ActiveCount(old(pcbs[..])) + 1
  {
    var i := 0;
    while i < MAX_PID_COUNT
      invariant 0 <= i <= MAX_PID_COUNT
      invariant pcbs[..] == old(pcbs[..])
      invariant FirstInactive(pcbs[..], 0) == FirstInactive(pcbs[..], i)
    {
      if pcbs[i].active == 0 {
        ActivateCounts(pcbs[..], i, 1);
        pcbs[i] := pcbs[i].(active := 1);
        return i;
      }
      i := i + 1;
    }
    return -1;
  }
}
