/** The per-task descriptor layer over the filesystem and devices: it checks an entry's
    operation table before it calls through it. An entry is passed as a slot of the table
    that holds it. */
module FsInterface {
  import opened Common
  import opened FileDescriptors

  /** `fs_interface_init`: every slot emptied, then slots 0 and 1 bound to the terminal's
      input and output tables and marked in use. */
  method Init(fdArray: array<FdEntry>, stdinOps: OpTable, stdoutOps: OpTable) returns (r: int)
    requires fdArray.Length == MAX_FILES
    modifies fdArray
    ensures r == 0
    ensures fdArray[0] == FdEntry(Some(stdinOps), 0, 0, true)
    ensures fdArray[1] == FdEntry(Some(stdoutOps), 0, 0, true)
    ensures forall i :: 2 <= i < MAX_FILES ==> fdArray[i] == EmptyEntry
  {
    var i := 0;
    while i < MAX_FILES
      invariant 0 <= i <= MAX_FILES
      invariant forall j :: 0 <= j < i ==> fdArray[j] == EmptyEntry
    {
      fdArray[i] := fdArray[i].(pos := 0, inUse := false, ops := None, inode := 0);
      i := i + 1;
    }
    fdArray[0] := fdArray[0].(inUse := true, ops := Some(stdinOps));
    fdArray[1] := fdArray[1].(inUse := true, ops := Some(stdoutOps));
    return 0;
  }

  /** The guard `fs_interface_read` and `fs_interface_write` share: refused for a NULL
      buffer, a NULL table or a NULL operation, and otherwise a call of that operation,
      whose result is returned unchanged. */
  function Guarded(f: FdEntry, bufIsNull: bool, op: Op): (d: Dispatch)
    ensures d == Refused <==> bufIsNull || f.ops.None? || !Has(f.ops.value, op)
    ensures d != Refused ==> d == Call(f.ops.value.name, op)
    ensures d.Call? ==> f.ops.Some? && Has(f.ops.value, d.op)
  {
    if bufIsNull || f.ops.None? || !Has(f.ops.value, op) then Refused
    else Call(f.ops.value.name, op)
  }

  /** `fs_interface_read`. */
  function InterfaceRead(f: FdEntry, bufIsNull: bool): (d: Dispatch)
    ensures d == Refused <==> bufIsNull || f.ops.None? || !f.ops.value.hasRead
    ensures d != Refused ==> d == Call(f.ops.value.name, Read)
  {
    Guarded(f, bufIsNull, Read)
  }

  /** `fs_interface_write`. */
  function InterfaceWrite(f: FdEntry, bufIsNull: bool): (d: Dispatch)
    ensures d == Refused <==> bufIsNull || f.ops.None? || !f.ops.value.hasWrite
    ensures d != Refused ==> d == Call(f.ops.value.name, Write)
  {
    Guarded(f, bufIsNull, Write)
  }

  /** `fs_interface_open`: refused for a NULL table or open operation; the name is passed
      through unchecked. */
  function InterfaceOpen(f: FdEntry): (d: Dispatch)
    ensures d == Refused <==> f.ops.None? || !f.ops.value.hasOpen
    ensures d != Refused ==> d == Call(f.ops.value.name, Open)
  {
    if f.ops.None? then Refused
    else if !f.ops.value.hasOpen then Refused
    else Call(f.ops.value.name, Open)
  }

  /** `fs_interface_close` on slot `i`: refused, entry untouched, for a NULL table or
      close operation or an entry not in use; otherwise flags, position and inode are
      zeroed, the table is kept and the close operation is called. */
  method InterfaceClose(fdArray: array<FdEntry>, i: nat) returns (d: Dispatch)
    requires i < fdArray.Length
    modifies fdArray
    ensures d == Refused <==> old(fdArray[i].ops).None? || !old(fdArray[i].ops).value.hasClose ||
                              !old(fdArray[i].inUse)
    ensures d == Refused ==> fdArray[..] == old(fdArray[..])
    ensures d != Refused ==> d == Call(old(fdArray[i].ops).value.name, Close)
    ensures d != Refused ==>
              fdArray[..] == old(fdArray[..])[i := old(fdArray[i]).(inUse := false, pos := 0, inode := 0)]
  {
    var f := fdArray[i];
    if f.ops.None? {
      return Refused;
    }
    if !f.ops.value.hasClose {
      return Refused;
    }
    if !f.inUse {
      return Refused;
    }
    fdArray[i] := f.(inUse := false, pos := 0, inode := 0);
    return Call(f.ops.value.name, Close);
  }

  /** Closing the same entry twice: the second close is refused and changes nothing, so
      the table ends as the first close left it. */
  method CloseTwice(fdArray: array<FdEntry>, i: nat) returns (first: Dispatch, second: Dispatch)
    requires i < fdArray.Length
    modifies fdArray
    ensures second == Refused
    ensures first != Refused ==> fdArray[i].ops == old(fdArray[i].ops) && !fdArray[i].inUse
    ensures first == Refused ==> fdArray[..] == old(fdArray[..])
    ensures first != Refused ==>
              fdArray[..] == old(fdArray[..])[i := old(fdArray[i]).(inUse := false, pos := 0, inode := 0)]
  {
    first := InterfaceClose(fdArray, i);
    ghost var between := fdArray[..];
    second := InterfaceClose(fdArray, i);
    assert fdArray[..] == between;
  }
}
