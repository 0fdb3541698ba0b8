/** The system-call layer: the global eight-slot descriptor array with its own operation
    tables, the `open`/`close`/`read`/`write` calls over it, and the command parsing and
    executable check at the start of `execute`. */
module Syscalls {
  import opened Common
  import opened FileDescriptors
  import opened FileSys

  // ---------------------------------------------------------------------------------
  // Operation tables, as `fd_array_init` fills them in
  // ---------------------------------------------------------------------------------

  const RtcFop: OpTable := OpTable(RtcOps, true, true, true, true)
  const DirectoryFop: OpTable := OpTable(DirectoryOps, true, true, true, true)
  const RegularFop: OpTable := OpTable(RegularOps, true, true, true, true)
  /** Terminal input: no write operation. */
  const StdinFop: OpTable := OpTable(Stdin, true, true, true, false)
  /** Terminal output: no read operation. */
  const StdoutFop: OpTable := OpTable(Stdout, true, true, false, true)

  /** The descriptor array after `fd_array_init`: slot 0 is terminal input, slot 1 terminal
      output, both in use; slots 2 to 7 are empty. */
  function BootTable(): (t: seq<FdEntry>)
    ensures |t| == MAX_FILES
    ensures forall i :: 2 <= i < MAX_FILES ==> t[i] == EmptyEntry
  {
    [FdEntry(Some(StdinFop), 0, 0, true), FdEntry(Some(StdoutFop), 0, 0, true)] +
    seq(MAX_FILES - 2, _ => EmptyEntry)
  }

  /** `fd_array_init`: clear all eight slots, then bind slots 0 and 1. */
  method FdArrayInit(fdArray: array<FdEntry>)
    requires fdArray.Length == MAX_FILES
    modifies fdArray
    ensures fdArray[..] == BootTable()
  {
    var i := 0;
    while i < MAX_FILES
      invariant 0 <= i <= MAX_FILES
      invariant forall j :: 0 <= j < i ==> fdArray[j] == EmptyEntry
    {
      fdArray[i] := fdArray[i].(pos := 0, inUse := false, ops := None, inode := 0);
      i := i + 1;
    }
    fdArray[0] := fdArray[0].(ops := Some(StdinFop), inUse := true);
    fdArray[1] := fdArray[1].(ops := Some(StdoutFop), inUse := true);
  }

  // ---------------------------------------------------------------------------------
  // read and write
  // ---------------------------------------------------------------------------------

  /** `read` and `write` check only the descriptor's range and then call through the
      slot's table, which may be NULL or lack the operation. */
  function Dispatched(t: seq<FdEntry>, fd: int, op: Op): (d: Dispatch)
    requires |t| == MAX_FILES
    ensures d == Refused <==> fd < 0 || fd >= MAX_FILES
    ensures d == NullCall <==> 0 <= fd < MAX_FILES && (t[fd].ops.None? || !Has(t[fd].ops.value, op))
    ensures d.Call? ==> d == Call(t[fd].ops.value.name, op)
  {
    if fd >= MAX_FILES || fd < 0 then Refused
    else if t[fd].ops.None? || !Has(t[fd].ops.value, op) then NullCall
    else Call(t[fd].ops.value.name, op)
  }

  /** `read(fd, buf, nbytes)`. */
  function ReadCall(t: seq<FdEntry>, fd: int): (d: Dispatch)
    requires |t| == MAX_FILES
    ensures d == Refused <==> fd < 0 || fd >= MAX_FILES
    ensures d.Call? ==> t[fd].ops.Some? && d == Call(t[fd].ops.value.name, Read)
    ensures d == NullCall <==> 0 <= fd < MAX_FILES && (t[fd].ops.None? || !Has(t[fd].ops.value, Read))
  {
    Dispatched(t, fd, Read)
  }

  /** `write(fd, buf, nbytes)`. */
  function WriteCall(t: seq<FdEntry>, fd: int): (d: Dispatch)
    requires |t| == MAX_FILES
    ensures d == Refused <==> fd < 0 || fd >= MAX_FILES
    ensures d.Call? ==> t[fd].ops.Some? && d == Call(t[fd].ops.value.name, Write)
    ensures d == NullCall <==> 0 <= fd < MAX_FILES && (t[fd].ops.None? || !Has(t[fd].ops.value, Write))
  {
    Dispatched(t, fd, Write)
  }

  /** After `fd_array_init`, reading fd 0 and writing fd 1 reach the terminal, writing
      fd 0, reading fd 1 and any use of fds 2 to 7 call through a NULL pointer, and fds
      outside 0 to 7 are refused. */
  lemma BootTableDispatch(fd: int)
    ensures ReadCall(BootTable(), 0) == Call(Stdin, Read)
    ensures WriteCall(BootTable(), 1) == Call(Stdout, Write)
    ensures WriteCall(BootTable(), 0) == NullCall && ReadCall(BootTable(), 1) == NullCall
    ensures 2 <= fd < MAX_FILES ==> ReadCall(BootTable(), fd) == NullCall &&
                                    WriteCall(BootTable(), fd) == NullCall
    ensures (fd < 0 || fd >= MAX_FILES) ==> ReadCall(BootTable(), fd) == Refused &&
                                            WriteCall(BootTable(), fd) == Refused
  {
  }

  /** `read`/`write` never look at the in-use flag: a slot that `close` cleared still
      dispatches to the table it had. */
  lemma DispatchIgnoresInUse(t: seq<FdEntry>, fd: nat, op: Op)
    requires |t| == MAX_FILES && fd < MAX_FILES
    ensures Dispatched(t[fd := t[fd].(inUse := false, pos := 0, inode := 0)], fd, op) == Dispatched(t, fd, op)
  {
  }

  // ---------------------------------------------------------------------------------
  // open and close
  // ---------------------------------------------------------------------------------

  /** The lowest slot not in use, or 8 when all are. */
  function FirstFree(t: seq<FdEntry>, from: nat): (r: nat)
    requires from <= |t|
    ensures from <= r <= |t|
    ensures r < |t| ==> !t[r].inUse
    ensures forall j :: from <= j < r ==> t[j].inUse
    decreases |t| - from
  {
    if from == |t| then |t|
    else if !t[from].inUse then from
    else FirstFree(t, from + 1)
  }

  /** Slot `e` after `open` took it for dentry `d`: position 0, in use; an RTC gets the
      RTC table and inode 0, a directory the directory table and inode 0, a regular file
      the file table and the dentry's inode; any other type keeps the slot's old table and
      inode. */
  function Opened(e: FdEntry, d: Dentry): (r: FdEntry)
    ensures r.pos == 0 && r.inUse
    ensures d.filetype == FILE_TYPE_RTC ==> r.ops == Some(RtcFop) && r.inode == 0
    ensures d.filetype == FILE_TYPE_DIR ==> r.ops == Some(DirectoryFop) && r.inode == 0
    ensures d.filetype == FILE_TYPE_FILE ==> r.ops == Some(RegularFop) && r.inode == d.inodeNum
    ensures d.filetype > FILE_TYPE_FILE ==> r.ops == e.ops && r.inode == e.inode
  {
    var taken := e.(pos := 0, inUse := true);
    if d.filetype == FILE_TYPE_RTC then taken.(ops := Some(RtcFop), inode := 0)
    else if d.filetype == FILE_TYPE_DIR then taken.(ops := Some(DirectoryFop), inode := 0)
    else if d.filetype == FILE_TYPE_FILE then taken.(ops := Some(RegularFop), inode := d.inodeNum)
    else taken
  }

  /** `open(filename)`: -1 for a NULL or unknown name; otherwise the lowest free slot is
      taken for the file and its index returned, and with every slot in use the result is
      8 and nothing changes. */
  method OpenCall(fs: Image, fdArray: array<FdEntry>, filename: Option<seq<byte>>) returns (r: int)
    requires Valid(fs) && fdArray.Length == MAX_FILES
    modifies fdArray
    ensures filename.None? || FirstMatch(fs, filename.value, 0).None? ==>
              r == -1 && fdArray[..] == old(fdArray[..])
    ensures filename.Some? && FirstMatch(fs, filename.value, 0).Some? ==>
              r == FirstFree(old(fdArray[..]), 0) &&
              (r == MAX_FILES ==> fdArray[..] == old(fdArray[..])) &&
              (r < MAX_FILES ==> fdArray[..] == old(fdArray[..])[r := Opened(old(fdArray[r]),
                                     fs.dentries[FirstMatch(fs, filename.value, 0).value])])
  {
    if filename.None? {
      return -1;
    }
    var found, d := ReadDentryByName(fs, filename, Some(BlankDentry));
    if found == -1 {
      return -1;
    }
    var dentry := d.value;
    var i := 0;
    while i < MAX_FILES
      invariant 0 <= i <= MAX_FILES
      invariant fdArray[..] == old(fdArray[..])
      invariant FirstFree(fdArray[..], 0) == FirstFree(fdArray[..], i)
    {
      if !fdArray[i].inUse {
        fdArray[i] := fdArray[i].(pos := 0, inUse := true);
        var ftype := dentry.filetype;
        if ftype == FILE_TYPE_RTC {
          fdArray[i] := fdArray[i].(ops := Some(RtcFop), inode := 0);
        }
        if ftype == FILE_TYPE_DIR {
          fdArray[i] := fdArray[i].(ops := Some(DirectoryFop), inode := 0);
        }
        if ftype == FILE_TYPE_FILE {
          fdArray[i] := fdArray[i].(ops := Some(RegularFop), inode := dentry.inodeNum);
        }
        break;
      }
      i := i + 1;
    }
    return i;
  }

  /** `close(fd)`: -1 for a descriptor out of range or not in use; otherwise the slot's
      flags, position and inode are cleared (its table is kept) and its close operation
      is called, through a NULL pointer if the slot has none. */
  method CloseCall(fdArray: array<FdEntry>, fd: int) returns (d: Dispatch)
    requires fdArray.Length == MAX_FILES
    modifies fdArray
    ensures d == Refused <==> fd < 0 || fd >= MAX_FILES || !old(fdArray[fd].inUse)
    ensures d == Refused ==> fdArray[..] == old(fdArray[..])
    ensures d != Refused ==>
              fdArray[..] == old(fdArray[..])[fd := old(fdArray[fd]).(inUse := false, pos := 0, inode := 0)]
    ensures d != Refused ==>
              d == (if old(fdArray[fd].ops).None? || !old(fdArray[fd].ops).value.hasClose then NullCall
                    else Call(old(fdArray[fd].ops).value.name, Close))
  {
    if fd >= MAX_FILES || fd < 0 {
      return Refused;
    }
    if !fdArray[fd].inUse {
      return Refused;
    }
    fdArray[fd] := fdArray[fd].(inUse := false, pos := 0, inode := 0);
    var fp := fdArray[fd].ops;
    if fp.None? || !fp.value.hasClose {
      return NullCall;
    }
    return Call(fp.value.name, Close);
  }

  // ---------------------------------------------------------------------------------
  // execute: command parsing
  // ---------------------------------------------------------------------------------

  const SPACE: byte := 0x20

  /** The first space at or after `from`, or the end of `cmd`. */
  function RunEnd(cmd: seq<byte>, from: nat): (n: nat)
    requires from <= |cmd|
    ensures from <= n <= |cmd|
    ensures forall k :: from <= k < n ==> cmd[k] != SPACE
    ensures n < |cmd| ==> cmd[n] == SPACE
    decreases |cmd| - from
  {
    if from == |cmd| || cmd[from] == SPACE then from else RunEnd(cmd, from + 1)
  }

  /** The first non-space at or after `from`, or the end of `cmd`. */
  function SpaceEnd(cmd: seq<byte>, from: nat): (n: nat)
    requires from <= |cmd|
    ensures from <= n <= |cmd|
    ensures forall k :: from <= k < n ==> cmd[k] == SPACE
    ensures n < |cmd| ==> cmd[n] != SPACE
    decreases |cmd| - from
  {
    if from == |cmd| || cmd[from] != SPACE then from else SpaceEnd(cmd, from + 1)
  }

  /** Length of the filename token: the first byte, whatever it is, then every byte up to
      the next space. */
  function NameLen(cmd: seq<byte>): (n: nat)
    ensures n <= |cmd|
    ensures n == 0 <==> |cmd| == 0
    ensures forall k :: 1 <= k < n ==> cmd[k] != SPACE
    ensures n < |cmd| ==> cmd[n] == SPACE
  {
    if |cmd| == 0 then 0 else RunEnd(cmd, 1)
  }

  /** Where the argument starts: after the token and the spaces that follow it. */
  function ArgStart(cmd: seq<byte>): (n: nat)
    ensures NameLen(cmd) <= n <= |cmd|
    ensures forall k :: NameLen(cmd) <= k < n ==> cmd[k] == SPACE
    ensures n < |cmd| ==> cmd[n] != SPACE
  {
    SpaceEnd(cmd, NameLen(cmd))
  }

  /** The two parsing loops of `execute`, with the argument loop skipping the spaces
      between the filename and the argument (see the findings in the README: the source
      does not advance past them). The command is the token, some spaces and the
      argument, and nothing else. */
  method ParseCommand(cmd: seq<byte>) returns (name: seq<byte>, arg: seq<byte>)
    ensures name == cmd[..NameLen(cmd)]
    ensures arg == cmd[ArgStart(cmd)..]
    ensures cmd == name + cmd[|name|..ArgStart(cmd)] + arg
    ensures arg == [] || arg[0] != SPACE
  {
    var i := 0;
    name := [];
    while i < |cmd|
      invariant 0 <= i <= |cmd|
      invariant name == cmd[..i]
      invariant forall k :: 1 <= k < i ==> cmd[k] != SPACE
      invariant i <= NameLen(cmd)
    {
      if cmd[i] == SPACE && |name| > 0 {
        break;
      }
      name := name + [cmd[i]];
      i := i + 1;
    }
    assert i == NameLen(cmd);
    arg := [];
    while i < |cmd|
      invariant NameLen(cmd) <= i <= |cmd|
      invariant |arg| == 0 ==> i <= ArgStart(cmd) && forall k :: NameLen(cmd) <= k < i ==> cmd[k] == SPACE
      invariant |arg| > 0 ==> ArgStart(cmd) <= i && arg == cmd[ArgStart(cmd)..i]
    {
      if cmd[i] == SPACE && |arg| == 0 {
        i := i + 1;
        continue;
      }
      arg := arg + [cmd[i]];
      i := i + 1;
    }
    assert cmd == cmd[..NameLen(cmd)] + cmd[NameLen(cmd)..ArgStart(cmd)] + cmd[ArgStart(cmd)..];
  }

  /** One pass of the argument loop as written: a space while the argument is still empty
      hits `continue` without advancing `i`. */
  function ArgStepAsWritten(cmd: seq<byte>, i: nat, arg: seq<byte>): (r: (nat, seq<byte>))
    requires i < |cmd|
    ensures r.0 == i <==> cmd[i] == SPACE && |arg| == 0
    ensures r.0 == i ==> r.1 == arg
    ensures r.0 != i ==> r.0 == i + 1 && r.1 == arg + [cmd[i]]
  {
    if cmd[i] == SPACE && |arg| == 0 then (i, arg) else (i + 1, arg + [cmd[i]])
  }

  /** The argument loop as written, run for at most `fuel` passes: `None` when it is still
      running after them. */
  function ArgLoopAsWritten(cmd: seq<byte>, i: nat, arg: seq<byte>, fuel: nat): (r: Option<seq<byte>>)
    decreases fuel
    ensures r.Some? ==> |arg| <= |r.value| && r.value[..|arg|] == arg
    ensures r.Some? && i < |cmd| ==> fuel > 0
  {
    if i >= |cmd| then Some(arg)
    else if fuel == 0 then None
    else
      var next := ArgStepAsWritten(cmd, i, arg);
      ArgLoopAsWritten(cmd, next.0, next.1, fuel - 1)
  }

  /** Started on a space with an empty argument, the loop as written never ends. */
  lemma {:induction false} ArgLoopAsWrittenStuck(cmd: seq<byte>, i: nat, fuel: nat)
    requires i < |cmd| && cmd[i] == SPACE
    ensures ArgLoopAsWritten(cmd, i, [], fuel) == None
    decreases fuel
  {
    if fuel > 0 {
      ArgLoopAsWrittenStuck(cmd, i, fuel - 1);
    }
  }

  /** As written, `execute` gets past argument parsing exactly when the filename loop
      consumed the whole command: any command with a space after its first byte hangs. */
  lemma ArgParsingEndsAsWritten(cmd: seq<byte>)
    ensures NameLen(cmd) == |cmd| ==> ArgLoopAsWritten(cmd, NameLen(cmd), [], 0) == Some([])
    ensures NameLen(cmd) < |cmd| ==> forall fuel: nat :: ArgLoopAsWritten(cmd, NameLen(cmd), [], fuel) == None
  {
    if NameLen(cmd) < |cmd| {
      forall fuel: nat
        ensures ArgLoopAsWritten(cmd, NameLen(cmd), [], fuel) == None
      {
        ArgLoopAsWrittenStuck(cmd, NameLen(cmd), fuel);
      }
    }
  }

  /** "ls ." (bytes `l`, `s`, space, `.`): the source's loop never finishes, while the
      corrected parse gives the token "ls" and the argument ".". */
  lemma LsDotHangsAsWritten()
    ensures var cmd: seq<byte> := [0x6C, 0x73, SPACE, 0x2E];
            NameLen(cmd) == 2 && ArgStart(cmd) == 3 &&
            forall fuel: nat :: ArgLoopAsWritten(cmd, NameLen(cmd), [], fuel) == None
  {
    var cmd: seq<byte> := [0x6C, 0x73, SPACE, 0x2E];
    assert RunEnd(cmd, 2) == 2;
    assert RunEnd(cmd, 1) == 2;
    assert SpaceEnd(cmd, 3) == 3;
    assert SpaceEnd(cmd, 2) == 3;
    ArgParsingEndsAsWritten(cmd);
  }

  // ---------------------------------------------------------------------------------
  // execute: the executable check
  // ---------------------------------------------------------------------------------

  /** The first four bytes of an ELF header (e_ident[EI_MAG0..EI_MAG3]): 0x7F 'E' 'L' 'F'. */
  const ELF_MAGIC: seq<byte> := [0x7F, 0x45, 0x4C, 0x46]

  /** Byte offset of the entry-point field in the executable. */
  const PROGRAM_ENTRY_POINT: nat := 24

  /** Whether the file with inode `ino` passes the check: reading its first four bytes
      does not fail and the four bytes in the buffer afterwards are the ELF magic. A file
      shorter than one byte reads nothing, so the buffer keeps `stale`, its earlier
      contents. */
  ghost predicate Executable(fs: Image, ino: nat, stale: seq<byte>)
    requires Valid(fs)
  {
    var out := ReadOutcome(fs, ino, 0, 4);
    (out == 4 && forall k :: 0 <= k < 4 ==> ByteAt(fs, ino, k) == ELF_MAGIC[k]) ||
    (out == 0 && stale == ELF_MAGIC)
  }

  /** Whether `execute` accepts the command `cmd` (the bytes before its NUL): its token
      names a file that is `Executable`. */
  ghost predicate Accepts(fs: Image, cmd: seq<byte>, stale: seq<byte>)
    requires Valid(fs)
  {
    var m := FirstMatch(fs, cmd[..NameLen(cmd)], 0);
    m.Some? && Executable(fs, fs.dentries[m.value].inodeNum, stale)
  }

  /** The read of the first four bytes of inode `ino` into `scratch` and their comparison
      with the ELF magic. */
  method CheckMagic(fs: Image, ino: nat, scratch: array<byte>) returns (ok: bool)
    requires Valid(fs) && scratch.Length == 4
    modifies scratch
    ensures ok <==> Executable(fs, ino, old(scratch[..]))
  {
    ghost var before := scratch[..];
    var n := ReadData(fs, ino, 0, scratch, 4);
    if n == -1 {
      return false;
    }
    var magic := scratch[0] == 0x7F && scratch[1] == 0x45 && scratch[2] == 0x4C && scratch[3] == 0x46;
    assert magic <==> scratch[..] == ELF_MAGIC by {
      if magic {
        assert scratch[..] == [scratch[0], scratch[1], scratch[2], scratch[3]];
      }
    }
    if n == 4 {
      assert Filled(scratch[..], before, fs, ino, 0, 4);
      assert magic <==> forall k :: 0 <= k < 4 ==> ByteAt(fs, ino, k) == ELF_MAGIC[k] by {
        assert FilledAt(scratch[..], fs, ino, 0, 0) && FilledAt(scratch[..], fs, ino, 0, 1);
        assert FilledAt(scratch[..], fs, ino, 0, 2) && FilledAt(scratch[..], fs, ino, 0, 3);
      }
    }
    return magic;
  }

  /** `execute(command)` up to the executable check: parse the command, look the token
      up, read four bytes into the buffer `scratch` and compare them with the ELF magic.
      Returns 0 when the file is executable and -1 otherwise. */
  method Execute(fs: Image, command: seq<byte>, scratch: array<byte>) returns (r: int)
    requires Valid(fs) && scratch.Length == 4
    modifies scratch
    ensures r == 0 || r == -1
    ensures r == 0 <==> Accepts(fs, command[..Strlen(command)], old(scratch[..]))
  {
    var cmd := command[..Strlen(command)];
    var name, arg := ParseCommand(cmd);
    var found, d := ReadDentryByName(fs, Some(name), Some(BlankDentry));
    if found == -1 {
      return -1;
    }
    var ok := CheckMagic(fs, d.value.inodeNum, scratch);
    if !ok {
      return -1;
    }
    return 0;
  }
}
