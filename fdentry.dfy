/** The file-descriptor entry both descriptor tables of the kernel are made of:
    an operation-table reference, an inode number, a byte position and an in-use flag. */
module FileDescriptors {
  import opened Common

  /** The eight descriptors every table holds. */
  const MAX_FILES: nat := 8

  /** Which of the kernel's operation tables an entry refers to. */
  datatype OpTableName = Stdin | Stdout | RtcOps | DirectoryOps | RegularOps

  /** An operation table: its identity and which of its four function pointers are set
      (a pointer that is NULL is `false`). */
  datatype OpTable = OpTable(name: OpTableName, hasOpen: bool, hasClose: bool, hasRead: bool, hasWrite: bool)

  /** `ops == None` is a NULL table pointer; `inUse` is the entry's `flags != 0`. */
  datatype FdEntry = FdEntry(ops: Option<OpTable>, inode: nat, pos: nat, inUse: bool)

  /** The entry every slot is reset to: no table, inode 0, position 0, not in use. */
  const EmptyEntry: FdEntry := FdEntry(None, 0, 0, false)

  /** The four operations a descriptor can be asked to perform. */
  datatype Op = Open | Close | Read | Write

  predicate Has(t: OpTable, op: Op)
  {
    match op
    case Open => t.hasOpen
    case Close => t.hasClose
    case Read => t.hasRead
    case Write => t.hasWrite
  }

  /** What a guarded call through a descriptor comes to: refused with -1 before any call,
      a call of `op` in table `table`, or a call through a NULL pointer (a fault). */
  datatype Dispatch = Refused | Call(table: OpTableName, op: Op) | NullCall
}
