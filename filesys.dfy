/** The read-only flat filesystem: a boot block of directory entries, an array of inodes
    and an array of 4 KiB data blocks, all taken from the in-memory image as sequences. */
module FileSys {
  import opened Common
  import opened FileDescriptors

  const FILE_NAME_LEN: nat := 32
  const BLOCK_SIZE: nat := 4096
  /** Directory entries the boot block has room for. */
  const MAX_DENTRIES: nat := 63
  /** Data-block numbers an inode holds. */
  const INODE_BLOCKS: nat := 1023

  const FILE_TYPE_RTC: nat := 0
  const FILE_TYPE_DIR: nat := 1
  const FILE_TYPE_FILE: nat := 2

  /** A directory entry: a 32-byte name (not necessarily NUL-terminated), a type and an
      inode number; the reserved bytes are not modelled. */
  datatype Dentry = Dentry(filename: seq<byte>, filetype: nat, inodeNum: nat)

  /** An inode: the file length in bytes and its 1023 data-block numbers. */
  datatype Inode = Inode(length: nat, dataBlockNum: seq<nat>)

  /** The filesystem image: the boot block's three counts and its dentry array, the
      inodes and the data blocks. */
  datatype Image = Image(numDentries: nat, numInodes: nat, numDataBlocks: nat,
                         dentries: seq<Dentry>, inodes: seq<Inode>, blocks: seq<seq<byte>>)

  /** The shape of the on-disk layout: 63 dentry slots of which the first `numDentries`
      are used, `numInodes` inodes of 1023 block numbers, `numDataBlocks` blocks of
      4096 bytes. */
  ghost predicate Valid(fs: Image)
  {
    |fs.dentries| == MAX_DENTRIES && fs.numDentries <= MAX_DENTRIES &&
    (forall i :: 0 <= i < |fs.dentries| ==> |fs.dentries[i].filename| == FILE_NAME_LEN) &&
    |fs.inodes| == fs.numInodes &&
    (forall i :: 0 <= i < |fs.inodes| ==> |fs.inodes[i].dataBlockNum| == INODE_BLOCKS) &&
    |fs.blocks| == fs.numDataBlocks &&
    (forall b :: 0 <= b < |fs.blocks| ==> |fs.blocks[b]| == BLOCK_SIZE)
  }

  /** Whatever an uninitialised `dentry_t` holds before it is filled. */
  const BlankDentry: Dentry := Dentry([], 0, 0)

  // ---------------------------------------------------------------------------------
  // Directory lookup
  // ---------------------------------------------------------------------------------

  /** Dentry `i`'s name equals `name` in the sense of `strncmp(name, filename, 32) == 0`. */
  ghost predicate Matches(fs: Image, name: seq<byte>, i: nat)
    requires Valid(fs) && i < fs.numDentries
  {
    StrnEq(name, fs.dentries[i].filename, FILE_NAME_LEN)
  }

  /** The lowest used dentry index at or after `from` whose name matches `name`. */
  ghost function FirstMatch(fs: Image, name: seq<byte>, from: nat): (r: Option<nat>)
    requires Valid(fs) && from <= fs.numDentries
    ensures r.Some? ==> from <= r.value < fs.numDentries && Matches(fs, name, r.value)
    ensures r.Some? ==> forall j :: from <= j < r.value ==> !Matches(fs, name, j)
    ensures r.None? ==> forall j :: from <= j < fs.numDentries ==> !Matches(fs, name, j)
    decreases fs.numDentries - from
  {
    if from == fs.numDentries then None
    else if Matches(fs, name, from) then Some(from)
    else FirstMatch(fs, name, from + 1)
  }

  /** What `read_dentry_by_*` leave in their caller's dentry: a result code and the
      pointee afterwards (`None` stands for a NULL pointer). */
  datatype DentryResult = DentryResult(code: int, dentry: Option<Dentry>)

  /** `read_dentry_by_index`: -1 for an index past the used entries or a NULL output;
      otherwise 0 and a copy of the entry's name, type and inode number. */
  function ReadDentryByIndex(fs: Image, index: nat, dentry: Option<Dentry>): (r: DentryResult)
    requires Valid(fs)
    ensures r.code == 0 || r.code == -1
    ensures r.code == -1 <==> index >= fs.numDentries || dentry.None?
    ensures r.code == -1 ==> r.dentry == dentry
    ensures r.code == 0 ==> r.dentry == Some(fs.dentries[index])
  {
    if index >= fs.numDentries || dentry.None? then DentryResult(-1, dentry)
    else DentryResult(0, Some(Dentry(fs.dentries[index].filename,
                                     fs.dentries[index].filetype,
                                     fs.dentries[index].inodeNum)))
  }

  /** `read_dentry_by_name`: scans the used entries in order and copies the first whose
      name matches in its first 32 bytes; -1, output untouched, when none does. */
  method ReadDentryByName(fs: Image, fname: Option<seq<byte>>, dentry: Option<Dentry>)
    returns (r: int, d: Option<Dentry>)
    requires Valid(fs)
    ensures r == 0 || r == -1
    ensures r == 0 <==> fname.Some? && dentry.Some? && FirstMatch(fs, fname.value, 0).Some?
    ensures r == 0 ==> d == Some(fs.dentries[FirstMatch(fs, fname.value, 0).value])
    ensures r == -1 ==> d == dentry
  {
    if fname.None? || dentry.None? {
      return -1, dentry;
    }
    var i := 0;
    while i < fs.numDentries
      invariant 0 <= i <= fs.numDentries
      invariant FirstMatch(fs, fname.value, 0) == FirstMatch(fs, fname.value, i)
    {
      if StrnCmpEqual(fname.value, fs.dentries[i].filename, FILE_NAME_LEN, 0) {
        var res := ReadDentryByIndex(fs, i, dentry);
        return res.code, res.dentry;
      }
      i := i + 1;
    }
    return -1, dentry;
  }

  // ---------------------------------------------------------------------------------
  // Reading file data
  // ---------------------------------------------------------------------------------

  /** Byte position `p` of inode `ino` lies in a block the inode can name (index below
      1023) whose number is a data block of the image. */
  ghost predicate BlockOk(fs: Image, ino: nat, p: nat)
    requires Valid(fs) && ino < fs.numInodes
  {
    p / BLOCK_SIZE < INODE_BLOCKS && fs.inodes[ino].dataBlockNum[p / BLOCK_SIZE] < fs.numDataBlocks
  }

  /** Byte `p` of inode `ino`: byte `p % 4096` of data block `dataBlockNum[p / 4096]`. */
  ghost function ByteAt(fs: Image, ino: nat, p: nat): byte
    requires Valid(fs) && ino < fs.numInodes && BlockOk(fs, ino, p)
  {
    fs.blocks[fs.inodes[ino].dataBlockNum[p / BLOCK_SIZE]][p % BLOCK_SIZE]
  }

  /** Every position of `[offset, offset + length)` lies in a readable block. */
  ghost predicate RangeOk(fs: Image, ino: nat, offset: nat, length: nat)
    requires Valid(fs) && ino < fs.numInodes
  {
    forall p :: offset <= p < offset + length ==> BlockOk(fs, ino, p)
  }

  /** The value `read_data` returns: -1 for a bad inode, 0 at or past the end of the
      file, otherwise `length` when every byte can be read (no clamping at the end of the
      file) and -1 when some block of the range cannot. */
  ghost function ReadOutcome(fs: Image, ino: nat, offset: nat, length: nat): int
    requires Valid(fs)
  {
    if ino >= fs.numInodes then -1
    else if offset >= fs.inodes[ino].length then 0
    else if RangeOk(fs, ino, offset, length) then length
    else -1
  }

  /** `buf[k]` holds byte `offset + k` of inode `ino`, which lies in a readable block. */
  ghost predicate FilledAt(buf: seq<byte>, fs: Image, ino: nat, offset: nat, k: nat)
    requires Valid(fs) && ino < fs.numInodes && k < |buf|
  {
    BlockOk(fs, ino, offset + k) && buf[k] == ByteAt(fs, ino, offset + k)
  }

  /** `buf` holds the first `w` bytes read from `offset` and is `before` everywhere else. */
  ghost predicate Filled(buf: seq<byte>, before: seq<byte>, fs: Image, ino: nat, offset: nat, w: nat)
    requires Valid(fs) && ino < fs.numInodes
  {
    |buf| == |before| && w <= |buf| &&
    (forall k :: 0 <= k < w ==> FilledAt(buf, fs, ino, offset, k)) &&
    (forall k :: w <= k < |buf| ==> buf[k] == before[k])
  }

  /** A successful read never leaves the 1023 blocks of the inode, so its count and the
      position after it fit in 32 bits. */
  lemma ReadOutcomeBounds(fs: Image, ino: nat, offset: nat, length: nat)
    requires Valid(fs)
    ensures ReadOutcome(fs, ino, offset, length) <= length
    ensures ReadOutcome(fs, ino, offset, length) > 0 ==>
              offset + length <= INODE_BLOCKS * BLOCK_SIZE
  {
    if ReadOutcome(fs, ino, offset, length) > 0 {
      var last := offset + length - 1;
      assert BlockOk(fs, ino, last);
      BlockIndexBound(last, INODE_BLOCKS);
    }
  }

  lemma BlockIndexBound(p: nat, n: nat)
    requires p / BLOCK_SIZE < n
    ensures p < n * BLOCK_SIZE
  {
    var q := p / BLOCK_SIZE;
    assert p == q * BLOCK_SIZE + p % BLOCK_SIZE;
    assert q + 1 <= n;
    assert (q + 1) * BLOCK_SIZE <= n * BLOCK_SIZE;
  }

  /** A range whose bytes have all been filled in lies in readable blocks. */
  lemma FilledRangeOk(buf: seq<byte>, before: seq<byte>, fs: Image, ino: nat, offset: nat, length: nat)
    requires Valid(fs) && ino < fs.numInodes
    requires Filled(buf, before, fs, ino, offset, length)
    ensures RangeOk(fs, ino, offset, length)
  {
    forall p | offset <= p < offset + length
      ensures BlockOk(fs, ino, p)
    {
      var k := p - offset;
      assert FilledAt(buf, fs, ino, offset, k);
    }
  }

  lemma FilledExtend(before: seq<byte>, orig: seq<byte>, fs: Image, ino: nat, offset: nat, w: nat)
    requires Valid(fs) && ino < fs.numInodes && w < |before|
    requires Filled(before, orig, fs, ino, offset, w) && BlockOk(fs, ino, offset + w)
    ensures Filled(before[w := ByteAt(fs, ino, offset + w)], orig, fs, ino, offset, w + 1)
  {
    var after := before[w := ByteAt(fs, ino, offset + w)];
    forall k | 0 <= k < w + 1
      ensures FilledAt(after, fs, ino, offset, k)
    {
      if k < w {
        assert FilledAt(before, fs, ino, offset, k);
        assert after[k] == before[k];
      }
    }
  }

  lemma DivModBlock(idx: nat, off: nat)
    requires off < BLOCK_SIZE
    ensures (idx * BLOCK_SIZE + off) / BLOCK_SIZE == idx
    ensures (idx * BLOCK_SIZE + off) % BLOCK_SIZE == off
  {
  }

  /** `read_data`, with every block checked before it is read (see the findings in the
      README for the checks the source makes). Copies `length` bytes starting at byte
      `offset` of inode `ino` into `buf`, crossing block boundaries as it goes. */
  method ReadData(fs: Image, ino: nat, offset: nat, buf: array?<byte>, length: nat) returns (r: int)
    requires Valid(fs)
    requires buf != null ==> length <= buf.Length
    modifies buf
    ensures buf == null ==> r == -1
    ensures buf != null ==> r == ReadOutcome(fs, ino, offset, length)
    ensures buf != null && r == 0 ==> buf[..] == old(buf[..])
    ensures buf != null && r > 0 ==> Filled(buf[..], old(buf[..]), fs, ino, offset, length)
    ensures buf != null && r == -1 && ino < fs.numInodes ==>
              exists w :: 0 <= w <= length && Filled(buf[..], old(buf[..]), fs, ino, offset, w)
    ensures buf != null && ino >= fs.numInodes ==> buf[..] == old(buf[..])
  {
    if ino >= fs.numInodes || buf == null {
      return -1;
    }
    var inode := fs.inodes[ino];
    if offset >= inode.length {
      return 0;
    }
    var idx: nat := offset / BLOCK_SIZE;
    var blockOffset: nat := offset % BLOCK_SIZE;
    var blockNum: nat := 0;
    if length > 0 {
      if idx >= INODE_BLOCKS {
        assert !BlockOk(fs, ino, offset);
        assert Filled(buf[..], old(buf[..]), fs, ino, offset, 0);
        return -1;
      }
      blockNum := inode.dataBlockNum[idx];
      if blockNum >= fs.numDataBlocks {
        assert !BlockOk(fs, ino, offset);
        assert Filled(buf[..], old(buf[..]), fs, ino, offset, 0);
        return -1;
      }
    }
    var bytesRead: nat := 0;
    assert |inode.dataBlockNum| == INODE_BLOCKS;
    while bytesRead < length
      invariant 0 <= bytesRead <= length && 0 <= blockOffset <= BLOCK_SIZE
      invariant inode == fs.inodes[ino] && |inode.dataBlockNum| == INODE_BLOCKS
      invariant idx * BLOCK_SIZE + blockOffset == offset + bytesRead
      invariant length > 0 ==> idx < INODE_BLOCKS && blockNum == inode.dataBlockNum[idx]
                                && blockNum < fs.numDataBlocks
      invariant Filled(buf[..], old(buf[..]), fs, ino, offset, bytesRead)
    {
      if blockOffset == BLOCK_SIZE {
        idx := idx + 1;
        blockOffset := 0;
        DivModBlock(idx, 0);
        if idx >= INODE_BLOCKS {
          assert !BlockOk(fs, ino, offset + bytesRead);
          return -1;
        }
        blockNum := inode.dataBlockNum[idx];
        if blockNum >= fs.numDataBlocks {
          assert !BlockOk(fs, ino, offset + bytesRead);
          return -1;
        }
      }
      DivModBlock(idx, blockOffset);
      assert BlockOk(fs, ino, offset + bytesRead);
      assert ByteAt(fs, ino, offset + bytesRead) == fs.blocks[blockNum][blockOffset];
      ghost var before := buf[..];
      buf[bytesRead] := fs.blocks[blockNum][blockOffset];
      assert buf[..] == before[bytesRead := fs.blocks[blockNum][blockOffset]];
      FilledExtend(before, old(buf[..]), fs, ino, offset, bytesRead);
      bytesRead := bytesRead + 1;
      blockOffset := blockOffset + 1;
    }
    FilledRangeOk(buf[..], old(buf[..]), fs, ino, offset, length);
    return bytesRead;
  }

  // ---------------------------------------------------------------------------------
  // The read path of the source's decision logic, as written
  // ---------------------------------------------------------------------------------

  /** How `read_data` as written ends: -1, or having copied `count` bytes. */
  datatype RawOutcome = Fail | Copied(count: nat)

  /** The checks of `read_data` as written. The first block number
      (`data_block_num[offset / 4096]`) is used unchecked; each block crossed into must
      have an index below 1023 and a number that is not greater than `num_data_blocks`. */
  ghost function ReadOutcomeAsWritten(fs: Image, ino: nat, offset: nat, length: nat): (r: RawOutcome)
    requires Valid(fs)
    ensures r.Copied? ==> ino < fs.numInodes && (r.count == 0 || r.count == length)
    ensures r == Copied(0) <== ino < fs.numInodes && offset >= fs.inodes[ino].length
  {
    if ino >= fs.numInodes then Fail
    else if offset >= fs.inodes[ino].length then Copied(0)
    else if forall p :: offset < p < offset + length && p % BLOCK_SIZE == 0 ==> CrossOkAsWritten(fs, ino, p)
    then Copied(length)
    else Fail
  }

  /** The test made when the copy crosses into the block holding position `p`. */
  ghost predicate CrossOkAsWritten(fs: Image, ino: nat, p: nat)
    requires Valid(fs) && ino < fs.numInodes
  {
    p / BLOCK_SIZE < INODE_BLOCKS && !(fs.inodes[ino].dataBlockNum[p / BLOCK_SIZE] > fs.numDataBlocks)
  }

  /** The as-written checks are weaker than the corrected ones: wherever the corrected
      read succeeds, the read as written succeeds with the same count. */
  lemma ReadOutcomeRefinesAsWritten(fs: Image, ino: nat, offset: nat, length: nat)
    requires Valid(fs)
    ensures ReadOutcome(fs, ino, offset, length) >= 0 ==>
              ReadOutcomeAsWritten(fs, ino, offset, length) == Copied(ReadOutcome(fs, ino, offset, length))
  {
    if ino < fs.numInodes && offset < fs.inodes[ino].length && RangeOk(fs, ino, offset, length) {
      forall p | offset < p < offset + length && p % BLOCK_SIZE == 0
        ensures CrossOkAsWritten(fs, ino, p)
      {
        assert BlockOk(fs, ino, p);
      }
    }
  }

  /** A one-file image whose inode 0 names the data blocks `blockNums` and is `len` bytes
      long, with `nBlocks` zero-filled data blocks. */
  ghost function SmallImage(len: nat, nBlocks: nat, blockNums: seq<nat>): (fs: Image)
    requires |blockNums| == INODE_BLOCKS
    ensures Valid(fs)
  {
    Image(1, 1, nBlocks,
          seq(MAX_DENTRIES, _ => Dentry(seq(FILE_NAME_LEN, _ => 0), FILE_TYPE_FILE, 0)),
          [Inode(len, blockNums)],
          seq(nBlocks, _ => seq(BLOCK_SIZE, _ => 0)))
  }

  /** With one data block (block 0) and inode 0 naming blocks 0 and 1, reading 4097 bytes
      from offset 0 crosses into block number 1: the source's `>` test lets it through,
      although block 1 is outside the image. The checked read refuses it. */
  lemma CrossIntoBlockPastEndAsWritten()
    ensures var fs := SmallImage(8192, 1, [0, 1] + seq(INODE_BLOCKS - 2, _ => 0));
            ReadOutcomeAsWritten(fs, 0, 0, 4097) == Copied(4097) &&
            fs.inodes[0].dataBlockNum[1] >= fs.numDataBlocks &&
            ReadOutcome(fs, 0, 0, 4097) == -1
  {
    var fs := SmallImage(8192, 1, [0, 1] + seq(INODE_BLOCKS - 2, _ => 0));
    assert fs.inodes[0].dataBlockNum[1] == 1;
    forall p | 0 < p < 4097 && p % BLOCK_SIZE == 0
      ensures CrossOkAsWritten(fs, 0, p)
    {
      assert p == 4096;
    }
    assert !BlockOk(fs, 0, 4096);
  }

  /** An inode whose first block number is 5 in an image of one data block: as written,
      `read_data` copies from block 5 without looking at its number. */
  lemma FirstBlockUncheckedAsWritten()
    ensures var fs := SmallImage(10, 1, [5] + seq(INODE_BLOCKS - 1, _ => 0));
            ReadOutcomeAsWritten(fs, 0, 0, 4) == Copied(4) &&
            fs.inodes[0].dataBlockNum[0] >= fs.numDataBlocks &&
            ReadOutcome(fs, 0, 0, 4) == -1
  {
    var fs := SmallImage(10, 1, [5] + seq(INODE_BLOCKS - 1, _ => 0));
    assert fs.inodes[0].dataBlockNum[0] == 5;
    assert !BlockOk(fs, 0, 0);
  }

  // ---------------------------------------------------------------------------------
  // Regular-file and directory operations
  // ---------------------------------------------------------------------------------

  /** `file_open`: -1 for a NULL name or one longer than 33 bytes, otherwise the result of
      looking the name up into the global `curr_dentry`. */
  method FileOpen(fs: Image, filename: Option<seq<byte>>, currDentry: Dentry)
    returns (r: int, newCurr: Dentry)
    requires Valid(fs)
    ensures r == 0 <==> filename.Some? && Strlen(filename.value) <= FILE_NAME_LEN + 1 &&
                        FirstMatch(fs, filename.value, 0).Some?
    ensures r == 0 || r == -1
    ensures r == 0 ==> newCurr == fs.dentries[FirstMatch(fs, filename.value, 0).value]
    ensures r == -1 ==> newCurr == currDentry
  {
    if filename.None? || Strlen(filename.value) > FILE_NAME_LEN + 1 {
      return -1, currDentry;
    }
    var d;
    r, d := ReadDentryByName(fs, filename, Some(currDentry));
    newCurr := d.value;
  }

  /** `dir_open`: like `file_open` without the length check. */
  method DirOpen(fs: Image, filename: Option<seq<byte>>, currDentry: Dentry)
    returns (r: int, newCurr: Dentry)
    requires Valid(fs)
    ensures r == 0 <==> filename.Some? && FirstMatch(fs, filename.value, 0).Some?
    ensures r == 0 || r == -1
    ensures r == 0 ==> newCurr == fs.dentries[FirstMatch(fs, filename.value, 0).value]
    ensures r == -1 ==> newCurr == currDentry
  {
    if filename.None? {
      return -1, currDentry;
    }
    var d;
    r, d := ReadDentryByName(fs, filename, Some(currDentry));
    newCurr := d.value;
  }

  /** `file_read` on `table[i]`: reads `nbytes` (as an unsigned count) from the entry's
      position and advances the position by exactly the count returned; on success the bytes
      read are in `buf`. */
  method FileRead(fs: Image, table: array<FdEntry>, i: nat, buf: array?<byte>, nbytes: int)
    returns (r: int)
    requires Valid(fs) && i < table.Length
    requires -0x8000_0000 <= nbytes < 0x8000_0000
    requires buf != null ==> ToUint32(nbytes) <= buf.Length
    requires table[i].pos < TWO_32
    modifies table, buf
    ensures r == (if buf == null then -1 else ReadOutcome(fs, old(table[i].inode), old(table[i].pos), ToUint32(nbytes)))
    ensures r == -1 ==> table[..] == old(table[..])
    ensures r != -1 ==> table[..] == old(table[..])[i := old(table[i]).(pos := old(table[i].pos) + r)]
    ensures table[i].pos < TWO_32
    ensures buf != null && r == 0 ==> buf[..] == old(buf[..])
    ensures buf != null && r > 0 ==>
              Filled(buf[..], old(buf[..]), fs, old(table[i].inode), old(table[i].pos), r)
  {
    var e := table[i];
    var fl := ReadData(fs, e.inode, e.pos, buf, ToUint32(nbytes));
    if fl == -1 {
      return -1;
    }
    ReadOutcomeBounds(fs, e.inode, e.pos, ToUint32(nbytes));
    table[i] := e.(pos := e.pos + fl);
    return fl;
  }

  /** `dir_read` on `table[i]`: -1 for a NULL buffer; 0, position unchanged, past the last
      used dentry; otherwise the entry's 32-byte name is copied into `buf`, the position
      moves to the next dentry and the result is `nbytes`, whatever it is. */
  method DirRead(fs: Image, table: array<FdEntry>, i: nat, buf: array?<byte>, nbytes: int)
    returns (r: int)
    requires Valid(fs) && i < table.Length
    requires buf != null ==> FILE_NAME_LEN <= buf.Length
    modifies table, buf
    ensures buf == null ==> r == -1
    ensures buf != null && old(table[i].pos) >= fs.numDentries ==>
              r == 0 && table[..] == old(table[..]) && buf[..] == old(buf[..])
    ensures buf != null && old(table[i].pos) < fs.numDentries ==>
              r == nbytes &&
              table[..] == old(table[..])[i := old(table[i]).(pos := old(table[i].pos) + 1)] &&
              buf[..FILE_NAME_LEN] == fs.dentries[old(table[i].pos)].filename &&
              buf[FILE_NAME_LEN..] == old(buf[FILE_NAME_LEN..])
    ensures buf == null ==> table[..] == old(table[..])
  {
    if buf == null {
      return -1;
    }
    var res := ReadDentryByIndex(fs, table[i].pos, Some(BlankDentry));
    if res.code == -1 {
      return 0;
    }
    var name := res.dentry.value.filename;
    var k := 0;
    while k < FILE_NAME_LEN
      invariant 0 <= k <= FILE_NAME_LEN
      invariant buf[..k] == name[..k]
      invariant buf[k..] == old(buf[k..])
      invariant table[..] == old(table[..])
    {
      buf[k] := name[k];
      k := k + 1;
    }
    table[i] := table[i].(pos := table[i].pos + 1);
    return nbytes;
  }

  /** `file_write`: the filesystem is read-only. */
  function FileWrite(nbytes: int): int { -1 }
  /** `file_close`: nothing to release. */
  function FileClose(): int { 0 }
  /** `dir_write`: the filesystem is read-only. */
  function DirWrite(nbytes: int): int { -1 }
  /** `dir_close`: nothing to release. */
  function DirClose(): int { 0 }

  /** Writes to files and directories always fail and closing them always succeeds. */
  lemma StubResults(nbytes: int)
    ensures FileWrite(nbytes) == -1 && DirWrite(nbytes) == -1
    ensures FileClose() == 0 && DirClose() == 0
  {
  }

  /** A name that is one of the used dentries' names exactly (32 bytes) is found at the
      lowest index that carries it. */
  lemma {:induction false} LookupFindsEntry(fs: Image, i: nat, from: nat)
    requires Valid(fs) && from <= i < fs.numDentries
    ensures FirstMatch(fs, fs.dentries[i].filename, from).Some?
    ensures FirstMatch(fs, fs.dentries[i].filename, from).value <= i
    decreases i - from
  {
    var name := fs.dentries[i].filename;
    assert Matches(fs, name, i);
    if from < i {
      LookupFindsEntry(fs, i, from + 1);
    }
  }
}
