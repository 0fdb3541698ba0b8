/** Boot-time paging: the page directory and the first page table that
    `initialize_paging` fills in place. Directory entry 0 covers the first 4 MiB with
    4 KiB pages, of which only the video-memory page is present; directory entry 1 maps
    the kernel as one 4 MiB page; every other directory entry is absent. */
module Paging {
  import opened Common

  const PAGE_SIZE: nat := 4096
  const PAGE_SIZE_4MB: nat := 0x400000
  const TABLE_SIZE: nat := 1024
  const KERNEL_MEM: nat := 0x400000
  const VIDEO_MEM: nat := 0xB8000
  /** The page-table index of video memory, `VIDEO_MEM >> 12`. */
  const VIDEO_MEM_INDEX: nat := 0xB8
  /** The width of the 20-bit address fields of both entry kinds. */
  const ADDR_FIELD: nat := 0x10_0000

  /** A page-directory entry; every field holds the bits of its C bit-field. */
  datatype Pde = Pde(present: nat, readWrite: nat, userSupervisor: nat, writeThrough: nat,
                     cacheDisable: nat, accessed: nat, reserved: nat, pageSize: nat,
                     globalPage: nat, available: nat, pageTableAddr: nat)

  /** A page-table entry; every field holds the bits of its C bit-field. */
  datatype Pte = Pte(present: nat, readWrite: nat, userSupervisor: nat, writeThrough: nat,
                     cacheDisable: nat, accessed: nat, dirty: nat, ptAttributeIndex: nat,
                     globalPage: nat, available: nat, pageAddr: nat)

  /** Entry `i` of the page table as the loop leaves it: read-write, supervisor-only,
      cache-disabled and absent, pointing at frame `i`; the entry whose page starts at
      `VIDEO_MEM` is instead present and cached. */
  function TableEntry(i: nat): Pte
  {
    var e := Pte(0, 1, 0, 0, 1, 0, 0, 0, 0, 0, i % ADDR_FIELD);
    if i * PAGE_SIZE == VIDEO_MEM then e.(present := 1, cacheDisable := 0) else e
  }

  /** Directory entry `i` as `initialize_paging` leaves it, for the page table at physical
      address `tableAddr`. */
  function DirectoryEntry(i: nat, tableAddr: nat): Pde
  {
    if i == 0 then Pde(1, 1, 0, 0, 1, 0, 0, 0, 0, 0, (tableAddr / PAGE_SIZE) % ADDR_FIELD)
    else if i == 1 then Pde(1, 1, 0, 0, 1, 0, 0, 1, 0, 0, (KERNEL_MEM / PAGE_SIZE) % ADDR_FIELD)
    else Pde(0, 1, 0, 0, 1, 0, 0, 1, 0, 0, 0)
  }

  /** The page table is an identity map of the first 4 MiB in which only the video page
      (index 0xB8) is present, and the only one with caching enabled; every entry is
      read-write and supervisor-only. */
  lemma TableEntries(i: nat)
    requires i < TABLE_SIZE
    ensures TableEntry(i).pageAddr == i
    ensures TableEntry(i).present == 1 <==> i == VIDEO_MEM_INDEX
    ensures TableEntry(i).present == 0 <==> i != VIDEO_MEM_INDEX
    ensures TableEntry(i).cacheDisable == 0 <==> i == VIDEO_MEM_INDEX
    ensures TableEntry(i).userSupervisor == 0 && TableEntry(i).readWrite == 1
  {
    assert i * PAGE_SIZE == VIDEO_MEM <==> i == VIDEO_MEM_INDEX;
  }

  /** Directory entry 0 is a present 4 KiB-granular entry naming the page table's frame;
      entry 1 is a present 4 MiB page at `KERNEL_MEM`; the rest are not present; all are
      supervisor-only. */
  lemma DirectoryEntries(i: nat, tableAddr: nat)
    requires i < TABLE_SIZE && tableAddr < TWO_32
    ensures DirectoryEntry(i, tableAddr).present == 1 <==> i < 2
    ensures i == 0 ==> DirectoryEntry(i, tableAddr).pageSize == 0 &&
                       DirectoryEntry(i, tableAddr).pageTableAddr * PAGE_SIZE == tableAddr - tableAddr % PAGE_SIZE
    ensures i == 1 ==> DirectoryEntry(i, tableAddr).pageSize == 1 &&
                       DirectoryEntry(i, tableAddr).pageTableAddr * PAGE_SIZE == KERNEL_MEM
    ensures DirectoryEntry(i, tableAddr).userSupervisor == 0
  {
  }

  /** `initialize_paging`, up to loading the directory base register and setting the
      paging bit: every entry of both tables is written as above. */
  method InitializePaging(pageDirectory: array<Pde>, pageTable: array<Pte>, tableAddr: nat)
    requires pageDirectory.Length == TABLE_SIZE && pageTable.Length == TABLE_SIZE
    requires tableAddr < TWO_32
    modifies pageDirectory, pageTable
    ensures forall i :: 0 <= i < TABLE_SIZE ==> pageTable[i] == TableEntry(i)
    ensures forall i :: 0 <= i < TABLE_SIZE ==> pageDirectory[i] == DirectoryEntry(i, tableAddr)
  {
    pageDirectory[0] := Pde(1, 1, 0, 0, 1, 0, 0, 0, 0, 0, (tableAddr / PAGE_SIZE) % ADDR_FIELD);
    var i := 0;
    while i < TABLE_SIZE
      invariant 0 <= i <= TABLE_SIZE
      invariant forall j :: 0 <= j < i ==> pageTable[j] == TableEntry(j)
      invariant pageDirectory[0] == DirectoryEntry(0, tableAddr)
      modifies pageTable
    {
      pageTable[i] := Pte(0, 1, 0, 0, 1, 0, 0, 0, 0, 0, i % ADDR_FIELD);
      if i * PAGE_SIZE == VIDEO_MEM {
        pageTable[i] := pageTable[i].(present := 1, cacheDisable := 0);
      }
      i := i + 1;
    }
    pageDirectory[1] := Pde(1, 1, 0, 0, 1, 0, 0, 1, 0, 0, (KERNEL_MEM / PAGE_SIZE) % ADDR_FIELD);
    i := 2;
    while i < TABLE_SIZE
      invariant 2 <= i <= TABLE_SIZE
      invariant forall j :: 0 <= j < i ==> pageDirectory[j] == DirectoryEntry(j, tableAddr)
      modifies pageDirectory
    {
      pageDirectory[i] := Pde(0, 1, 0, 0, 1, 0, 0, 1, 0, 0, 0);
      i := i + 1;
    }
  }

  /** The physical address the 32-bit x86 two-level translation gives for `vaddr`
      (section 4.3 of the Intel Software Developer's Manual, volume 3A, without PAE and
      with 4 MiB pages enabled), or `None` for a page fault. A present 4 KiB-granular
      directory entry is taken to name `table`, the one page table modelled here. */
  function Translate(directory: seq<Pde>, table: seq<Pte>, vaddr: nat): (p: Option<nat>)
    requires |directory| == TABLE_SIZE && |table| == TABLE_SIZE && vaddr < TWO_32
  {
    var pde := directory[vaddr / PAGE_SIZE_4MB];
    if pde.present == 0 then None
    else if pde.pageSize == 1 then
      Some((pde.pageTableAddr * PAGE_SIZE) / PAGE_SIZE_4MB * PAGE_SIZE_4MB + vaddr % PAGE_SIZE_4MB)
    else
      var pte := table[(vaddr / PAGE_SIZE) % TABLE_SIZE];
      if pte.present == 0 then None else Some(pte.pageAddr * PAGE_SIZE + vaddr % PAGE_SIZE)
  }

  /** After `initialize_paging`, exactly the video page and the 4 MiB kernel page are
      mapped, each onto itself. */
  lemma BootMapping(directory: seq<Pde>, table: seq<Pte>, tableAddr: nat, vaddr: nat)
    requires |directory| == TABLE_SIZE && |table| == TABLE_SIZE && vaddr < TWO_32
    requires tableAddr < TWO_32
    requires forall i :: 0 <= i < TABLE_SIZE ==> table[i] == TableEntry(i)
    requires forall i :: 0 <= i < TABLE_SIZE ==> directory[i] == DirectoryEntry(i, tableAddr)
    ensures Translate(directory, table, vaddr) ==
              if VIDEO_MEM <= vaddr < VIDEO_MEM + PAGE_SIZE || KERNEL_MEM <= vaddr < KERNEL_MEM + PAGE_SIZE_4MB
              then Some(vaddr) else None
  {
    var d := vaddr / PAGE_SIZE_4MB;
    DirectoryEntries(d, tableAddr);
    if d == 0 {
      var t := vaddr / PAGE_SIZE;
      assert t < TABLE_SIZE && t % TABLE_SIZE == t;
      TableEntries(t);
      assert t == VIDEO_MEM_INDEX <==> VIDEO_MEM <= vaddr < VIDEO_MEM + PAGE_SIZE;
      if t == VIDEO_MEM_INDEX {
        assert t * PAGE_SIZE + vaddr % PAGE_SIZE == vaddr;
      }
    } else if d == 1 {
      assert KERNEL_MEM <= vaddr < KERNEL_MEM + PAGE_SIZE_4MB;
    } else {
      assert !(vaddr < KERNEL_MEM + PAGE_SIZE_4MB);
    }
  }
}
