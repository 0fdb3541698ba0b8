# A verified model of the core of a small x86 teaching kernel

This project models, in Dafny, the sequential core of a 32-bit x86 teaching kernel.
It proves what that code does. The model covers:

- the read-only flat filesystem: directory lookup, `read_data` across 4 KiB data
  blocks, and the file and directory operations;
- the two file-descriptor layers: the interface guards and the per-task descriptor
  array with its `open`/`close`/`read`/`write` system calls;
- the command parsing and ELF-magic check at the start of `execute`;
- the three-slot process-control-block allocator;
- the keyboard line discipline and `term_read`/`term_write` of the terminal;
- the real-time clock's frequency-to-rate conversion and its register-A update;
- the interval timer's divisor and round-robin rotation;
- the boot page directory and page table;
- the interrupt descriptor table.

One Dafny module models each source file:

| module | file | source |
|---|---|---|
| `Common` | `common.dfy` | shared: bytes, C strings, `int32_t` to `uint32_t`, `Option` |
| `FileDescriptors` | `fdentry.dfy` | the descriptor entry and operation-table shape |
| `FileSys` | `filesys.dfy` | `filesystem/filesys.c` |
| `FsInterface` | `filesys_interface.dfy` | `filesystem/filesys_interface.c` |
| `Syscalls` | `syscalls.dfy` | `interrupt_handlers/syscalls_def.c` |
| `Task` | `task.dfy` | `task.c` |
| `Terminal` | `terminal.dfy` | `devices/terminal.c` |
| `Keyboard` | `keyboard.dfy` | `devices/keyboard.c` |
| `Rtc` | `rtc.dfy` | `devices/rtc.c` |
| `Pit` | `pit.dfy` | `devices/pit.c` |
| `Paging` | `paging.dfy` | `paging.c` |
| `Idt` | `idt.dfy` | `interrupt_handlers/idt.c` |

Code that changes state in place is modelled imperatively. Most methods are proved
against a specification function; a few simple ones (`DirRead`, `CloseCall`,
`InterfaceClose`, `Terminal.Write`) state their results and new state directly:

- the page tables, the IDT, the descriptor arrays and the PCB slots are modelled as
  arrays, and their loops carry their invariants;
- the terminal, the keyboard driver and the RTC are classes whose methods update fields.

Pure logic is modelled as functions with lemmas: guards, address arithmetic, the
scan-code step function, the timer's rotation and the page-walk translation.

Device I/O is recorded as data rather than performed. The interval timer's port
writes and calls form a trace of events. A key's echo, screen reset or terminal
switch is an `Effect` value. The VGA cursor registers are two byte fields.

A few behaviours of the code that a caller might not expect, all modelled as the code
has them:

- `open` with every descriptor in use returns 8, the index its search loop stops at.
- `read` and `write` check only the descriptor's range. They then call through the
  slot's operation table even when it or the operation is NULL. The model records that
  outcome as `NullCall`.
- `set_handler` and `sigreturn` are stubs that return 0. They are not modelled
  (see below).

## Model

| member | source | states |
|---|---|---|
| Common.ToUint32 | student-distrib/filesystem/filesys.c:161-162 | the `int32_t` count passed as a `uint32_t` length: non-negative values unchanged, negative ones raised by 2^32, always below 2^32 |
| Common.Strlen | student-distrib/filesystem/filesys.c:144 | `strlen`: no NUL before the result, and a NUL at it unless it is the whole sequence |
| Common.StrnCmpEqual | student-distrib/filesystem/filesys.c:53 | the position-by-position comparison `strncmp` performs is true exactly when the two names agree at every position below 32 up to the first NUL |
| FileSys.FirstMatch | student-distrib/filesystem/filesys.c:51-57 | the lowest used dentry index whose name matches, with no match before it; `None` exactly when no used dentry matches |
| FileSys.LookupFindsEntry | student-distrib/filesystem/filesys.c:51-55 | a dentry's own 32-byte name is always found, at its index or earlier |
| FileSys.ReadDentryByIndex | student-distrib/filesystem/filesys.c:69-77 | -1 exactly for an index past the used dentries or a NULL output, leaving the output alone; otherwise 0 with the dentry copied |
| FileSys.ReadDentryByName | student-distrib/filesystem/filesys.c:45-58 | 0 exactly when name and output are non-NULL and some used dentry matches, copying the first match; -1 leaves the output alone |
| FileSys.ReadOutcomeBounds | student-distrib/filesystem/filesys.c:97-128 | a read returns at most `length`, and a successful one stays inside the inode's 1023 blocks |
| FileSys.ReadData | student-distrib/filesystem/filesys.c:90-129 | -1 for a bad inode or NULL buffer, 0 at or past the end of file with the buffer untouched, otherwise exactly `length` bytes with byte k equal to byte `(offset+k) % 4096` of block `data_block_num[(offset+k) / 4096]`; -1 when a block of the range is unreadable |
| FileSys.CrossIntoBlockPastEndAsWritten | student-distrib/filesystem/filesys.c:113-118 | as written, a read crossing into block number `num_data_blocks` passes the `>` test, although that block is outside the image |
| FileSys.FirstBlockUncheckedAsWritten | student-distrib/filesystem/filesys.c:97-105 | as written, the first block's number is used without any check |
| FileSys.ReadOutcomeAsWritten | student-distrib/filesystem/filesys.c:90-128 | the outcome of `read_data` as written: a copy succeeds only on a valid inode and copies either 0 bytes (at or past the end of file) or all `length` |
| FileSys.CrossOkAsWritten | student-distrib/filesystem/filesys.c:109-118 | the as-written test on crossing into a block: its index is below 1023 and its number is not greater than `num_data_blocks` |
| FileSys.ReadOutcomeRefinesAsWritten | student-distrib/filesystem/filesys.c:97-118 | wherever the checked read succeeds, the read as written succeeds with the same count, so the two differ only where the source reads a block outside the image |
| FileSys.FileOpen | student-distrib/filesystem/filesys.c:139-149 | 0 exactly for a non-NULL name of `strlen` at most 33 that matches a dentry, which becomes the current dentry; otherwise -1 and no change |
| FileSys.DirOpen | student-distrib/filesystem/filesys.c:247-252 | like `file_open` without the length check |
| FileSys.FileRead | student-distrib/filesystem/filesys.c:154-166 | returns `read_data`'s result from the entry's position; the position advances by exactly that count, and is unchanged on -1; a positive count leaves the bytes read in `buf` and the rest of `buf` as it was, and 0 leaves `buf` unchanged |
| FileSys.DirRead | student-distrib/filesystem/filesys.c:204-222 | -1 for a NULL buffer; 0 with nothing changed past the last dentry; otherwise the 32-byte name is copied, the position moves up by one and `nbytes` is returned |
| FileSys.StubResults | student-distrib/filesystem/filesys.c:177-264 | `file_write` and `dir_write` return -1; `file_close` and `dir_close` return 0 |
| FsInterface.Init | student-distrib/filesystem/filesys_interface.c:14-27 | returns 0; slots 0 and 1 are in use with the stdin and stdout tables; slots 2 to 7 are empty |
| FsInterface.Guarded | student-distrib/filesystem/filesys_interface.c:39-57 | a call is refused exactly for a NULL buffer, NULL table or missing operation; otherwise that operation of that table is called |
| FsInterface.InterfaceRead | student-distrib/filesystem/filesys_interface.c:39-42 | refused exactly for a NULL buffer, NULL table or missing read; otherwise the table's read is called |
| FsInterface.InterfaceWrite | student-distrib/filesystem/filesys_interface.c:54-57 | refused exactly for a NULL buffer, NULL table or missing write; otherwise the table's write is called |
| FsInterface.InterfaceOpen | student-distrib/filesystem/filesys_interface.c:68-72 | refused exactly for a NULL table or missing open; otherwise the table's open is called |
| FsInterface.InterfaceClose | student-distrib/filesystem/filesys_interface.c:82-91 | refused, entry unchanged, for a NULL table, missing close or a slot not in use; otherwise flags, position and inode are zeroed, the table is kept, and its close is called |
| FsInterface.CloseTwice | student-distrib/filesystem/filesys_interface.c:82-90 | a second close of the same entry is always refused, and the table ends exactly as the first close left it |
| Syscalls.BootTable | student-distrib/interrupt_handlers/syscalls_def.c:184-195 | eight slots, of which 2 to 7 are empty after boot |
| Syscalls.FdArrayInit | student-distrib/interrupt_handlers/syscalls_def.c:157-196 | the array becomes the boot table: slot 0 stdin and slot 1 stdout, in use; the rest cleared |
| Syscalls.Dispatched | student-distrib/interrupt_handlers/syscalls_def.c:69-85 | refused exactly for fd outside 0 to 7; a call through NULL exactly when the slot's table or operation is missing; otherwise that operation is called |
| Syscalls.ReadCall | student-distrib/interrupt_handlers/syscalls_def.c:69-76 | `read` returns -1 exactly for fd outside 0 to 7; it calls through NULL exactly when the slot has no table or no read; a real call goes to the slot's read |
| Syscalls.WriteCall | student-distrib/interrupt_handlers/syscalls_def.c:78-85 | `write` returns -1 exactly for fd outside 0 to 7; it calls through NULL exactly when the slot has no table or no write; a real call goes to the slot's write |
| Syscalls.BootTableDispatch | student-distrib/interrupt_handlers/syscalls_def.c:173-195 | after boot, reading fd 0 and writing fd 1 reach the terminal, while writing fd 0, reading fd 1 and any call on fds 2 to 7 go through NULL |
| Syscalls.DispatchIgnoresInUse | student-distrib/interrupt_handlers/syscalls_def.c:72-75 | `read`/`write` do not look at the in-use flag: a closed slot dispatches as before |
| Syscalls.FirstFree | student-distrib/interrupt_handlers/syscalls_def.c:95-97 | the lowest slot not in use, with every slot before it in use; the table size when all are |
| Syscalls.Opened | student-distrib/interrupt_handlers/syscalls_def.c:98-112 | a taken slot has position 0 and is in use; type 0 gets the RTC table and inode 0, type 1 the directory table and inode 0, type 2 the file table and the dentry's inode; other types keep the old table and inode |
| Syscalls.OpenCall | student-distrib/interrupt_handlers/syscalls_def.c:87-117 | -1 with nothing changed for a NULL or unknown name; otherwise the lowest free slot is filled and returned, and with all 8 in use the result is 8 with nothing changed |
| Syscalls.CloseCall | student-distrib/interrupt_handlers/syscalls_def.c:119-132 | -1 with nothing changed for fd out of range or not in use; otherwise only that slot's flags, position and inode are cleared, and its close is called |
| Syscalls.NameLen | student-distrib/interrupt_handlers/syscalls_def.c:33-40 | the filename token takes the first byte, even a space, then every byte up to the next space; it is empty exactly for an empty command |
| Syscalls.ArgStart | student-distrib/interrupt_handlers/syscalls_def.c:42-45 | the argument starts after the token and the spaces that follow it |
| Syscalls.ParseCommand | student-distrib/interrupt_handlers/syscalls_def.c:24-49 | the token is the command's prefix of `NameLen` bytes; the argument is everything after the following spaces, and does not start with a space; token, spaces and argument make up the whole command |
| Syscalls.ArgStepAsWritten | student-distrib/interrupt_handlers/syscalls_def.c:42-48 | one pass of the argument loop as written stays at `i` with the argument unchanged exactly on a space while the argument is empty; otherwise it appends `command[i]` and moves on by one |
| Syscalls.ArgLoopAsWritten | student-distrib/interrupt_handlers/syscalls_def.c:42-49 | the argument loop as written, for a bounded number of passes: when it ends, the argument it started with is a prefix of the result, and it ends without a pass only when `i` is already at the end |
| Syscalls.ArgLoopAsWrittenStuck | student-distrib/interrupt_handlers/syscalls_def.c:42-45 | as written, the argument loop started on a space never ends, whatever the number of passes |
| Syscalls.ArgParsingEndsAsWritten | student-distrib/interrupt_handlers/syscalls_def.c:42-49 | as written, argument parsing ends exactly when the filename loop consumed the whole command |
| Syscalls.LsDotHangsAsWritten | student-distrib/interrupt_handlers/syscalls_def.c:33-49 | the command "ls ." hangs as written, while the corrected parse splits it into "ls" and "." |
| Syscalls.CheckMagic | student-distrib/interrupt_handlers/syscalls_def.c:57-58 | accepts exactly when reading 4 bytes from offset 0 does not fail and the buffer then holds 0x7F 0x45 0x4C 0x46 |
| Syscalls.Execute | student-distrib/interrupt_handlers/syscalls_def.c:19-58 | returns 0 exactly when the token names a file that passes the magic check, and -1 otherwise |
| Task.GetPcb | student-distrib/task.c:33-38 | NULL exactly for pid 3 or more; otherwise an 8 KiB-aligned block inside the three kernel stacks below 0x800000 |
| Task.PcbBlocksDisjoint | student-distrib/task.c:37 | distinct pids get disjoint 8 KiB blocks, a higher pid a lower block |
| Task.TaskInit | student-distrib/task.c:15-24 | every one of the three slots is inactive, on terminal -1 and not video-mapped |
| Task.ActiveCount | student-distrib/task.c:48-55 | the active count never exceeds the slot count, and equals it exactly when every slot is active |
| Task.ActivateCounts | student-distrib/task.c:50-52 | activating an inactive slot raises the active count by exactly one |
| Task.FirstInactive | student-distrib/task.c:49-50 | the lowest inactive slot, with every slot before it active |
| Task.GetNewPid | student-distrib/task.c:47-56 | -1 with nothing changed exactly when every slot is active; otherwise the lowest inactive slot alone becomes active, its index is returned and the active count rises by one |
| Terminal.CursorRegisters | student-distrib/devices/terminal.c:100-106 | the two register bytes recombine to `y * 80 + x`, computed in 32 bits, modulo 2^16 |
| Terminal.CursorRoundTrip | student-distrib/devices/terminal.c:101-105 | for every cell of the 80 by 50 screen, the bytes recombine to the position itself |
| Terminal.FirstNewline | student-distrib/devices/terminal.c:57-62 | the index of the first line-feed, with none before it, or the length |
| Terminal.Copied | student-distrib/devices/terminal.c:57-62 | `term_read` copies up to and including the first line-feed, or the whole live buffer when there is none |
| Terminal.ReadResult | student-distrib/devices/terminal.c:56-66 | with a line-feed the result is the count copied, ending at it; without one it is one more than the count copied |
| Terminal.ReadWithoutNewline | student-distrib/devices/terminal.c:57-66 | the buffer "ab" reads 2 bytes and returns 3 |
| Terminal.Terminal.CursorSet | student-distrib/devices/terminal.c:100-106 | the cursor registers become `CursorRegisters(x, y)`, and nothing else changes |
| Terminal.Terminal.Reset | student-distrib/devices/terminal.c:9-13 | the screen position and the cursor go to (0, 0); the line buffer is untouched |
| Terminal.Terminal.Open | student-distrib/devices/terminal.c:29-32 | resets the terminal and returns 0 |
| Terminal.Terminal.Close | student-distrib/devices/terminal.c:38-41 | resets the terminal and returns 0 |
| Terminal.Terminal.ClearKbuffer | student-distrib/devices/keyboard.c:151-153 | the live size becomes 0 and nothing else changes |
| Terminal.Terminal.Read | student-distrib/devices/terminal.c:49-67 | -1 for a NULL buffer; otherwise the first `Copied` bytes of the line go to `buf`, the rest of `buf` is untouched, the result is `ReadResult`, and the size and `done_typing` become 0 |
| Terminal.Terminal.Write | student-distrib/devices/terminal.c:75-82 | -1 and no output for a NULL buffer; otherwise `buf[0..nbytes)` is emitted in order and `nbytes` returned |
| Keyboard.Not | student-distrib/devices/keyboard.c:111 | C's `!` on a flag: set exactly when the argument is clear |
| Keyboard.ScancodeToKey | student-distrib/devices/keyboard_scancodes.h:17-107 | the scan-code table: a row has a character without shift exactly when it has one with shift, and codes 0x00 and 0x01 have neither |
| Keyboard.Released | student-distrib/devices/keyboard.c:56-74 | a release changes only the five release-tracked flags, and each of them either stays or becomes 0 |
| Keyboard.KeyChar | student-distrib/devices/keyboard.c:133-140 | a printable key gives one of its two table characters, and the shifted one only with a shift held, caps active, or both columns equal |
| Keyboard.LetterRows | student-distrib/devices/keyboard_scancodes.h:17-107 | every table row whose first column is a lower-case letter has its upper case in the second |
| Keyboard.Append | student-distrib/devices/keyboard.c:141 | appending adds exactly one character to the end of the live line |
| Keyboard.LineKey | student-distrib/devices/keyboard.c:77-95 | Backspace, Tab and Enter change only the line and `done_typing`; `done_typing` changes only when Enter has room, and then becomes 1 |
| Keyboard.ModifierKey | student-distrib/devices/keyboard.c:96-113 | the modifier keys echo nothing and leave the line, `done_typing`, right control and the extended flag alone |
| Keyboard.OtherKey | student-distrib/devices/keyboard.c:114-144 | the remaining make codes change at most the line |
| Keyboard.Pressed | student-distrib/devices/keyboard.c:76-145 | a make code keeps the line within 128 characters and never changes right control; `done_typing` changes only for Enter with room |
| Keyboard.KeyStep | student-distrib/devices/keyboard.c:34-149 | one interrupt keeps the line within 128 characters and never sets right control; `done_typing` changes only when Enter, with no prefix pending and room, sets it to 1 |
| Keyboard.KeyStepEditsLine | student-distrib/devices/keyboard.c:76-145 | every key leaves the line alone, appends the character it echoes, or (Backspace on a non-empty line) drops the last one and echoes BS |
| Keyboard.ReleaseClearsOwnFlag | student-distrib/devices/keyboard.c:49-74 | a release code echoes nothing, leaves the line, `done_typing` and caps state alone, and clears exactly its own key's flag |
| Keyboard.ExtendedPairIgnored | student-distrib/devices/keyboard.c:37-48 | 0xE0 sets the extended flag, and the code after it is swallowed: the pair changes nothing |
| Keyboard.CapsLockOncePerPress | student-distrib/devices/keyboard.c:108-113 | Caps Lock flips caps once per press: a repeated make code does not flip it again, and after the release the next press does |
| Keyboard.KeyCharCase | student-distrib/devices/keyboard.c:133-140 | a letter comes out upper case when a shift is held or caps is active; any other key uses its shifted column only with a shift held |
| Keyboard.CapsExamples | student-distrib/devices/keyboard.c:133-140 | with caps active, A gives 'A' shifted or not, 1 gives '1' and, shifted, '!' |
| Keyboard.PrintableKey | student-distrib/devices/keyboard.c:129-143 | a printable key with room appends and echoes its character; with a full buffer it does nothing |
| Keyboard.CommandKeys | student-distrib/devices/keyboard.c:114-131 | Control+L resets the screen and changes no state; Alt+F1, F2 and F3 switch to terminals 0, 1 and 2, and without alt do nothing |
| Keyboard.LineKeys | student-distrib/devices/keyboard.c:77-95 | Backspace drops the last character only when there is one; Enter with room appends a line-feed and sets `done_typing`, and with a full buffer does nothing |
| Keyboard.Keyboard.Init | student-distrib/devices/keyboard.c:13-24 | every modifier flag, the extended flag and `done_typing` become 0; the line, the line buffer, the screen position and the cursor registers are untouched |
| Keyboard.Keyboard.HandleRelease | student-distrib/devices/keyboard.c:56-74 | the driver's state becomes `Released` of the old one |
| Keyboard.Keyboard.HandleLineKey | student-distrib/devices/keyboard.c:77-95 | the state and the effect are `LineKey`'s, and the screen is untouched |
| Keyboard.Keyboard.HandleModifier | student-distrib/devices/keyboard.c:96-113 | the state becomes `ModifierKey`'s |
| Keyboard.Keyboard.HandleOther | student-distrib/devices/keyboard.c:114-144 | the state and the effect are `OtherKey`'s; the screen is reset exactly on Control+L and untouched otherwise |
| Keyboard.Keyboard.Handle | student-distrib/devices/keyboard.c:34-149 | the state and the effect are `KeyStep`'s; the screen position and cursor go to (0, 0) exactly on Control+L, and are untouched otherwise |
| Rtc.SignedLessOrder | student-distrib/devices/rtc.c:147 | the signed comparison agrees with the unsigned one on non-negative words and puts every negative word below them |
| Rtc.RateOf | student-distrib/devices/rtc.c:149-155 | each accepted frequency has a rate from 6 to 15 that produces it |
| Rtc.RtcFreqStep | student-distrib/devices/rtc.c:151 | one more step of the rate strictly lowers `32768 >> (rate - 1)` |
| Rtc.RtcFreqDecreasing | student-distrib/devices/rtc.c:149-155 | the frequency strictly decreases as the rate grows |
| Rtc.RateOfInverse | student-distrib/devices/rtc.c:149-155 | every rate from 6 to 15 gives an accepted frequency that maps back to it |
| Rtc.RateDecreasing | student-distrib/devices/rtc.c:149-155 | a higher frequency has a strictly lower rate |
| Rtc.RtcFreqAbove | student-distrib/devices/rtc.c:150-153 | every rate below a frequency's own gives a higher frequency, so the search stops exactly at `RateOf` |
| Rtc.SingleBitWords | student-distrib/devices/rtc.c:143 | from 2 to 1024, `w & (w - 1) == 0` holds exactly at the powers of two |
| Rtc.PowerOfTwoTest | student-distrib/devices/rtc.c:143-147 | the two tests together accept exactly the powers of two from 2 to 1024 |
| Rtc.FreqToRate | student-distrib/devices/rtc.c:141-156 | -1 exactly when the frequency is not a power of two from 2 to 1024; otherwise the rate that produces it |
| Rtc.MergeRate | student-distrib/devices/rtc.c:128 | the new register A keeps the upper nibble and has the rate as its low nibble |
| Rtc.WordLE | student-distrib/devices/rtc.c:109 | the word read from the buffer has the four buffer bytes as its little-endian bytes |
| Rtc.Rtc.SetRtcFreq | student-distrib/devices/rtc.c:121-131 | -1 with register A unchanged exactly for a rejected frequency; otherwise 0 and register A becomes `MergeRate` of the old value and the rate |
| Rtc.Rtc.Open | student-distrib/devices/rtc.c:67-70 | returns 0; register A gets rate 15 (2 Hz) and keeps its upper nibble; the interrupt flag stays |
| Rtc.Rtc.Close | student-distrib/devices/rtc.c:80-83 | returns 0 |
| Rtc.Rtc.Read | student-distrib/devices/rtc.c:86-92 | consumes the interrupt flag and returns 0 |
| Rtc.Rtc.Write | student-distrib/devices/rtc.c:104-111 | -1 with register A and the interrupt flag unchanged for a NULL buffer or a size other than 4; otherwise `set_rtc_freq`'s result and effect for the buffer's little-endian word, the flag unchanged |
| Pit.DivisorBytes | student-distrib/devices/pit.c:20-21 | the low byte is the divisor modulo 256, and a 16-bit divisor is recombined from the two bytes |
| Pit.DivisorFits | student-distrib/devices/pit.h:10-12 | the 100 Hz divisor is 11931, fits in 16 bits, and is sent as 0x9B then 0x2E |
| Pit.PitInit | student-distrib/devices/pit.c:14-31 | with interrupts off, the mode byte goes to the command port, then the low and high divisor bytes, which recombine to the divisor, to the data port; then IRQ 0 is enabled |
| Pit.NextTerminal | student-distrib/devices/pit.c:46 | the next terminal is always in range: one up, or 0 after the last |
| Pit.PitHandler | student-distrib/devices/pit.c:41-48 | with interrupts off, the end-of-interrupt is sent before the one context switch, which goes to the next terminal |
| Pit.AfterTicksRotates | student-distrib/devices/pit.c:46 | k ticks move k places round the ring of three terminals |
| Pit.RoundRobin | student-distrib/devices/pit.c:46 | over three ticks every terminal is chosen exactly once, and the rotation returns to the start |
| Paging.TableEntries | student-distrib/paging.c:23-39 | the page table is an identity map; only entry 0xB8 (video memory) is present and cached; all entries are read-write and supervisor-only |
| Paging.DirectoryEntries | student-distrib/paging.c:9-68 | entries 0 and 1 alone are present: 0 with 4 KiB pages naming the page table, 1 a 4 MiB page at `KERNEL_MEM`; all are supervisor-only |
| Paging.InitializePaging | student-distrib/paging.c:6-69 | every entry of both tables is left as `TableEntry` and `DirectoryEntry` say |
| Paging.BootMapping | student-distrib/paging.c:6-69 | after the initialisation, exactly the video page and the kernel's 4 MiB page are mapped, each onto itself |
| Idt.GateKinds | student-distrib/interrupt_handlers/idt.c:10-24 | every gate is present in the kernel code segment; vectors below 32 are 32-bit trap gates and the rest 32-bit interrupt gates; the privilege level is 3 exactly at 0x80 |
| Idt.Configured | student-distrib/interrupt_handlers/idt.c:10-24 | the loop's fields for vector `i`: present, in the kernel code segment, a trap gate exactly below 32, DPL 3 exactly at 0x80, and the offsets left as they were |
| Idt.WithHandler | student-distrib/interrupt_handlers/idt.c:27-49 | `SET_IDT_ENTRY`: two 16-bit offset halves that recombine to the handler modulo 2^32, every other field unchanged |
| Idt.HandlerOffsets | student-distrib/interrupt_handlers/idt.c:27-49 | the gates of vectors 0x00 to 0x12 and 0x80 recombine to their handler's address; every other gate keeps its offsets |
| Idt.FirstTenInstalled | student-distrib/tests.c:37-43 | with non-zero handler addresses, none of the first ten gates has both offset halves zero |
| Idt.SetEntry | student-distrib/interrupt_handlers/idt.c:27 | only the named vector changes, getting the handler's address split into its offset halves |
| Idt.InstallException | student-distrib/interrupt_handlers/idt.c:27-46 | each install extends the range of installed exception handlers by one vector |
| Idt.InstallHandlers | student-distrib/interrupt_handlers/idt.c:27-49 | vectors 0x00 to 0x12 and 0x80 get their handlers; every other gate is unchanged |
| Idt.SetupIdt | student-distrib/interrupt_handlers/idt.c:7-50 | every gate ends as `SetUp` of its old contents: configured by the loop, then given its handler if it has one |

## Findings

| source | as written | input that shows it | evidently intended | confidence | as-written member | corrected member |
|---|---|---|---|---|---|---|
| student-distrib/interrupt_handlers/syscalls_def.c:42-45 | the argument loop hits `continue` on a space while the argument is empty, without advancing `i`, so it never ends | the command "ls ." (any command with a space after its first byte) | skip the spaces between the filename and the argument | not executed | Syscalls.ArgParsingEndsAsWritten, Syscalls.LsDotHangsAsWritten | Syscalls.ParseCommand |
| student-distrib/filesystem/filesys.c:99-116 | the first data block's number is never checked, and a crossed-into block passes when its number is at most `num_data_blocks` (`>` instead of `>=`) | an image of one data block whose inode names block 5 first, or blocks 0 then 1, read across the boundary | every block read is checked to be below `num_data_blocks` | not executed | FileSys.FirstBlockUncheckedAsWritten, FileSys.CrossIntoBlockPastEndAsWritten | FileSys.ReadData |

## Left out

- Port I/O, interrupt masking (`cli`/`sti`), end-of-interrupt signals to the PIC and the busy-waits are not modelled. The waits are `while (done_typing == 0)` in `term_read` and `while (!interrupt_flag)` in `rtc_read`. The model describes the state after each wait. The interval timer records these calls as events.
- Terminal.Terminal.Read: the model starts from the moment `done_typing` is set. It requires `buf` to hold the bytes copied, which the source never checks, and it requires `buf` to be distinct from the line buffer.
- Rtc.Rtc.Read: the model starts from the moment the interrupt has arrived. `rtc_handler` and `rtc_init` are not modelled.
- Rtc.Rtc.Write: the buffer is modelled as bytes. A non-NULL buffer of size 4 must hold at least four of them.
- Keyboard.Keyboard.Handle: requires that a pressed code reaching the printable-key branch with room in the buffer lies in the 89-row table. The source would read past the table for codes 0x59 to 0x7F.
- Keyboard.Keyboard.Handle: the effects are values, not performed. These are the echoed character (`putc`), the screen reset and the terminal switch. `switch_terminal` is not part of this model.
- Keyboard.Keyboard.Handle: the source's handler is one switch. The model splits it into one method per group of keys (release, line keys, modifiers, the rest).
- Keyboard.Keyboard.Handle: `terminal.c` names the line buffer `kbuffer`, while `keyboard.c` names it `terminals[curr_terminal_id].keyboard_buffer`. Both are the current terminal's buffer in the model.
- Syscalls.Execute: ends after the executable check. Creating the PCB, setting up memory and entering user mode are empty in the source.
- Syscalls.Execute: uses the corrected parse (see Findings).
- Syscalls.Execute: takes the token as NUL-terminated when it is looked up. The source's `file_name` buffer is never terminated.
- Syscalls.ReadCall: says which operation is called, not what it returns. The operations are modelled on their own.
- Syscalls.WriteCall: says which operation is called, not what it returns. The operations are modelled on their own.
- Syscalls.ReadCall: the source passes the descriptor number where the filesystem operations take an entry pointer. That type mismatch is not modelled.
- Syscalls.WriteCall: has the same descriptor-number type mismatch, also not modelled.
- FsInterface.InterfaceRead: names the operation called, not its result.
- FsInterface.InterfaceWrite: names the operation called, not its result.
- FsInterface.InterfaceOpen: names the operation called, not its result.
- FsInterface.InterfaceClose: names the operation called, not its result.
- FileSys.ReadData: models the corrected block checks (see Findings). `FileSys.ReadOutcomeAsWritten` states the checks as written.
- FileSys.FileRead: reads through the corrected `ReadData`. For an inode whose first data block number, or any block number crossed into, is `num_data_blocks` or more, the model returns -1 where `file_read` as written returns the count after reading outside the image. `FileSys.ReadOutcomeRefinesAsWritten` shows the two agree everywhere else.
- Syscalls.CheckMagic: reads the four magic bytes through the corrected `ReadData`. For an inode whose first data block number is `num_data_blocks` or more, the model rejects the file, where `execute` as written compares the magic against memory outside the image.
- `fs_init` is not modelled. The boot block, inodes and data blocks are given as sequences.
- `halt`, `getargs`, `vidmap`, `set_handler` and `sigreturn` are not modelled. Apart from the `hlt` loop they are stubs returning 0.
- Task.TaskInit: PCBs are modelled by the fields the slot logic touches. `task_init` sets `terminal_id` and `is_vidmapped`, which the shown `task.h` does not declare. The model gives the PCB those two fields.
- Task.GetPcb: the PCB pointer is modelled as its address.
- Paging.InitializePaging: the physical address of `page_table` is a parameter.
- Paging.InitializePaging: the 20-bit address fields keep their value modulo 2^20.
- Paging.InitializePaging: loading the directory base register and setting the paging bit (`loadPageDirectory`, `enablePaging`) are assembly, which is not part of this model. `PAGE_SIZE`, not in the shown headers, is 4096.
- Idt.SetupIdt: the handler addresses are parameters.
- Idt.SetupIdt: `NUM_VEC` is the table's length, at least 0x81, and `KERNEL_CS` is a parameter.
- Idt.SetupIdt: `SET_IDT_ENTRY` is not part of this model. It is taken to store the low and high 16 bits of the address in the two offset fields.
- Pit.PitHandler: the executing terminal is a parameter. `MAX_TERMINAL_ID`, not in the shown headers, is 3. `term_context_switch` is an event.
- Keyboard: the codes of alt (0x38) and F1 to F3 (0x3B to 0x3D) are not defined in the shown headers. They are taken from the comments of the scan-code table.
- The PIC driver, the exception handlers, the boot tests (other than the IDT test's claim) and the superseded copies of the keyboard, RTC, IDT and filesystem files are not modelled.
- Syscalls.ArgLoopAsWritten: the loop as written runs for a bounded number of passes (`fuel`). The hang is stated for every bound.
