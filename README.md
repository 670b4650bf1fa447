# LPC2148 Pacman: the FAT reader, the SD driver, the game rules and the device drivers

This project models the logic of a Pacman game for an LPC2148 board. It proves properties of that model.

## What the code does

- **Petit FatFs (`pff.c`, `pff.h`).** A read-only FAT12/16/32 engine. It mounts a volume and opens one file by its 8.3 path. It streams that file into a buffer. Everything it reads comes through a partial-sector read, `disk_readp(dest, sector, offset, count)`.
- **SD driver (`diskio.c`, `sd.c`, `spi.c`).** `diskio.c` speaks the SD card's SPI-mode protocol one byte at a time. It frames commands, polls for responses, runs bounded retry loops and picks a byte window out of a 512-byte block. `sd.c` is an older variant with do-while loops. `spi.c` sets the clock prescaler and exchanges bytes.
- **Board loading (`sdcard.c`).** Mounts the card, opens `board.txt`, reads up to 500 bytes and turns each digit into a board cell.
- **Game rules (`pacman.c`).** A 21 x 21 board with one Pacman and four ghosts. It covers moves, walls and doors, points and bonuses, the eatable-ghost countdown, and collisions that cost a life.
- **Game glue (`game.c`).** Screen coordinates and the joystick direction. The game speed and RGB colour follow the temperature. LEDs show the lives and the time left to eat ghosts, and score texts are built.
- **Device state machines (`key.c`, `pca9532.c`, `lcd.c`, `adc.c`).**
  - `key.c`: the joystick's press latch.
  - `pca9532.c`: the read-modify-write of the LED driver's selector registers.
  - `lcd.c`: the colour LCD's window commands, pixel streams and text cursor.
  - `adc.c`: the temperature conversion.

## How it is modelled

**The FAT engine works over a disk image.** The image is `seq<seq<Byte>>`, one 512-byte sequence per sector. The read `FatTypes.DiskReadp` fails exactly when the sector is not on the image.
- The file system object `PetitFs.FileSystem` is a class whose fields are those of FATFS. `mounted` stands for the global `FatFs` pointing at it.
- The directory object `PetitFs.Dir` is a class too.
- pf_read's loop, dir_next's update of the DIR fields, create_name's fill of the name buffer and the mem_set / mem_cmp loops are methods with loops. Each is proved against specification functions:
  - `FatDir.DirNextSpec` and `FatDir.Scan` for the directory walk;
  - `FatName.SegmentName` for the directory form of a path segment, and `FatName.Sfn83` for a plain 8.3 one;
  - `PetitFs.FollowSpec` for the lookup of a whole path, segment by segment, and `PetitFs.OpenSpec` for pf_open;
  - `FatFile.FileByte` and `FatFile.Delivered` for file contents.
- `FatFile.FileByte` is the byte at a file position, following the cluster chain as get_fat reads it.

**The SD driver works over a byte stream.** The class `Spi.Bus` holds the card's answer stream, a log of every byte sent, the chip-select line and the prescale register. Each SD operation is a method. Its contract ties the new log and the result to a specification function of the stream. The two layers are joined by `DiskIo.ReadsSector`: when the card answers a read command with a sector of the image, the corrected disk_readp yields exactly what the FAT engine's abstract read yields.

**The game is a class `Pacman.Game`.**
- Its fields are the globals of `pacman.c`. `board` is a 21 x 21 array.
- The function-pointer callbacks are the datatype `Behaviour`.
- The registered handlers are a set of hooks. Each handler call is appended to an event log.
- makeMove is proved against the value-level function `Pacman.MadeMove` over a snapshot of the game state. The reset step is `Pacman.ResetRound`. Any other step is `Pacman.Played`:
  - the moves, `Pacman.MovedState`, through `Pacman.Moves`, `Pacman.Turns` and `Pacman.Collide`;
  - then `Pacman.Fed`: the eating (`Pacman.EatenAt`), the count-down (`Pacman.CountedDown`) and the level check (`Pacman.LevelChecked`).
- `Pacman.MadeMoveSound` and the lemmas beside it prove what a step keeps: the game stays sound, at most one life is lost, no point is added, and handler calls are only appended.

**The device drivers are classes over their hardware:**
- `Key.Joystick` keeps the released flags and the latched key;
- `Pca9532.Driver` keeps the chip's register bank and a log of I2C commands;
- `Lcd.Driver` keeps the cursor, the colours, the colour mark and a log of LCD line events;
- `Game.Console` keeps game.c's globals, with the LED driver as a field.

**Integers.**
- C's 8-, 16- and 32-bit unsigned types are `Byte`, `U16` and `U32`.
- Wrap-around is written out with `ByteOf`, `U16Of` and `U32Of` wherever the C code wraps: the score, the lives, the board coordinates, cluster and sector arithmetic.

**Constants and code differences.**
- `pff.h` defines only `FS_FAT32 = 3`. The FAT12 and FAT16 codes the code also uses are given the values 1 and 2 (`FatTypes.FsCode`).
- IsDBCS1 is constantly 0, so create_name's double-byte branch is dead and is not modelled.
- Where the documented behaviour of Petit FatFs and its code disagree, the model follows the code:
  - pf_read's `*br` counts the bytes of every completed chunk, also when a later chunk fails;
  - the root directory's sector count is `n_rootdir / 16` rounded down.

## Model

| member | source | states |
|---|---|---|
| ByteOrder.LdWord | pff.h:128 | LD_WORD is little-endian: the low byte of the word is p[at], the high byte p[at+1] |
| ByteOrder.LdDword | pff.h:129 | LD_DWORD is little-endian: its low half is LD_WORD at at, its high half LD_WORD at at+2 |
| ByteOrder.StWord | pff.h:130 | ST_WORD stores two bytes |
| ByteOrder.StDword | pff.h:131 | ST_DWORD stores four bytes |
| ByteOrder.LoadStoreWord | pff.h:128-130 | LD_WORD after ST_WORD gives back every 16-bit value |
| ByteOrder.StoreLoadWord | pff.h:128-130 | ST_WORD of LD_WORD gives back every pair of bytes |
| ByteOrder.LoadStoreDword | pff.h:129-131 | LD_DWORD after ST_DWORD gives back every 32-bit value |
| FatTypes.FsCode | pff.h:61 | the FAT sub-type codes are 1..3, with 3 exactly for FAT32 |
| FatTypes.FsCodeInjective | pff.c:128-159 | distinct sub-types have distinct codes, so get_fat's switch tells them apart |
| FatTypes.DiskReadp | pff.c:135 | the abstract partial-sector read succeeds iff the sector is on the disk, and then returns count bytes from offset ofs |
| FatTypes.Clust2SectValue | pff.c:177-186 | clust2sect is (clst-2)*csize + database in 32 bits for 2 <= clst < max_clust, and 0 otherwise, including the wrapped clst < 2 |
| FatTypes.MemSet | pff.c:67-74 | mem_set sets exactly the first cnt bytes to (char)val; nothing else changes, and a count <= 0 does nothing |
| FatTypes.MemCmp | pff.c:91-105 | mem_cmp returns 0 iff the first cnt bytes agree; otherwise it returns the difference at the first byte where they differ |
| FatTable.FatByte | pff.c:132-145 | a byte of the FAT area can be read iff its sector is on the disk |
| FatTable.GetFat | pff.c:125-126 | get_fat returns the sentinel 1 for a cluster below 2 or at max_clust and above |
| FatTable.GetFatIsFatEntry | pff.c:120-162 | for an in-range cluster, get_fat equals the FAT entry as the format lays it out (`FatEntry`), or 1 when a read fails |
| FatTable.Fat12Entry | pff.c:129-147 | FAT12: the 12 bits at byte clst + clst/2, including an entry split across two sectors; the high 12 bits for odd clusters, the low 12 for even |
| FatTable.Fat16Entry | pff.c:149-153 | FAT16: the little-endian word at byte 2*clst |
| FatTable.Fat32Entry | pff.c:154-158 | FAT32: the low 28 bits of the little-endian double word at sector fatbase + clst/128, offset (clst%128)*4 |
| FatTable.Fat32Read | pff.c:154-158 | get_fat's FAT32 branch is the 4-byte read at that sector and offset, masked to 28 bits, or 1 when the read fails |
| FatTable.Fat12Select | pff.c:147 | `clst & 1 ? wc >> 4 : wc & 0xFFF` selects the high 12 bits of odd entries and the low 12 bits of even ones |
| FatTable.Mask28 | pff.c:158 | `& 0x0FFFFFFF` keeps the low 28 bits |
| FatMount.CheckFs | pff.c:451-468 | check_fs gives 3 when the sector cannot be read, 2 without the 0x55AA signature, 0 with the signature and "FA" at offset 54 or 82, and 1 otherwise |
| FatMount.TagAt | pff.c:462-465 | "FA" is at the offset iff the sector exists and holds it there |
| FatMount.LocateBoot | pff.c:501-519 | the boot sector is sector 0 unless sector 0 is a non-FAT boot record with a non-empty first partition type; then it is that partition's start LBA, followed once |
| FatMount.FatSz | pff.c:530-532 | the FAT size is BPB_FATSz16, or BPB_FATSz32 when the 16-bit field is 0 |
| FatMount.TotSec | pff.c:540-542 | the total sector count is BPB_TotSec16, or BPB_TotSec32 when the 16-bit field is 0 |
| FatMount.TypeOf | pff.c:544-549 | the volume is FAT12 below 0xFF7 clusters, FAT16 from 0xFF7 and FAT32 from 0xFFF7 |
| FatMount.MountGeometry | pff.c:522-560 | the geometry is refused iff sectors per cluster is 0; otherwise csize, n_rootdir and fatbase = bsect + rsvd are the BPB's, and the type matches the cluster count |
| FatMount.MountFields | pff.c:536-559 | max_clust = (tsect - rsvd - fatsize*nFATs - n_rootdir/16)/csize + 2 and database = fatbase + fatsize*nFATs + n_rootdir/16, in 32 bits |
| FatMount.MountSpec | pff.c:486-566 | pf_mount gives FR_NOT_READY iff disk_initialize reports STA_NOINIT, FR_DISK_ERR only when the boot sector cannot be read, FR_NO_FILESYSTEM otherwise when it is not a FAT boot sector, and FR_OK exactly with a volume whose geometry is the BPB's |
| FatMount.MountAccepts | pff.c:486-566 | pf_mount gives FR_OK exactly when the drive is ready, a FAT boot sector is found and its cluster size is not 0, and it then registers that boot sector's geometry |
| FatMount.GeometryFits | pff.c:536-559 | on a consistent BPB the data area starts after the reserved, FAT and root sectors, and every data cluster's sectors lie inside the volume |
| FatName.ToUpper | pff.h:136 | a-z lose 0x20 and become A-Z, every other byte is kept, and no result is a lower-case letter |
| FatName.SegEnd | pff.c:339-344 | a path segment ends at its first byte <= ' ' or '/' |
| FatName.DotIn | pff.c:345-351 | the first '.' of a segment, or its end |
| FatName.UpperAll | pff.c:362-365 | every byte of a name part upper-cased |
| FatName.Sfn83 | pff.c:334-368 | the 11-byte directory form of a plain 8.3 segment |
| FatName.Field | pff.c:334 | a name part space-padded to its width |
| FatName.CreateName | pff.c:328-374 | create_name writes the directory form `SegmentName` of the segment at start into fn[0..10], sets fn[11] to 1 iff the byte that ended the segment is <= ' ', and returns where the next segment starts; no byte written is lower case, and a plain 8.3 segment gives `Sfn83` and ends on its terminator |
| FatName.SegmentParts | pff.c:339-368 | where create_name's loop takes the name part (at most 8 bytes from start), the extension (at most 3 bytes after the first '.') and where the next segment starts: after the terminator, after a ninth name byte, after a second '.' or after a fourth extension byte |
| FatName.SegmentName | pff.c:334-368 | the 11-byte directory form: the upper-cased name part padded to 8, then the upper-cased extension padded to 3 |
| FatName.PlainSegment | pff.c:334-368 | on a plain 8.3 segment the directory form is `Sfn83` and the next segment starts after the terminator |
| FatName.SegEndAt | pff.c:339-344 | a terminator at x with none before it is where the segment ends |
| FatName.DotAt | pff.c:345-351 | a '.' at x with none before it in the segment is its first dot |
| FatName.NameLoop | pff.c:339-368 | the loop of create_name stops on a terminator, on the first '.' of the name part or on a byte past its width; the bytes written so far are the upper-cased parts seen |
| FatName.NameComplete | pff.c:339-368 | where the loop stops, the 11 bytes are `SegmentName` and the next segment starts at `SegmentParts`' next |
| FatName.BoardFileName | sdcard.c:91 | "board.txt" is a plain 8.3 name whose directory form is "BOARD   TXT" |
| FatDir.EntryAt | pff.c:301-303 | the 32-byte entry at a directory position |
| FatDir.RewindSpec | pff.c:201-217 | dir_rewind fails iff sclust is 1 or at least max_clust; it puts index 0, with cluster 0 on FAT32 replaced by dirbase |
| FatDir.RewindInPlace | pff.c:210-215 | the rewound position's sector is the first of its cluster, or dirbase for the static root |
| FatDir.StartCluster | pff.c:606 | the start cluster is DIR_FstClusHI << 16 \| DIR_FstClusLO |
| FatDir.DirNextSpec | pff.c:233-268 | dir_next advances the index by one; the sector changes only every 16 entries; a static table ends with FR_NO_FILE at n_rootdir; a failed index or sector leaves the index |
| FatDir.DirNextKeepsPlace | pff.c:243-263 | after a step the sector still belongs to the index: in the static table, within the cluster, or at the start of the next linked cluster |
| FatDir.StepInSector | pff.c:243 | inside a sector, a step keeps the sector and cluster |
| FatDir.StepStatic | pff.c:245-248 | in the static root table a step moves to the next sector |
| FatDir.StepDynamic | pff.c:249-262 | in a cluster chain a step moves to the next sector, or to the FAT link's first sector every csize sectors |
| FatDir.ScanOutcome | pff.c:285-313 | dir_find ends in FR_OK, FR_NO_FILE or FR_DISK_ERR; on FR_OK the entry it holds is the on-disk entry at its position, not free, and matches the 11-byte name, and every entry before it was skipped (in use and no match); on FR_NO_FILE every entry before the end was skipped, and the end is a free entry or the last one dir_next could step from |
| FatDir.ScanKeepsPlace | pff.c:285-313 | the position dir_find stops at is a valid directory position |
| FatDir.ScanName | pff.c:301-303 | dir_find compares only the first 11 bytes of the name |
| FatFile.ChainAt | pff.c:663-668 | the k-th cluster of a chain is a cluster number >= 2 |
| FatFile.DeliveredExtend | pff.c:652-683 | bytes delivered in two consecutive runs are delivered as one run |
| FatFile.ContiguousChain | pff.c:663-668 | on a contiguous chain the k-th cluster is org + k |
| FatFile.ContiguousSectors | pff.c:660-672 | on a contiguous file, sector s of the file is the cluster's first sector plus s |
| FatFile.ClusterBoundary | pff.c:662-668 | at a cluster boundary pf_read follows the FAT link of the current cluster |
| FatFile.InsideCluster | pff.c:660-670 | inside a cluster the current cluster stays and csect counts the sectors used |
| FatFile.EnterCluster | pff.c:669-672 | entering a sector: clust2sect 0 means the file has no such sector; otherwise dsect is the cluster's sector plus csect |
| FatFile.EnterStepState | pff.c:658-674 | the state pf_read keeps at a sector start is the one of that file sector, or the file byte there cannot be read |
| FatFile.ChunkBytes | pff.c:675-681 | a chunk read from the file sector delivers the file's bytes |
| FatFile.ChunkFails | pff.c:675-679 | a chunk whose read fails reports a file byte that cannot be read |
| FatFile.ChunkEnd | pff.c:676-683 | a chunk ends inside the sector it started in |
| PetitFs.SkipSpaces | pff.c:396-397 | the first byte from k on that is not a space |
| PetitFs.PathStart | pff.c:396-401 | follow_path starts after the leading spaces and one '/' |
| PetitFs.FollowSpec | pff.c:392-433 | the lookup of a path from a segment on, in a directory: each segment's name (with its last-segment flag fn[11]) is looked up with `Scan`; a missing segment is FR_NO_FILE if it is the last, FR_NO_PATH otherwise; a found last segment is FR_OK; a found earlier one must be a directory (else FR_NO_PATH), whose start cluster the next segment is looked up in; an unrewindable directory is FR_DISK_ERR; the name buffer is 12 bytes |
| PetitFs.FollowOutcome | pff.c:392-433 | a lookup ends in FR_OK, FR_NO_FILE, FR_NO_PATH or FR_DISK_ERR; FR_OK only with the last segment's matching, used entry in the buffer, read at the position the lookup stopped at; FR_NO_FILE only on the last segment and FR_NO_PATH only before it |
| PetitFs.FollowLast | pff.c:392-433 | on a plain 8.3 last segment the lookup is one `Scan` of its directory form with the flag 1 |
| PetitFs.OpenSpec | pff.c:584-614 | pf_open on a mounted volume: the root directory (empty path) is FR_NO_FILE with a blank entry; a directory found is FR_NO_FILE; otherwise the lookup's result; FR_OK only with a used entry that is not a directory |
| PetitFs.OpenFound | pff.c:597-613 | a file opened is the last segment's matching entry, on disk at the position the lookup stopped at |
| PetitFs.OpenPlain | pff.c:584-614 | a path of one plain 8.3 segment is opened by one root lookup of its directory form; a directory found there is FR_NO_FILE |
| PetitFs.ReadInto | pff.c:675-679 | disk_readp into a buffer writes the sector's bytes there iff the sector exists, and nothing else |
| PetitFs.Dir.constructor | pff.c:586-587 | a fresh DIR with a 12-byte name buffer, at index 0 |
| PetitFs.FileSystem.constructor | sdcard.c:37 | a fresh FATFS over a disk, not registered and not open |
| PetitFs.FileSystem.Mount | pff.c:486-566 | pf_mount(NULL) unregisters and returns FR_OK; otherwise the result and the new geometry are `MountSpec`'s, flag is cleared on success; on failure nothing is mounted, and vol and flag keep their values |
| PetitFs.FileSystem.DirRewind | pff.c:201-217 | dir_rewind moves the DIR to `RewindSpec`'s position, or reports FR_DISK_ERR with the index at 0 |
| PetitFs.FileSystem.DirNext | pff.c:233-268 | dir_next's result and new position are `DirNextSpec`'s |
| PetitFs.FileSystem.DirFind | pff.c:285-313 | dir_find's result, position and entry are `Scan`'s from the rewound position; on FR_OK the entry is on disk there and matches |
| PetitFs.FileSystem.FollowPath | pff.c:392-433 | after the leading spaces and one '/', an empty path gives the rewound root with a blank entry; any other path gives the result, entry buffer, last name, directory and position of `FollowSpec` from the root |
| PetitFs.FileSystem.FollowSegment | pff.c:408-431 | one round of follow_path: the segment's name is `SegmentName` with the last-segment flag; it goes on (more) only with FR_OK, a directory entry and not the last segment, and then the lookup from the next segment in the directory at the entry's start cluster is the same as from this one; otherwise it ends where `FollowSpec` ends |
| PetitFs.FileSystem.Open | pff.c:584-614 | pf_open gives FR_NOT_ENABLED and changes nothing when nothing is mounted; otherwise the result and entry buffer are `OpenSpec`'s, the flag is FA_OPENED iff the result is FR_OK, and then the file's start cluster and size are the entry's and fptr is 0; on any failure the start cluster, size and fptr keep their values |
| PetitFs.FileSystem.OpenEntry | pff.c:602-613 | the last step of pf_open: FR_OK iff the entry is used and not a directory; FR_NO_FILE leaves the start cluster, size and fptr as they were |
| PetitFs.FileSystem.EnterSector | pff.c:658-674 | at a sector start the cluster, csect and dsect are `EnterStep`'s |
| PetitFs.FileSystem.SeekSector | pff.c:655-674 | the read position reaches the sector of fptr, or the file is closed at a byte that cannot be read |
| PetitFs.FileSystem.CopyChunk | pff.c:675-682 | one chunk: up to the sector end, the file's bytes delivered into the buffer at br, and nothing else written |
| PetitFs.FileSystem.ReadChunk | pff.c:653-682 | one round of pf_read's loop extends the delivered prefix of the buffer, or closes the file at a byte that cannot be read |
| PetitFs.FileSystem.Read | pff.c:634-690 | pf_read gives FR_NOT_ENABLED or FR_NOT_OPENED with nothing read; otherwise it reads min(btr, fsize - fptr) bytes of the file into the buffer and the rest of the buffer is untouched; FR_OK means all of them with fptr advanced by br; FR_DISK_ERR means the file is closed at the first byte that cannot be read |
| PetitFs.FileSystem.ReadLoop | pff.c:652-689 | the loop of pf_read: `ReadOutcome` for n bytes from fptr |
| Spi.Idle | spi.c:29-30 | n bytes of 0xFF |
| Spi.IdleSplit | spi.c:29-30 | m then n idle bytes are m + n idle bytes |
| Spi.ClearBitZero | spi.c:35 | `speed & 0xFE` clears bit 0 |
| Spi.PrescaleRange | spi.c:34-41 | the prescale is even and at least 64; an even speed from 64 is kept, an odd one above 64 loses 1, and one up to 64 becomes 64 |
| Spi.PrescaleIdempotent | spi.c:34-41 | setSpiSpeed of its own result changes nothing |
| Spi.Bus.constructor | spi.c:53 | a bus over a card's answer stream with nothing sent |
| Spi.Bus.Send | spi.c:55-69 | one byte sent and the card's next answer returned |
| Spi.Bus.Select | spi.h:55 | chip select asserted |
| Spi.Bus.Unselect | spi.c:12 | chip select released |
| Spi.Bus.SetSpeed | spi.c:34-41 | the prescale register holds the clamped speed |
| Spi.Bus.Init | spi.c:6-32 | initSpi releases the card, sets prescale 254 and clocks 21 idle bytes |
| DiskIo.CommandToken | diskio.c:170 | the token is 0x40 \| cmd |
| DiskIo.CommandFrame | diskio.c:166-182 | an SD command frame is 8 bytes |
| DiskIo.FrameArgument | diskio.c:166-182 | the frame is 0xFF, the token, the big-endian argument paramx:paramy, the fixed CRC 0x95 and 0xFF |
| DiskIo.ReadAddress | diskio.c:83-85 | the read command is CMD17 with the 32-bit address 512*sector as its argument |
| DiskIo.SdCommand | diskio.c:166-182 | sdCommand sends exactly the frame and leaves the card released |
| DiskIo.Resp8b | diskio.c:184-198 | sdResp8b takes 1 to 8 transfers |
| DiskIo.Resp8bMeaning | diskio.c:184-198 | sdResp8b returns the first answer that is not 0xFF, every earlier answer was 0xFF, and 0xFF comes back only after all 8 |
| DiskIo.SdResp8b | diskio.c:184-198 | the byte returned and the idles clocked are `Resp8b`'s; the card stays selected iff it answered |
| DiskIo.Resp16bBytes | diskio.c:200-210 | sdResp16b's high byte is sdResp8b's answer and its low byte the next one; the word is 0 iff both are |
| DiskIo.SdResp16b | diskio.c:200-210 | the word returned and the bytes clocked are those of `Resp16b` |
| DiskIo.StateCode | diskio.c:271-283 | sdState gives 1 iff the status word is 0, else -1 |
| DiskIo.SdState | diskio.c:241-284 | sdState sends CMD13 and decodes the status word |
| DiskIo.Retry | diskio.c:128-133 | a bounded retry runs at most n times and stops early only once its goal is met |
| DiskIo.InitCodes | diskio.c:122-164 | sdInit sends CMD0 1..100 times and CMD1 at most 32000 times; -1 iff no card answered CMD0, -2 iff CMD0's last answer was neither 0xFF nor 1, -3 iff CMD1 did not end on 0, 0 iff it did |
| DiskIo.RetryLoop | diskio.c:128-156 | the retry loop's answer and log are `Retry`'s |
| DiskIo.SdInit | diskio.c:122-164 | sdInit's code and log are `InitSpec`'s with 100 and 32000 tries |
| DiskIo.NoCard | diskio.c:135-137 | with no card every CMD0 goes unanswered, all 100 are sent and the code is -1 |
| DiskIo.RetrySilent | diskio.c:128-137 | a retry that never gets its awaited answer 1 runs all n rounds of 16 bytes, and with any round run it ends on 0xFF |
| DiskIo.DiskInitialize | diskio.c:50-63 | disk_initialize's status, log, chip select and prescale are `DiskInitSpec`'s |
| DiskIo.DiskStatus | diskio.c:50-63 | the status is 0, STA_NOINIT or STA_NOREADY; it has the STA_NOINIT bit iff it is not 0; it is 0 iff sdInit gave 0 and the status word is 0, and then the prescale is 64 |
| DiskIo.Span | diskio.c:104 | the data bytes clocked after the skipped ones: 512 - sofs |
| DiskIo.Stored | diskio.c:104-110 | bytes stored: count, or fewer when the sector ends first |
| DiskIo.Window | diskio.c:104-110 | the answers of a window of the stream, in order |
| DiskIo.TokenPoll | diskio.c:90-93 | the start-token poll runs at most fb_timeout times and stops early only on a byte that is not 0xFF |
| DiskIo.WaitStartBlock | diskio.c:90-93 | the poll's token and log are `TokenPoll`'s |
| DiskIo.ReadSpec | diskio.c:72-120 | a read gives RES_OK with `Stored` bytes and the card released, or RES_ERROR with none |
| DiskIo.ReceiveBlock | diskio.c:99-116 | the window of the block: sofs bytes skipped, `Stored` bytes placed from the destination's start, 512 - sofs data bytes and 2 CRC bytes clocked, the card released |
| DiskIo.DiskReadp | diskio.c:72-120 | disk_readp with the poll started on 0xFF: result, log and stored bytes are `ReadSpec`'s |
| DiskIo.DiskReadpAsWritten | diskio.c:72-120 | disk_readp as written: result and log are `ReadSpec`'s with the poll started on 0 |
| DiskIo.AsWrittenAlwaysFails | diskio.c:78-98 | as written, disk_readp returns RES_ERROR after the command and one response, whatever the card answers |
| DiskIo.ReadsBlock | diskio.c:72-120 | a card that accepts the command and sends the start token and a block gives RES_OK with bytes sofs..sofs+count of the block |
| DiskIo.ReadsSector | diskio.c:72-120 | a card that sends a sector of the disk image gives what the abstract partial-sector read of that sector gives |
| SdLegacy.Sd.constructor | sd.c:69-70 | sd.c's globals start at 0 |
| SdLegacy.Sd.SdCommand | sd.c:50-67 | sd.c's sdCommand sends the same frame as diskio.c's |
| SdLegacy.Sd.SdResp8b | sd.c:69-83 | sd.c's sdResp8b returns `Resp8b`'s answer, stores it in the global resp8b, and leaves the global i at the last transfer's index, or 8 |
| SdLegacy.Sd.SdResp16b | sd.c:85-95 | sd.c's sdResp16b returns `Resp16b` and stores it in the global resp16 |
| SdLegacy.Sd.SdState | sd.c:126-168 | sd.c's sdState decodes the status word like diskio.c's |
| SdLegacy.Sd.RetryDoWhile | sd.c:14-19 | a do-while with `i--` in its condition runs count + 1 times at most |
| SdLegacy.Sd.SdInit | sd.c:8-48 | sd.c's sdInit is `InitSpec` with 101 and 32001 tries |
| SdLegacy.OneMoreReset | sd.c:14-19 | with no card sd.c sends 101 resets, one more than diskio.c |
| SdCard.ScanEnd | sdcard.c:115 | the parse stops at the first 0 byte or the buffer end |
| SdCard.Cells | sdcard.c:115-122 | at most one cell per byte |
| SdCard.ParsedPrefix | sdcard.c:114-122 | the cells of any prefix before the terminator are a prefix of the parse |
| SdCard.CellsWithoutLineEnds | sdcard.c:120-121 | without line ends every byte b becomes the cell b - '0' |
| SdCard.LineEndSkipped | sdcard.c:116-118 | '\n' and '\r' add no cell |
| SdCard.ParseAsWritten | sdcard.c:114-122 | the parse loop as written writes every kept byte to the board from cell 0 and nothing after |
| SdCard.BoardOverflow | sdcard.c:83-122 | a file of 500 digits gives 500 cells, more than the 441 of the board |
| SdCard.ParseBoard | sdcard.c:114-122 | the parse bounded by the board writes the first min(kept bytes, cells) cells and nothing else |
| SdCard.ParsedText | sdcard.c:104-115 | parsing the zeroed buffer after a read parses the bytes read up to their first 0 |
| SdCard.BoardPath | sdcard.c:91 | "board.txt" starts at its first byte and is one plain 8.3 segment whose directory form, with the last-segment flag, is "BOARD   TXT" + [1] |
| SdCard.BoardLookup | sdcard.c:91 | pf_open("board.txt") is one lookup of "BOARD   TXT" in the root directory, and a directory of that name is FR_NO_FILE |
| SdCard.OpenBoard | sdcard.c:54-101 | a failed mount gives its result with no volume registered and the flag and buffer as they were; after a mount the volume is `MountSpec`'s and the result and buffer are those of `OpenSpec` on "board.txt"; the file is open at its start, with the entry's cluster and size, exactly on FR_OK |
| SdCard.ReadBoard | sdcard.c:83-126 | readBoard's mount and open are `OpenBoard`'s; a failed open gives its result with nothing read; after a successful open pf_read reads into a zeroed 500-byte buffer: on FR_OK the text is the first min(500, file size) bytes of board.txt and the board is their bounded parse; on FR_DISK_ERR the text is the file's bytes before the first one that cannot be read, the file is closed and the board is left alone |
| SdCard.ReadOpened | sdcard.c:102-126 | the read and parse once board.txt is open: `BoardRead`, FR_OK with the request read and parsed, or FR_DISK_ERR with the file closed and the board untouched |
| Adc.GetTemperature | adc.c:38-46 | 26 when the sensor does not answer, else the high byte of the reading |
| Adc.TemperatureIsHighByte | adc.c:42-45 | (((d0 << 8) + d1) >> 7) / 2 is d0, and the half degree is d1's top bit |
| Pacman.Emit | pacman.c:660-705 | a handler is called iff it is registered |
| Pacman.DirectionOf | pacman.h:24 | directions are numbered LEFT=0, RIGHT=1, UP=2, DOWN=3 |
| Pacman.CalculateMove | pacman.c:122-133 | a move changes exactly one coordinate by one in 8 bits, as the direction says |
| Pacman.TurnBack | pacman.c:170-177 | turnBack gives the opposite direction |
| Pacman.TurnBackTwice | pacman.c:170-177 | turning back twice gives the direction back |
| Pacman.StepBack | pacman.c:122-177 | a move followed by the turned-back move returns to the start |
| Pacman.StepOnBoard | pacman.c:122-133 | a move from inside the frame stays on the board |
| Pacman.ExitHomeRule | pacman.c:227-244 | defaultExitHome steps one field closer to the house exit, and hands over to defaultGhostMovement at (10,6) |
| Pacman.LeavesHouse | pacman.c:227-244 | following defaultExitHome from inside the house reaches (10,6) |
| Pacman.StayAtHomeRule | pacman.c:259-268 | defaultStayAtHome waits timeToStart steps in homeDirection, then hands over to defaultExitHome |
| Pacman.WaitsTimeToStart | pacman.c:259-268 | after timeToStart steps the ghost is leaving |
| Pacman.GhostMovementRule | pacman.c:359-365 | at (10,6) the ghost goes left if it came going left and right otherwise; elsewhere it takes the direction `steer` that the search picked |
| Pacman.GhostPickStalls | pacman.c:366-377 | as written, a ghost going UP with random number 2 tries DOWN, skips it as the way back with `ranDir++` and returns 4, a value of no direction, whose move leaves it where it is |
| Pacman.GhostPickSound | pacman.c:366-377 | the search with the skip modulo 4 returns a direction whose field can be entered; it turns back only when the three other directions are blocked; and it finds none exactly when all four are blocked |
| Pacman.HomeDirection | pacman.c:334-342 | the search tries directions in the order LEFT, RIGHT, UP, DOWN and yields the first that reaches the birthplace |
| Pacman.GoBackHomeRule | pacman.c:283-344 | eyes at their birthplace become a ghost leaving the house; at (10,8) on the default board they step onto an adjacent birthplace |
| Pacman.EyesEnterHouse | pacman.c:334-342 | from (10,8) the eyes step left to (9,8) or right to (11,8) |
| Pacman.Dispatch | pacman.c:191-195 | the chosen callback decides the direction |
| Pacman.AllGhosts | pacman.c:673-675 | after a life is lost every ghost is a plain ghost |
| Pacman.Frightened | pacman.c:723-727 | a bonus turns exactly the plain ghosts eatable |
| Pacman.Calmed | pacman.c:738-744 | the end of the countdown turns exactly the eatable ghosts plain |
| Pacman.RowPointEaten | pacman.c:389-400 | emptying a POINT cell takes one point off its row |
| Pacman.RowOtherEaten | pacman.c:389-400 | emptying a cell that does not hold a POINT keeps its row's point count |
| Pacman.PointEaten | pacman.c:712-715 | emptying a cell takes one point off the board iff it held a POINT |
| Pacman.DefaultWalled | pacman.c:27-49 | the default board's frame is all walls |
| Pacman.PassableInside | pacman.c:148-156 | on a walled board a passable step from inside stays inside |
| Pacman.StepOf | pacman.c:191-212 | move goes to the nextDirection step if passable, else the currentDirection step if passable, else stays; currentDirection becomes nextDirection only in the first case |
| Pacman.Started | pacman.c:648 | Pacman's move changes only Pacman and its move record |
| Pacman.GhostMoved | pacman.c:651 | a ghost's move changes only that ghost and its move record |
| Pacman.Caught | pacman.c:667-681 | a catch costs a life, asks for a reset and makes every ghost plain |
| Pacman.CollisionRules | pacman.c:652-709 | a non-eatable ghost meeting Pacman costs one life; an eatable one becomes eyes going home and scores the points for eating; without a meeting nothing changes; events are only appended |
| Pacman.TurnStep | pacman.c:650-710 | the ghost loop stops at the first catch and otherwise goes on with the lives unchanged |
| Pacman.TurnsLives | pacman.c:650-710 | the ghost loop costs at most one life |
| Pacman.TurnsEvents | pacman.c:650-710 | the ghost loop only appends events to the log |
| Pacman.MovesOutcome | pacman.c:648-710 | the moves of one step keep everyone inside, only append events and cost at most one life |
| Pacman.EatenWalled | pacman.c:712-731 | eating keeps the frame walled and takes a point off iff the cell held a POINT |
| Pacman.StartSound | pacman.c:411-500 | after initPacman on a walled board the game is sound: everyone inside and the points counter right |
| Pacman.PointSound | pacman.c:712-715 | eating a POINT keeps the game sound |
| Pacman.BonusSound | pacman.c:719-727 | eating a BONUS keeps the game sound |
| Pacman.GhostKindsSound | pacman.c:673-744 | changing only how the ghosts behave, not where they are, keeps the game sound |
| Pacman.MovedSound | pacman.c:648-651 | moves that keep every character inside keep the game sound |
| Pacman.EatenAtSound | pacman.c:712-731 | eating keeps the game sound, takes one point off the board iff Pacman's field held a POINT, changes only the board, the score, the ghosts' kinds, the counters and appended handler calls |
| Pacman.CountedDownSound | pacman.c:733-745 | the countdown keeps the game sound, changes only the eating time, the ghosts' kinds and appended handler calls, and when it runs out no ghost is eatable |
| Pacman.FedSound | pacman.c:712-749 | eating, countdown and level check keep the game sound, add no point, leave Pacman, the moves, the lives and the reset flag alone, append handler calls and report the level complete last when no point is left |
| Pacman.ResetSound | pacman.c:629-646 | the reset step keeps the game sound: every character on its birthplace, each ghost waiting at home for its start time with its kind kept, every move from its field to itself, the flag cleared, and the score, lives and handler calls unchanged |
| Pacman.PlayedSound | pacman.c:648-749 | a step past the reset keeps the game sound, appends handler calls, adds no point, keeps the lives with no reset asked for or loses one (8 bits) and asks for the reset, and reports the level complete last when no point is left |
| Pacman.MadeMoveSound | pacman.c:625-752 | a whole makeMove step keeps the game sound and appends handler calls; the reset step keeps the board, counters, events and lives and clears the flag; any other step is as `PlayedSound` says |
| Pacman.Game.Rows | pacman.c:51 | the board array as rows |
| Pacman.Game.constructor | pacman.c:51-77 | zeroed globals with no handler registered |
| Pacman.Game.SetDirectionCallback | pacman.c:511-513 | Pacman's callback is replaced |
| Pacman.Game.SetGhostDirectionCallback | pacman.c:525-529 | the ghost's callback is replaced, and nothing changes for an index out of range |
| Pacman.Game.SetHandler | pacman.c:540-608 | registering or clearing a handler |
| Pacman.Game.CalculatePointsToComplete | pacman.c:389-400 | the count of POINT cells on the board |
| Pacman.Game.CopyDefaultBoard | pacman.c:413-421 | the board becomes the default board |
| Pacman.Game.StartCounters | pacman.c:424-431 | level, lives and score start over; pointsToCompleteLevel is the board's point count in 8 bits |
| Pacman.Game.PlaceCharacters | pacman.c:433-495 | Pacman and the four ghosts get their starting fields, directions and times |
| Pacman.Game.InitPacman | pacman.c:411-500 | initPacman copies the default board only when asked, starts the counters, places the characters and reports the lives; a walled board gives a sound game |
| Pacman.Game.Passable | pacman.c:148-156 | canMove is false on WALL, false on DOORS for Pacman only, and true otherwise |
| Pacman.Game.DefaultGoBackHome | pacman.c:283-344 | the eyes' callback follows `GoBackHomeRule` |
| Pacman.Game.UpdateDirection | pacman.c:191-195 | calling the character's callback follows `Dispatch` |
| Pacman.Game.MoveCharacter | pacman.c:191-212 | move follows `StepOf` |
| Pacman.Game.ResetPositions | pacman.c:629-646 | every character is at its birthplace with from == to, ghosts wait their start time again, and the flag is cleared |
| Pacman.Game.AllPlainGhosts | pacman.c:673-675 | every ghost becomes plain |
| Pacman.Game.LoseLife | pacman.c:668-678 | a catch follows `Caught` |
| Pacman.Game.EatGhost | pacman.c:660-666 | eating a ghost scores the points for eating and reports them |
| Pacman.Game.MoveGhost | pacman.c:651 | one ghost moves as `GhostMoved` says |
| Pacman.Game.Collision | pacman.c:652-709 | the collision checks follow `Collide`, and the loop stops iff Pacman was caught |
| Pacman.Game.MoveAll | pacman.c:648-710 | Pacman's and the ghosts' moves follow `Moves` |
| Pacman.Game.GhostPass | pacman.c:650-710 | one round of the ghost loop |
| Pacman.Game.MovePacman | pacman.c:648 | Pacman moves as `Started` says |
| Pacman.Game.FrightenGhosts | pacman.c:723-727 | the ghosts become `Frightened` |
| Pacman.Game.CalmGhosts | pacman.c:738-744 | the ghosts become `Calmed` |
| Pacman.Game.Eat | pacman.c:712-731 | a POINT is emptied, scores 1 and takes one off the points to complete; a BONUS is emptied, scores its points, starts the countdown at 31 and frightens the plain ghosts; both report the score; any other field changes nothing |
| Pacman.Game.EatPoint | pacman.c:712-718 | eating a POINT |
| Pacman.Game.EatBonus | pacman.c:719-730 | eating a BONUS |
| Pacman.Game.EmptyField | pacman.c:713 | the field becomes EMPTY |
| Pacman.Game.CountDown | pacman.c:733-745 | a running countdown goes down by one and is reported, and at 0 the eatable ghosts calm down; a stopped one changes nothing |
| Pacman.Game.MoveAllValid | pacman.c:648-710 | the new state is `MovedState` of the old one (Pacman and the ghosts move with their collision checks as `Moves` says), still sound, with at most one life lost and events only appended |
| Pacman.Game.MakeMove | pacman.c:625-752 | the new state is `MadeMove` of the old one: with the reset flag set, every character goes back to its birthplace and the board, score, lives, countdown and events stay; otherwise the lives are kept with no reset asked for, or exactly one is lost (8 bits) and the reset asked for; events are only appended, and a level with no points left is reported last |
| Pacman.Game.Restart | pacman.c:629-646 | the reset step: the new state is the old one with `ResetRound` for the characters, Pacman and each ghost back at home, the flag cleared |
| Pacman.Game.Play | pacman.c:648-749 | the new state of a step past the reset is `Played` of the old one, still sound, with the lives kept and no reset asked for or one lost and the reset asked for, events only appended, and level completion reported last |
| Pacman.Game.Advance | pacman.c:648-749 | the moves, then the eating, countdown and level check: the new state is `Played` of the old one, and level completion is reported last |
| Pacman.Game.EatValid | pacman.c:712-731 | the new state is `EatenAt` of the old one: a POINT is emptied, scores 1 and takes one off the points to complete; a BONUS is emptied, scores the bonus, starts the countdown at 31 and frightens the plain ghosts; the game stays sound and events are only appended |
| Pacman.Game.CountDownValid | pacman.c:733-745 | the new state is `CountedDown` of the old one: a running countdown goes down by one and is reported, and at 0 the eatable ghosts calm down; the game stays sound |
| Pacman.Game.Feed | pacman.c:712-749 | the new state is `Fed` of the old one (eating, countdown, level check), still sound, events only appended, and level completion reported last |
| Pacman.Game.CheckLevel | pacman.c:747-749 | the new state is `LevelChecked` of the old one: the level-complete handler is called iff no point is left |
| Game.ColumnPixels | game.c:195-197 | column c's fields span pixels 1 + 6c to 6c + 6, exactly the x whose column is c |
| Game.RowPixels | game.c:211-213 | row r's fields span pixels 1 + 6r to 6r + 6, exactly the y whose row is r |
| Game.BoardOnScreen | game.c:195-213 | every field of the 21 x 21 board fits on the 130-pixel screen |
| Game.Steer | game.c:113-131 | a direction key gives its direction; any other key keeps the current one |
| Game.JoystickSteers | game.c:113-131 | each joystick key steers as its name says, and the centre keeps the direction |
| Game.SpeedAsWrittenWraps | game.c:80-83 | at 32 degrees the speed as written wraps to 250, the slowest |
| Game.GameSpeed | game.c:78-84 | the corrected step is a multiple of 6 between 6 and 186 |
| Game.SpeedMonotone | game.c:78-84 | the warmer, the faster; up to 31 degrees the corrected step is the one as written |
| Game.SpeedColour | game.c:85-98 | red from 30 degrees, yellow at 29, green at 28, blue below |
| Game.LedsSet | pca9532.c:70-101 | a sequence of pin settings |
| Game.LedsStep | game.c:148-152 | one more pin setting is one more setPca9532Pin |
| Game.LedsSetState | game.c:148-152 | after a sequence of settings each pin shows the last setting of its field |
| Game.LivesShown | game.c:142-153 | pins 0, 1, 3, 4, 6, 7 show the lives, pair i lit iff i + lives >= 3; the other pins keep their state |
| Game.LivesCounted | game.c:142-153 | the lit pairs count min(lives, 3) |
| Game.DiodesAsWrittenDark | game.c:325-327 | as written, one or two ticks left light no LED |
| Game.Diodes | game.c:325 | the corrected count is 0 iff no time is left, 8 at the full 31, never above 8 |
| Game.DiodesMonotone | game.c:325 | more time left lights no fewer LEDs |
| Game.TimeShown | game.c:324-335 | pins 8..8+d-1 lit, 8+d..15 dark, 0..7 untouched |
| Game.DigitsValue | game.c:303-306 | the decimal digits of n read back as n, without a leading zero |
| Game.RightAligned | game.c:303-310 | digits right-aligned in a field of spaces |
| Game.RightAlignedValue | game.c:303-310 | a right-aligned number reads back without its spaces |
| Game.AsWrittenUnterminated | game.c:300-306 | as written, the score buffer has no NUL: index 16 is overwritten |
| Game.ScoreMessageReadsBack | game.c:298-313 | the corrected buffer is a newline, the score right-aligned in 15 columns that read back as the score, and the NUL |
| Game.PaddedReadsBack | game.c:298-313 | a prefix, a right-aligned number and a NUL read back as the number |
| Game.FinalMessageReadsBack | game.c:448-454 | the end-of-game text is "SCORE:" with the score right-aligned in 4 columns, then the NUL |
| Game.WriteScore | game.c:448-454 | the digit loop writes the right-aligned digits and stops just before them |
| Game.Console.constructor | game.c:50-66 | game.c's globals start zeroed, with timeStep 18 |
| Game.Console.ChangeGameSpeed | game.c:78-98 | timeStep is `GameSpeed` of the temperature and the LED colour follows it |
| Game.Console.ChangeDirection | game.c:113-131 | the direction is `Steer` of the pressed key |
| Game.Console.RegisterKey | game.c:432-435 | a key is remembered unless it is KEY_NOTHING |
| Game.Console.LifeLostEventHandler | game.c:142-153 | lifeLost is set when lives < 3, and the LEDs get the six life settings |
| Game.Console.SetLife | game.c:149-151 | one pair of life LEDs |
| Game.Console.DisplayTimeToEatOnI2C | game.c:324-335 | the LEDs get the settings for `Diodes` of the time left |
| Game.Console.DisplayScoreOnAlpha | game.c:298-313 | currentScore is the score and the display gets `ScoreMessage` |
| Game.Console.FinalScoreMessage | game.c:448-454 | the final text is `FinalMessage` of the score, which reads back as the score, and the loop leaves currentScore at 0 |
| Game.Console.GameLostEventHandler | game.c:165-167 | gameEnded is GAME_LOST, shown as "Game lost" |
| Game.Console.LevelCompletedEventHandler | game.c:179-181 | gameEnded is GAME_WON, shown as "You won" |
| Key.SingleBits | key.c:32-36 | every key code and pin mask is a single bit |
| Key.GetKeys | key.c:64-74 | only the five key bits can be set |
| Key.GetKeysReports | key.c:64-74 | a key's bit is set iff its active-low pin reads 0 |
| Key.Decode | key.c:116-153 | the keys held in a sample |
| Key.CheckOutcome | key.c:94-99 | a held key's released flag is cleared and it is latched iff it was released; a key not held is released again; other keys are untouched |
| Key.CheckedOutcome | key.c:116-153 | after the checks every checked key's flag says whether it is up, and the latch is the last newly pressed key |
| Key.NoneFresh | key.c:116-153 | when no key is newly pressed the latch keeps its value |
| Key.SampleOutcome | key.c:116-153 | after a sample every key's flag says whether it is up; of several keys pressed at once, the last in the order centre, up, down, left, right is latched |
| Key.SampleSteps | key.c:116-153 | sampleKey checks the keys in the order centre, up, down, left, right |
| Key.SampleIdempotent | key.c:116-153 | sampling the same keys twice changes nothing more |
| Key.HeldReportedOnce | key.c:116-153 | a key held across samples is latched once: read and cleared, it is not latched again |
| Key.PressedAgain | key.c:119-153 | a key released and pressed again is latched again |
| Key.Joystick.constructor | key.c:42-49 | all keys released, nothing latched |
| Key.Joystick.CheckKey | key.c:82-86 | checkKey returns the latched key and clears it |
| Key.Joystick.CheckKeyStatus | key.c:94-99 | a released key is latched and its flag cleared; otherwise nothing changes |
| Key.Joystick.SampleCenter | key.c:116-121 | the centre key's check |
| Key.Joystick.SampleUp | key.c:124-129 | the up key's check |
| Key.Joystick.SampleDown | key.c:132-137 | the down key's check |
| Key.Joystick.SampleLeft | key.c:140-145 | the left key's check |
| Key.Joystick.SampleRight | key.c:148-153 | the right key's check |
| Key.Joystick.SampleKey | key.c:107-154 | sampleKey moves the state to `Sample` of the keys held |
| Pca9532.Selector | pca9532.c:76-83 | the selector register is 6 + pin/4 for pins below 16, and 9 for every other pin |
| Pca9532.Mask | pca9532.c:87 | the mask covers exactly the pin's 2-bit field |
| Pca9532.Setting | pca9532.c:91-96 | the field becomes 01, LED on, when value is 0, else 00, off |
| Pca9532.UpdatedBits | pca9532.c:87-98 | the new register has the setting in the pin's field and every other bit as read |
| Pca9532.SourceFormula | pca9532.c:87-98 | `(setting << 2*(pin%4)) \| (reg & ~mask)` is that register |
| Pca9532.SetPinState | pca9532.c:70-101 | after setPca9532Pin the pin's field, and every pin sharing it, shows the setting; every other pin keeps its state |
| Pca9532.StoredRun | pca9532.c:52-57 | an auto-increment write stores its bytes in consecutive registers |
| Pca9532.WrittenReadsBack | pca9532.c:85-100 | a register written reads back its value |
| Pca9532.DirectRegister | pca9532.c:85-100 | a selector register is written and read without auto-increment |
| Pca9532.ReadPinsRollsOver | pca9532.c:111-115 | the 3-byte read from 0x19 delivers register 9, then rolls over to the two input registers |
| Pca9532.PinLevels | pca9532.c:117 | `lo \| hi << 8` is lo + 256 * hi |
| Pca9532.InitLedsOff | pca9532.c:52 | after pca9532Init every LED is off |
| Pca9532.Driver.constructor | pca9532.c:52 | a chip with its register bank and no command sent |
| Pca9532.Driver.Transfer | pca9532.c:57 | a bus transfer writes from the control byte's register on, with or without auto-increment, then reads; a failed one changes nothing |
| Pca9532.Driver.Init | pca9532.c:49-60 | pca9532Init sends the 9-byte sequence and succeeds iff the bus reports I2C_CODE_OK |
| Pca9532.Driver.SetPin | pca9532.c:70-101 | setPca9532Pin sends the read and the write of the pin's selector register, which becomes `PinSet` |
| Pca9532.Driver.GetPin | pca9532.c:109-118 | getPca9532Pin returns the two input registers as one 16-bit value and changes no register |
| Lcd.FillContents | lcd.c:152-154 | n data bytes of one colour |
| Lcd.HeaderOpens | lcd.c:290-299 | lcdWindowNoReset sends its coordinates offset by 2, in 8 bits |
| Lcd.ClearFillsScreen | lcd.c:138-158 | lcdClrscr opens the whole 130 x 130 window and sends 16900 background bytes |
| Lcd.RectFillsWindow | lcd.c:196-215 | lcdRect opens its window with the +2 offset and sends xLen * yLen colour bytes |
| Lcd.FrameIsGrid | lcd.c:234-246 | a border row, middle rows and a border row make a frame of border and interior cells |
| Lcd.RectBrdOneRowShort | lcd.c:234-246 | for yLen >= 3, lcdRectBrd as written sends yLen - 1 rows of xLen bytes into a window of yLen rows (at yLen = 2 no middle row runs and the window is filled) |
| Lcd.RectBrdFlatRuns | lcd.c:237 | for yLen = 1 the unsigned bound `yLen - 2` wraps to 2^32 - 1, so the middle loop runs 2^32 - 2 rows |
| Lcd.RectBrdFillsWindow | lcd.c:224-250 | the corrected lcdRectBrd fills its window: yLen rows of xLen bytes, border around interior |
| Lcd.GlyphFillsWindow | lcd.c:322-360 | lcdData opens an 8 x 14 window at the cursor and sends 112 pixels: text colour where the font bit is set, MSB first, background elsewhere |
| Lcd.NewLine | lcd.c:307-313 | lcdNewline: x is 0; y moves down 14 rows and is clamped to 126 when the sum is 126..255; the 8-bit y wraps to y + 14 - 256 when the sum passes 255 |
| Lcd.Terminated | lcd.c:390-395 | the string up to its NUL |
| Lcd.PutAllAppend | lcd.c:390-395 | putting a + b is putting a, then b |
| Lcd.PutAllExtends | lcd.c:390-395 | putting text only appends to the line log |
| Lcd.LineCapacity | lcd.c:378-380 | a line holds 16 characters; more are not drawn |
| Lcd.ColourEscape | lcd.c:373-377 | 0xFF then c sets the text colour to c and draws nothing |
| Lcd.MarkSurvivesNewline | lcd.c:370-372 | a newline keeps the colour mark and '\r' is ignored |
| Lcd.Driver.constructor | lcd.c:52-58 | the cursor at (0,0), zero colours, no mark |
| Lcd.Driver.WriteCommand | lcd.c:403-405 | one command frame |
| Lcd.Driver.WriteData | lcd.c:413-415 | one data frame |
| Lcd.Driver.SelectLcd | lcd_hw.c:96-102 | the chip select changes |
| Lcd.Driver.WindowNoReset | lcd.c:290-299 | CASET xp+2 xe+2, PASET yp+2 ye+2 |
| Lcd.Driver.OpenDrawing | lcd.c:228-232 | a drawing opens with chip select, the window commands and RAMWR |
| Lcd.Driver.Window | lcd.c:272-280 | the window commands inside chip select |
| Lcd.Driver.FillBytes | lcd.c:152-154 | the fill loop sends `Fill` |
| Lcd.Driver.Clrscr | lcd.c:138-158 | the cursor goes home and the line carries `ClearWire` |
| Lcd.Driver.Color | lcd.c:166-169 | the two colours are set |
| Lcd.Driver.Rect | lcd.c:196-215 | the line carries `RectWire` |
| Lcd.Driver.BorderedRows | lcd.c:237-243 | the middle loop with bound b sends b - 1 rows, each a border byte, the interior bytes and a border byte, and none when b < 1 |
| Lcd.Driver.RectBrdAsWritten | lcd.c:224-250 | lcdRectBrd as written sends `RectBrdAsWrittenWire` |
| Lcd.Driver.RectBrd | lcd.c:224-250 | the corrected lcdRectBrd sends `RectBrdWire` |
| Lcd.Driver.Gotoxy | lcd.c:258-262 | the cursor is set and the window opened from there to 129 |
| Lcd.Driver.Newline | lcd.c:307-313 | the state becomes `NewLine` of the old one |
| Lcd.Driver.ShiftOut | lcd.c:345-352 | one font row shifted out MSB first as 8 pixels |
| Lcd.Driver.SendGlyph | lcd.c:343-353 | the 14 font rows from the glyph's offset, each shifted out as 8 pixels |
| Lcd.Driver.Data | lcd.c:322-360 | lcdData draws the glyph of a byte up to 127 and moves the cursor 8 right for every byte |
| Lcd.Driver.Putchar | lcd.c:369-382 | lcdPutchar follows `Put`: newline, '\r' ignored, colour mark, drawing only while x <= 124 |
| Lcd.Driver.PutOther | lcd.c:372-381 | a byte other than a line end follows `Put`: the colour mark, the escape, or a drawn glyph |
| Lcd.Driver.Puts | lcd.c:390-395 | lcdPuts puts every byte before the NUL, in order |

## Left out

- The source does I/O that the model replaces:
  - The hardware registers are left out: GPIO, SPI, I2C, the LCD's bit-banging in lcd_hw.c, and the PWM of rgbled.c.
  - Each is replaced by an input, such as the pin register, the card's answer stream or the I2C result code.
  - Or by an output log: bytes sent, I2C commands, LCD line events, display texts.
- The printf messages and sdResp8bError are left out: they only print.
- lm75Read is a foreign call. Its result code and its three bytes are inputs of `Adc.GetTemperature`.
- disk_initialize's result is an input of `PetitFs.FileSystem.Mount`, since pf_mount calls it.
- The processes are left out: the RTOS, osSleep, the main loop of startGame, displayBoard and displayCharacter.
  - The key process and the game process sharing `activeKey` become sequential calls on `Key.Joystick`.
- random() and generateSeed are left out: the random generator relies on signed overflow. The random number is an input of `Pacman.GhostPick` and `Pacman.GhostPickAsWritten`.
- defaultGhostMovement's do-while search is modelled on its own, over the canMove answers of the five direction values, with at most `SEARCH_TURNS` = 7 turns. Seven turns try every direction, so a search that runs out of turns is one where all four are blocked and the C loop never ends; the model reports it as `Stuck`.
- The font table charMap is a parameter of `Lcd.Driver`. Bytes below 30 wrap, as the byte `data - 30`, to 226..255 and index past the end of the table in C, so the glyph drawn for them is whatever the parameter gives.
- lcdInit, lcdContrast, lcdOff and lcdIcon are left out: they only send fixed command sequences to the controller.
- POINTS_FOR_EATING and POINTS_FOR_BONUS are not defined in the source files. They are constructor parameters of `Pacman.Game`.
- display.c, alphalcd.c, bluetooth.c, music.c, eeprom.c and i2c.c are not part of this model.
- FatMount.MountSpec: sectors per cluster 0 makes the C code divide by zero. The model reports FR_NO_FILESYSTEM for it.
- Pacman.Game.Passable: canMove indexes the board without a range check. The model is only called on fields inside the frame, which a walled board guarantees. Off-grid fields are not modelled.
- Pacman.GhostMovementRule: away from (10,6) the ghost takes the input `steer`, a `Direction`, in place of the search. The search is `Pacman.GhostPick`.
  - The value 4 that the search as written can return (see Findings) is not a `Direction`, so it is not carried into the game state.
  - A ghost blocked on all four sides, where the C loop never ends, is not modelled in the game.
- Pacman.GoBackHomeRule:
  - At (10,8) on the default board, when the birthplace is not adjacent, the C search for it never ends. The model falls through to `GhostMovementRule` there, which takes the `steer` input.
  - Off the default board the eyes move like a ghost, through `GhostMovementRule` with the `steer` input.
- Pacman.Game.MakeMove: handlers are recorded as events. A handler that itself changes the game, as gameLost does through game.c, is not modelled.
- Game.Console.DisplayTimeToEatOnI2C: requires the time left to be at most 31, the value makeMove passes.
- Game.TimeShown: stated for pins below 16 only, the pins the handler drives.
- Game.Console.DisplayScoreOnAlpha: the score 0 shows as a blank field, as the digit loop writes no digit for 0.
- Lcd.Driver.RectBrd: the corrected method requires xLen >= 2 and yLen >= 2, the smallest frame that has a border.
- Pca9532.Driver.SetPin and Pca9532.Driver.GetPin:
  - Both assume the bus transfers succeed, since the C code ignores their result.
  - On a failed transfer C would use an uninitialised regValue.
- SdCard.ReadBoard: the read buffer is a global in C, so a second call may see bytes left from the first. The model gives each call a fresh zeroed buffer.
- SdCard.ParseAsWritten: requires the board to hold every kept byte, since the C loop writes past the board otherwise (see Findings).
- PetitFs.FileSystem.Read: the `*br` it reports counts every completed chunk even when it returns FR_DISK_ERR, following the code, not the documented behaviour.
- PetitFs.FileSystem.Read: pf_read with a NULL buffer passes a null destination to disk_readp (`!buff ? 0 : rbuff`), which Petit FatFs uses to forward the data instead of storing it. The model's buffer is always an array, so the forwarding path is not modelled.
- FatName.CreateName: as the code does, a name part longer than 8 bytes ends the segment at its ninth byte, with the last-segment flag 0, and the lookup goes on with the rest of the name as the next segment. An extension longer than 3 bytes ends the same way at its fourth byte, and a second '.' at that dot. `FatName.SegmentParts` states where each segment ends.
- SdCard.ReadBoard: `text` and `openResult` are ghost results. In C the open's and the read's results are the one global `result`, and readBoard itself returns only TRUE or FALSE.
- FatFile.ChainAt: pf_read aborts on a cluster link <= 1. A link at or above max_clust is stored as the current cluster like any other. clust2sect then gives 0 for it and the read aborts. `FatFile.FileSector` states this through `Clust2Sect`.

## Findings

| source | as written | input that shows it | evidently intended | confidence | as-written member | corrected member |
|---|---|---|---|---|---|---|
| diskio.c:78-98 | `firstblock` starts at 0, so the start-token poll `while (firstblock == 0xff ...)` never runs and the check `firstblock != 0xfe` always fails | any card, any sector: the read returns RES_ERROR after the command and its response | start the poll on 0xFF so it waits for the 0xFE token | high, not executed | DiskIo.DiskReadpAsWritten, DiskIo.AsWrittenAlwaysFails | DiskIo.DiskReadp, DiskIo.ReadsSector |
| sdcard.c:114-122 | the parse writes `board[j++]` for every kept byte; boardHeight and boardWidth are never used | a board.txt of 500 digits writes 500 cells into a 441-cell board | stop after boardHeight * boardWidth cells | high, not executed | SdCard.ParseAsWritten, SdCard.BoardOverflow | SdCard.ParseBoard, SdCard.ReadBoard |
| game.c:300-306 | the digits are written from index 16 down, and index 16 is the NUL of the 17-byte literal | any score, e.g. 7: index 16 becomes '7' and the buffer has no terminator | write from index 15 and keep the NUL | high, not executed | Game.ScoreMessageAsWritten, Game.AsWrittenUnterminated | Game.ScoreMessage, Game.ScoreMessageReadsBack, Game.Console.DisplayScoreOnAlpha |
| lcd.c:237 | the middle loop runs `j = 1 .. yLen - 3`, so for yLen >= 3, with the two border rows, lcdRectBrd sends yLen - 1 rows into a window of yLen rows | xLen = 5, yLen = 5 sends 20 bytes for a 25-pixel window | yLen - 2 middle rows | high, not executed | Lcd.RectBrdAsWrittenWire, Lcd.RectBrdOneRowShort | Lcd.RectBrdWire, Lcd.RectBrdFillsWindow, Lcd.Driver.RectBrd |
| game.c:80-83 | `timeStep = 6 * (31 - temperature)` is stored in 8 bits, so above 31 degrees it wraps to a slow speed | temperature 32 gives timeStep 250 instead of the fastest 6 | clamp to 6 from 31 degrees up | medium, not executed | Game.SpeedAsWritten, Game.SpeedAsWrittenWraps | Game.GameSpeed, Game.SpeedMonotone, Game.Console.ChangeGameSpeed |
| pacman.c:366-377 | when the turned-back direction comes up, `ranDir++` skips it without the `% 4`, so after DOWN (3) the search tries and can return 4, which is no direction: calculateMove leaves the ghost where it is and turnBack(4) gives DOWN | a ghost going UP whose random number is 2 returns 4 whenever its own field can be entered | skip modulo 4, `ranDir = (ranDir + 1) % 4` | medium, not executed | Pacman.GhostPickAsWritten, Pacman.GhostPickStalls | Pacman.GhostPick, Pacman.GhostPickSound |
| game.c:325-327 | `(remainingTime + 1) * 8 / 31` still lights no LED with one or two ticks left, which the +1 was added to avoid | remainingTime 1 gives 16 / 31 = 0 LEDs | round 8 * t / 31 up, so any time left lights an LED | medium, not executed | Game.DiodesAsWritten, Game.DiodesAsWrittenDark | Game.Diodes, Game.DiodesMonotone, Game.Console.DisplayTimeToEatOnI2C |
