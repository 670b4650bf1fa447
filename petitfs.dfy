/** The file system object and its operations: pf_mount, pf_open and
    pf_read, with the directory object (DIR) that dir_rewind, dir_next,
    dir_find and follow_path move through a directory table. */
module PetitFs {
  import opened ByteOrder
  import opened FatTypes
  import opened FatTable
  import opened FatName
  import opened FatDir
  import opened FatMount
  import opened FatFile

  /** The index of the first byte at or after k that is not a space. */
  function SkipSpaces(path: seq<Byte>, k: nat): (r: nat)
    requires k <= |path|
    ensures k <= r <= |path| && PathByte(path, r) != SPACE
    ensures forall j :: k <= j < r ==> path[j] == SPACE
    decreases |path| - k
  {
    if k < |path| && path[k] == SPACE then SkipSpaces(path, k + 1) else k
  }

  /** Where follow_path starts: after the leading spaces and one '/'. */
  function PathStart(path: seq<Byte>): (r: nat)
    ensures r <= |path|
  {
    var k := SkipSpaces(path, 0);
    if PathByte(path, k) == SLASH then k + 1 else k
  }

  /** The segment at start is the last one: it ends on a byte <= ' '. */
  predicate LastSegment(path: seq<Byte>, start: nat)
    requires start <= |path|
  {
    PathByte(path, SegEnd(path, start)) <= SPACE
  }

  /** Where a lookup of a path ends: the result code, the name buffer of
      the last segment looked up (its 11 bytes and the last-segment flag),
      the directory it was looked up in, the position the lookup stopped at
      (None when that directory could not be rewound) and the entry buffer. */
  datatype Followed = Followed(res: FResult, fn: seq<Byte>, sclust: U32, pos: Option<DirPos>, buf: seq<Byte>)

  /** follow_path from the segment at start, in the directory that starts
      at cluster sclust (0 for the root), with last in the entry buffer.
      The segment's name is looked up; a missing segment that is not the
      last one is FR_NO_PATH; the last segment found ends the lookup; an
      earlier one must name a directory, whose start cluster the next
      segment is looked up in. */
  function FollowSpec(v: Volume, disk: Disk, path: seq<Byte>, start: nat, sclust: U32, last: seq<Byte>): (f: Followed)
    requires v.csize >= 1 && start <= |path|
    ensures |f.fn| == 12
    decreases |path| - start
  {
    var next := SegmentParts(path, start).next;
    var fn := SegmentName(path, start) + [LastFlag(path, next)];
    match RewindSpec(v, sclust)
    case None => Followed(FR_DISK_ERR, fn, sclust, None, last)
    case Some(p0) =>
      var r := Scan(v, disk, p0, fn, last);
      ScanOutcome(v, disk, p0, fn, last);
      if r.res != FR_OK then
        Followed(if r.res == FR_NO_FILE && fn[11] == 0 then FR_NO_PATH else r.res, fn, sclust, Some(r.pos), r.entry)
      else if fn[11] != 0 then Followed(FR_OK, fn, sclust, Some(r.pos), r.entry)
      else if BitAnd(r.entry[DIR_ATTR], AM_DIR) == 0 then Followed(FR_NO_PATH, fn, sclust, Some(r.pos), r.entry)
      else
        assert PathByte(path, next - 1) > SPACE;
        FollowSpec(v, disk, path, next, StartCluster(r.entry), r.entry)
  }

  /** What a lookup reports: FR_OK only with the last segment's matching
      entry in the buffer at the position it stopped at; FR_NO_FILE only for
      a missing last segment, FR_NO_PATH only for a missing or non-directory
      segment before it; otherwise FR_DISK_ERR. */
  lemma {:induction false} FollowOutcome(v: Volume, disk: Disk, path: seq<Byte>, start: nat, sclust: U32, last: seq<Byte>)
    requires v.csize >= 1 && start <= |path|
    ensures var f := FollowSpec(v, disk, path, start, sclust, last);
      |f.fn| == 12
      && (f.res == FR_OK || f.res == FR_NO_FILE || f.res == FR_NO_PATH || f.res == FR_DISK_ERR)
      && (f.res == FR_OK ==>
            f.pos.Some? && EntryAt(disk, f.pos.value) == Some(f.buf)
            && f.fn[11] == 1 && f.buf[0] != 0 && Matches(f.buf, f.fn))
      && (f.res == FR_NO_FILE ==> f.fn[11] == 1)
      && (f.res == FR_NO_PATH ==> f.fn[11] == 0)
    decreases |path| - start
  {
    var next := SegmentParts(path, start).next;
    var fn := SegmentName(path, start) + [LastFlag(path, next)];
    match RewindSpec(v, sclust)
    case None =>
    case Some(p0) =>
      var r := Scan(v, disk, p0, fn, last);
      ScanOutcome(v, disk, p0, fn, last);
      if r.res == FR_OK && fn[11] == 0 && BitAnd(r.entry[DIR_ATTR], AM_DIR) != 0 {
        FollowOutcome(v, disk, path, next, StartCluster(r.entry), r.entry);
      }
  }

  /** A path whose segment at start is its last one and a plain 8.3 name is
      one lookup of that name, in directory form, in the directory at
      sclust. */
  lemma FollowLast(v: Volume, disk: Disk, path: seq<Byte>, start: nat, sclust: U32, last: seq<Byte>)
    requires v.csize >= 1 && start <= |path| && LastSegment(path, start) && Plain83(path, start)
    ensures var fn := Sfn83(path, start) + [1];
      FollowSpec(v, disk, path, start, sclust, last)
      == match RewindSpec(v, sclust)
         case None => Followed(FR_DISK_ERR, fn, sclust, None, last)
         case Some(p0) =>
           var r := Scan(v, disk, p0, fn, last);
           Followed(r.res, fn, sclust, Some(r.pos), r.entry)
  {
    PlainSegment(path, start);
  }

  /** What pf_open reports on a mounted volume, with the entry buffer it
      leaves: an empty path is the root directory, which is no file; a
      path found is a file unless its entry is a directory. */
  datatype Opened = Opened(res: FResult, buf: seq<Byte>)

  function OpenSpec(v: Volume, disk: Disk, path: seq<Byte>, last: seq<Byte>): (o: Opened)
    requires v.csize >= 1 && |last| == DIR_ENTRY_SIZE
    ensures o.res == FR_OK || o.res == FR_NO_FILE || o.res == FR_NO_PATH || o.res == FR_DISK_ERR
    ensures o.res == FR_OK ==>
      |o.buf| == DIR_ENTRY_SIZE && o.buf[0] != 0 && !IsDirEntry(o.buf)
  {
    var p := PathStart(path);
    if PathByte(path, p) <= SPACE then
      Opened(if RewindSpec(v, 0).Some? then FR_NO_FILE else FR_DISK_ERR, last[0 := 0])
    else
      var f := FollowSpec(v, disk, path, p, 0, last);
      FollowOutcome(v, disk, path, p, 0, last);
      if f.res == FR_OK && IsDirEntry(f.buf) then Opened(FR_NO_FILE, f.buf)
      else Opened(f.res, f.buf)
  }

  /** A file opened is the last segment's matching entry, found at the
      position the lookup stopped at. */
  lemma OpenFound(v: Volume, disk: Disk, path: seq<Byte>, last: seq<Byte>)
    requires v.csize >= 1 && |last| == DIR_ENTRY_SIZE
    ensures var o := OpenSpec(v, disk, path, last);
      o.res == FR_OK ==>
        var f := FollowSpec(v, disk, path, PathStart(path), 0, last);
        f.pos.Some? && EntryAt(disk, f.pos.value) == Some(o.buf) && f.fn[11] == 1 && Matches(o.buf, f.fn)
  {
    FollowOutcome(v, disk, path, PathStart(path), 0, last);
  }

  /** A path of one plain 8.3 segment is opened by one lookup of that name
      in the root directory: a directory found there is no file. */
  lemma OpenPlain(v: Volume, disk: Disk, path: seq<Byte>, last: seq<Byte>)
    requires v.csize >= 1 && |last| == DIR_ENTRY_SIZE
    requires var p := PathStart(path); PathByte(path, p) > SPACE && LastSegment(path, p) && Plain83(path, p)
    ensures var p := PathStart(path); var o := OpenSpec(v, disk, path, last);
      match RewindSpec(v, 0)
      case None => o == Opened(FR_DISK_ERR, last)
      case Some(p0) =>
        var r := Scan(v, disk, p0, Sfn83(path, p) + [1], last);
        o.buf == r.entry
        && o.res == (if r.res == FR_OK && IsDirEntry(r.entry) then FR_NO_FILE else r.res)
  {
    var p := PathStart(path);
    FollowLast(v, disk, path, p, 0, last);
  }

  /** disk_readp as pf_read calls it: count bytes at offset ofs of a
      sector into buff from index at; it fails, writing nothing, exactly when
      the sector is not on the disk. */
  method ReadInto(disk: Disk, buff: array<Byte>, at: nat, sector: nat, ofs: nat, count: nat) returns (ok: bool)
    requires ofs + count <= SECTOR_SIZE && at + count <= buff.Length
    modifies buff
    ensures ok <==> sector < |disk|
    ensures ok ==> buff[at..at + count] == disk[sector][ofs..ofs + count]
    ensures forall j :: 0 <= j < buff.Length && !(ok && at <= j < at + count) ==> buff[j] == old(buff[j])
  {
    var data := DiskReadp(disk, sector, ofs, count);
    if data.None? {
      return false;
    }
    forall j | at <= j < at + count {
      buff[j] := data.value[j - at];
    }
    ok := true;
  }

  /** DIR: the 12-byte name buffer and the position in a directory table. */
  class Dir {
    const fn: array<Byte>
    var index: U16
    var sclust: U32
    var clust: U32
    var sect: U32

    constructor ()
      ensures fn.Length == 12 && fresh(fn)
      ensures index == 0 && sclust == 0 && clust == 0 && sect == 0
    {
      fn := new Byte[12];
      index := 0;
      sclust := 0;
      clust := 0;
      sect := 0;
    }

    function Pos(): DirPos
      reads this
    {
      DirPos(index, clust, sect)
    }
  }

  /** FATFS together with the global that registers it: `mounted` stands
      for FatFs pointing at this object. `buf` is the 32-byte entry buffer
      fs->buf points to. */
  class FileSystem {
    const disk: Disk
    var mounted: bool
    var vol: Volume
    var flag: Byte
    var csect: Byte
    var fptr: U32
    var fsize: U32
    var orgClust: U32
    var currClust: U32
    var dsect: U32
    var buf: seq<Byte>
    /** The FAT links of the mounted volume, as get_fat reads them. */
    ghost var fat: U32 -> U32

    /** The read position state after a byte of file sector s was read:
        the cluster that holds it, the count of its cluster's sectors used
        so far and its disk sector. */
    ghost predicate AtSector(s: nat)
      reads this`vol, this`fat, this`orgClust, this`currClust, this`csect, this`dsect
      requires vol.csize >= 1
    {
      ReadState(vol, fat, orgClust, currClust, csect, dsect, s)
    }

    /** An open file's read position is the one pf_read keeps: nothing read
        yet, or the state after the byte just before the file pointer. */
    ghost predicate FileValid()
      reads this`vol, this`fat, this`flag, this`fptr, this`fsize, this`orgClust, this`currClust, this`csect, this`dsect
    {
      (flag == 0 || flag == FA_OPENED)
      && (flag == FA_OPENED ==>
            vol.csize >= 1 && fptr <= fsize
            && (fptr > 0 ==> AtSector((fptr - 1) / SECTOR_SIZE)))
    }

    /** The entry buffer has its size and a registered volume is one
        pf_mount accepted, with fat its get_fat. */
    ghost predicate VolumeValid()
      reads this`buf, this`mounted, this`vol, this`fat
    {
      |buf| == DIR_ENTRY_SIZE
      && (mounted ==> vol.csize >= 1 && TypeMatchesCount(vol) && FatLinks())
    }

    ghost predicate Valid()
      reads this`buf, this`mounted, this`vol, this`fat, this`flag, this`fptr, this`fsize
      reads this`orgClust, this`currClust, this`csect, this`dsect
    {
      VolumeValid() && FileValid()
    }

    /** fat is get_fat on the mounted volume. */
    ghost predicate FatLinks()
      reads this`vol, this`fat
    {
      forall c: U32 {:trigger GetFat(vol, disk, c)} :: fat(c) == GetFat(vol, disk, c)
    }

    /** A file system object over a disk, not yet registered. */
    constructor (image: Disk)
      ensures Valid() && disk == image && !mounted && flag == 0
    {
      disk := image;
      mounted := false;
      vol := Volume(FAT12, 1, 0, 0, 0, 0, 0);
      flag := 0;
      csect := 0;
      fptr := 0;
      fsize := 0;
      orgClust := 0;
      currClust := 0;
      dsect := 0;
      buf := seq(DIR_ENTRY_SIZE, _ => 0);
      fat := _ => 1;
    }

    /** pf_mount. `register` false stands for pf_mount(NULL); `initStatus`
        is what disk_initialize returned. */
    method Mount(register: bool, initStatus: Byte) returns (res: FResult)
      requires Valid()
      modifies this`mounted, this`vol, this`fat, this`flag
      ensures Valid()
      ensures !register ==> res == FR_OK && !mounted && vol == old(vol) && flag == old(flag)
      ensures register ==>
        res == MountSpec(disk, initStatus).res && mounted == (res == FR_OK)
        && (res == FR_OK ==> vol == MountSpec(disk, initStatus).vol.value && flag == 0)
        && (res != FR_OK ==> vol == old(vol) && flag == old(flag))
    {
      mounted := false;
      if !register {
        return FR_OK;
      }
      if BitAnd(initStatus, STA_NOINIT) != 0 {
        return FR_NOT_READY;
      }
      var bsect: U32 := 0;
      var fmt := CheckFs(disk, bsect);
      if fmt == NotFatBootSector {
        var pt := DiskReadp(disk, bsect, MBR_TABLE, 16);
        if pt.None? {
          fmt := BootSectorCheckErr;
        } else if pt.value[4] != 0 {
          bsect := LdDword(pt.value, 8);
          fmt := CheckFs(disk, bsect);
        }
      }
      assert fmt == LocateBoot(disk).fmt && bsect == LocateBoot(disk).bsect;
      if fmt == BootSectorCheckErr {
        return FR_DISK_ERR;
      }
      if fmt != FatBootSector {
        return FR_NO_FILESYSTEM;
      }
      var bpb := DiskReadp(disk, bsect, 13, 36);
      if bpb.None? {
        return FR_DISK_ERR;
      }
      var geo := MountGeometry(bpb.value, bsect);
      if geo.None? {
        return FR_NO_FILESYSTEM;
      }
      vol := geo.value;
      fat := c => GetFat(geo.value, disk, c);
      flag := 0;
      mounted := true;
      res := FR_OK;
    }

    /** dir_rewind. */
    method DirRewind(dj: Dir) returns (res: FResult)
      requires VolumeValid() && mounted
      modifies dj`index, dj`clust, dj`sect
      ensures match RewindSpec(vol, dj.sclust)
        case None => res == FR_DISK_ERR && dj.index == 0
                     && dj.clust == old(dj.clust) && dj.sect == old(dj.sect)
        case Some(p) => res == FR_OK && dj.Pos() == p
    {
      dj.index := 0;
      var clst := dj.sclust;
      if clst == 1 || clst >= vol.maxClust {
        return FR_DISK_ERR;
      }
      if clst == 0 && vol.fsType == FAT32 {
        clst := vol.dirbase;
      }
      dj.clust := clst;
      dj.sect := if clst != 0 then Clust2Sect(vol, clst) else vol.dirbase;
      res := FR_OK;
    }

    /** dir_next. */
    method DirNext(dj: Dir) returns (res: FResult)
      requires VolumeValid() && mounted
      modifies dj`index, dj`clust, dj`sect
      ensures DirStep(res, dj.Pos()) == DirNextSpec(vol, disk, old(dj.Pos()))
    {
      var i := U16Of(dj.index + 1);
      if i == 0 || dj.sect == 0 {
        return FR_NO_FILE;
      }
      if BitAnd(i, 16 - 1) == 0 {
        dj.sect := U32Of(dj.sect + 1);
        if dj.clust == 0 {
          if i >= vol.nRootdir {
            return FR_NO_FILE;
          }
        } else if BitAnd(i / 16, vol.csize - 1) == 0 {
          var clst := GetFat(vol, disk, dj.clust);
          if clst <= 1 {
            return FR_DISK_ERR;
          }
          if clst >= vol.maxClust {
            return FR_NO_FILE;
          }
          dj.clust := clst;
          dj.sect := Clust2Sect(vol, clst);
        }
      }
      dj.index := i;
      res := FR_OK;
    }

    /** dir_find: rewind, then scan the table for the name in dj.fn. */
    method DirFind(dj: Dir) returns (res: FResult)
      requires VolumeValid() && mounted && dj.fn.Length == 12
      modifies dj`index, dj`clust, dj`sect, this`buf
      ensures VolumeValid()
      ensures match RewindSpec(vol, dj.sclust)
        case None => res == FR_DISK_ERR && dj.index == 0 && buf == old(buf)
        case Some(p0) =>
          var r := Scan(vol, disk, p0, dj.fn[..], old(buf));
          res == r.res && dj.Pos() == r.pos && buf == r.entry
      ensures res == FR_OK || res == FR_NO_FILE || res == FR_DISK_ERR
      ensures res == FR_OK ==>
        buf[0] != 0 && Matches(buf, dj.fn[..]) && EntryAt(disk, dj.Pos()) == Some(buf)
    {
      res := DirRewind(dj);
      if res != FR_OK {
        return;
      }
      ghost var p0 := dj.Pos();
      ghost var name := dj.fn[..];
      while true
        invariant VolumeValid() && dj.fn[..] == name
        invariant Scan(vol, disk, p0, name, old(buf)) == Scan(vol, disk, dj.Pos(), name, buf)
        decreases TWO16 - dj.index
      {
        var entry := DiskReadp(disk, dj.sect, (dj.index % ENTRIES_PER_SECTOR) * DIR_ENTRY_SIZE, DIR_ENTRY_SIZE);
        if entry.None? {
          res := FR_DISK_ERR;
          break;
        }
        buf := entry.value;
        if buf[0] == 0 {
          res := FR_NO_FILE;
          break;
        }
        var c := MemCmp(buf, dj.fn[..], 11);
        if BitAnd(buf[DIR_ATTR], AM_VOL) == 0 && c == 0 {
          res := FR_OK;
          break;
        }
        res := DirNext(dj);
        if res != FR_OK {
          break;
        }
      }
      ScanOutcome(vol, disk, p0, name, old(buf));
    }

    /** follow_path: leading spaces and one '/' are skipped; an empty path
        is the root directory itself, with a blank entry in the buffer;
        otherwise the lookup FollowSpec states, from the root directory. */
    method FollowPath(dj: Dir, path: seq<Byte>) returns (res: FResult)
      requires VolumeValid() && mounted && dj.fn.Length == 12
      modifies dj, dj.fn, this`buf
      ensures VolumeValid()
      ensures PathByte(path, PathStart(path)) <= SPACE ==>
        buf == old(buf)[0 := 0] && dj.sclust == 0
        && res == (if RewindSpec(vol, 0).Some? then FR_OK else FR_DISK_ERR)
      ensures PathByte(path, PathStart(path)) > SPACE ==>
        var f := FollowSpec(vol, disk, path, PathStart(path), 0, old(buf));
        res == f.res && buf == f.buf && dj.fn[..] == f.fn && dj.sclust == f.sclust
        && (f.pos.Some? ==> dj.Pos() == f.pos.value)
    {
      var p: nat := 0;
      while PathByte(path, p) == SPACE
        invariant p <= |path| && SkipSpaces(path, 0) == SkipSpaces(path, p)
        decreases |path| - p
      {
        p := p + 1;
      }
      if PathByte(path, p) == SLASH {
        p := p + 1;
      }
      assert p == PathStart(path);
      dj.sclust := 0;
      if PathByte(path, p) <= SPACE {
        res := DirRewind(dj);
        buf := buf[0 := 0];
        return;
      }
      ghost var goal := FollowSpec(vol, disk, path, p, 0, old(buf));
      while true
        invariant VolumeValid() && p <= |path|
        invariant goal == FollowSpec(vol, disk, path, p, dj.sclust, buf)
        decreases |path| + 1 - p
      {
        var more: bool;
        p, res, more := FollowSegment(dj, path, p);
        if !more {
          break;
        }
      }
    }

    /** One pass of follow_path's loop: the segment at start is put into
        dj.fn and looked up in the directory that starts at cluster
        dj.sclust. more says that it named a directory and was not the last
        segment; the lookup then goes on from next in that directory, whose
        start cluster the entry records. Otherwise the pass ends the lookup
        where FollowSpec ends it. */
    method FollowSegment(dj: Dir, path: seq<Byte>, start: nat) returns (next: nat, res: FResult, more: bool)
      requires VolumeValid() && mounted && dj.fn.Length == 12 && start <= |path|
      modifies dj, dj.fn, this`buf
      ensures VolumeValid() && start < next <= |path| + 1
      ensures next == SegmentParts(path, start).next
      ensures dj.fn[..] == SegmentName(path, start) + [LastFlag(path, next)]
      ensures var f := FollowSpec(vol, disk, path, start, old(dj.sclust), old(buf));
        if more then
          res == FR_OK && next <= |path| && dj.fn[11] == 0
          && BitAnd(buf[DIR_ATTR], AM_DIR) != 0 && dj.sclust == StartCluster(buf)
          && f == FollowSpec(vol, disk, path, next, dj.sclust, buf)
        else
          res == f.res && buf == f.buf && dj.fn[..] == f.fn && dj.sclust == f.sclust
          && (f.pos.Some? ==> dj.Pos() == f.pos.value)
    {
      more := false;
      next := CreateName(dj.fn, path, start);
      assert dj.fn[..] == dj.fn[..11] + [dj.fn[11]];
      res := DirFind(dj);
      if res != FR_OK {
        if res == FR_NO_FILE && dj.fn[11] == 0 {
          res := FR_NO_PATH;
        }
        return;
      }
      if dj.fn[11] != 0 {
        return;
      }
      if BitAnd(buf[DIR_ATTR], AM_DIR) == 0 {
        res := FR_NO_PATH;
        return;
      }
      assert PathByte(path, next - 1) > SPACE;
      dj.sclust := StartCluster(buf);
      more := true;
    }

    /** pf_open: without a registered volume FR_NOT_ENABLED and nothing
        changes; otherwise the result and entry buffer OpenSpec states, and
        an open file, at its start, exactly on FR_OK. */
    method Open(path: seq<Byte>) returns (res: FResult)
      requires Valid()
      modifies this`flag, this`buf, this`orgClust, this`fsize, this`fptr
      ensures Valid()
      ensures !mounted ==> (
        res == FR_NOT_ENABLED && flag == old(flag) && buf == old(buf)
        && fptr == old(fptr) && fsize == old(fsize) && orgClust == old(orgClust))
      ensures mounted ==>
        res == OpenSpec(vol, disk, path, old(buf)).res && buf == OpenSpec(vol, disk, path, old(buf)).buf
        && flag == (if res == FR_OK then FA_OPENED else 0)
      ensures res == FR_OK ==>
        orgClust == StartCluster(buf) && fsize == LdDword(buf, DIR_FILE_SIZE) && fptr == 0
      ensures res != FR_OK ==> orgClust == old(orgClust) && fsize == old(fsize) && fptr == old(fptr)
    {
      if !mounted {
        return FR_NOT_ENABLED;
      }
      flag := 0;
      var dj := new Dir();
      res := FollowPath(dj, path);
      if res == FR_OK {
        res := OpenEntry();
      }
    }

    /** The end of pf_open once the path was found: a directory, or a
        blank entry, is no file; otherwise the file is opened at its start
        with the first cluster and the size its entry records. */
    method OpenEntry() returns (res: FResult)
      requires VolumeValid() && mounted && flag == 0
      modifies this`flag, this`orgClust, this`fsize, this`fptr
      ensures Valid()
      ensures res == FR_OK || res == FR_NO_FILE
      ensures flag == (if res == FR_OK then FA_OPENED else 0)
      ensures res == FR_OK <==> buf[0] != 0 && BitAnd(buf[DIR_ATTR], AM_DIR) == 0
      ensures res == FR_OK ==> orgClust == StartCluster(buf) && fsize == LdDword(buf, DIR_FILE_SIZE) && fptr == 0
      ensures res != FR_OK ==> orgClust == old(orgClust) && fsize == old(fsize) && fptr == old(fptr)
    {
      if buf[0] == 0 || BitAnd(buf[DIR_ATTR], AM_DIR) != 0 {
        return FR_NO_FILE;
      }
      orgClust := StartCluster(buf);
      fsize := LdDword(buf, DIR_FILE_SIZE);
      fptr := 0;
      flag := FA_OPENED;
      res := FR_OK;
    }

    /** The sector-boundary step of pf_read's loop, as EnterStep states it:
        at the first sector of a cluster move to the next cluster of the
        chain (the first cluster at the top of the file), then compute the
        disk sector of the file pointer. Fails where pf_read jumps to
        fr_abort. */
    method EnterSector() returns (ok: bool)
      requires Valid() && mounted && flag == FA_OPENED && fptr % SECTOR_SIZE == 0
      modifies this`currClust, this`csect, this`dsect
      ensures var r := EnterStep(vol, fat, orgClust, old(currClust), old(csect), fptr);
        ok == r.Some? && (ok ==> (currClust, csect, dsect) == r.value)
    {
      if fptr / SECTOR_SIZE % vol.csize == 0 {
        var clst := if fptr == 0 then orgClust else GetFat(vol, disk, currClust);
        assert fptr != 0 ==> clst == fat(currClust);
        if clst <= 1 {
          return false;
        }
        currClust := clst;
        csect := 0;
      }
      var sect := Clust2Sect(vol, currClust);
      if sect == 0 {
        return false;
      }
      dsect := U32Of(sect + csect);
      csect := ByteOf(csect + 1);
      ok := true;
    }

    /** The first half of one pass of pf_read's loop: at a sector boundary
        step to the sector of the file pointer. A failure closes the file, as
        the jump to fr_abort does. */
    method SeekSector() returns (ok: bool)
      requires Valid() && mounted && flag == FA_OPENED && fptr < fsize
      modifies this`flag, this`currClust, this`csect, this`dsect
      ensures ok ==> flag == FA_OPENED && AtSector(fptr / SECTOR_SIZE)
      ensures !ok ==> flag == 0 && FileByte(vol, disk, fat, orgClust, fptr) == None
    {
      if fptr % SECTOR_SIZE == 0 {
        EnterStepState(vol, disk, fat, orgClust, currClust, csect, dsect, fptr);
        ok := EnterSector();
        if !ok {
          flag := 0;
        }
      } else {
        DivPrev(fptr, SECTOR_SIZE);
        ok := true;
      }
    }

    /** The second half: copy the bytes from the file pointer to the end of
        its sector, at most left of them, into buff from index br, and move
        the file pointer past them. */
    method CopyChunk(buff: array<Byte>, br: U16, left: U16) returns (ok: bool, rcnt: U16)
      requires VolumeValid() && mounted && flag == FA_OPENED && 0 < left && fptr + left <= fsize
      requires br + left <= buff.Length && vol.csize >= 1 && AtSector(fptr / SECTOR_SIZE)
      modifies this`fptr, this`flag, buff
      ensures Valid()
      ensures ok ==> flag == FA_OPENED && 0 < rcnt <= left && fptr == old(fptr) + rcnt
      ensures ok ==> Delivered(vol, disk, fat, orgClust, old(fptr), buff[br..br + rcnt])
      ensures !ok ==> flag == 0 && fptr == old(fptr) && rcnt == 0 && FileByte(vol, disk, fat, orgClust, fptr) == None
      ensures forall j :: 0 <= j < buff.Length && !(br <= j < br + rcnt) ==> buff[j] == old(buff[j])
    {
      var ofs := fptr % SECTOR_SIZE;
      rcnt := SECTOR_SIZE - ofs;
      if rcnt > left {
        rcnt := left;
      }
      ok := ReadInto(disk, buff, br, dsect, ofs, rcnt);
      if ok {
        ChunkBytes(vol, disk, fat, orgClust, fptr, dsect, buff[br..br + rcnt]);
        ghost var f := fptr;
        fptr := fptr + rcnt;
        ChunkEnd(vol, fat, orgClust, currClust, csect, dsect, f, rcnt, fptr);
      } else {
        ChunkFails(vol, disk, fat, orgClust, fptr, dsect);
        flag := 0;
        rcnt := 0;
      }
    }

    /** One pass of pf_read's loop, after br bytes from file position start
        have arrived in buff. */
    method ReadChunk(buff: array<Byte>, br: U16, left: U16, ghost start: nat) returns (ok: bool, rcnt: U16)
      requires Valid() && mounted && flag == FA_OPENED && 0 < left && fptr + left <= fsize
      requires br + left <= buff.Length && fptr == start + br
      requires Delivered(vol, disk, fat, orgClust, start, buff[..br])
      modifies this`fptr, this`flag, this`currClust, this`csect, this`dsect, buff
      ensures Valid()
      ensures ok ==> flag == FA_OPENED && 0 < rcnt <= left && fptr == old(fptr) + rcnt
      ensures ok ==> Delivered(vol, disk, fat, orgClust, start, buff[..br + rcnt])
      ensures !ok ==> flag == 0 && fptr == old(fptr) && rcnt == 0 && FileByte(vol, disk, fat, orgClust, fptr) == None
      ensures forall j :: 0 <= j < buff.Length && !(br <= j < br + rcnt) ==> buff[j] == old(buff[j])
    {
      rcnt := 0;
      ok := SeekSector();
      if ok {
        ghost var before := buff[..br];
        ghost var v, links, org := vol, fat, orgClust;
        ok, rcnt := CopyChunk(buff, br, left);
        if ok {
          ghost var now := buff[..];
          assert now[..br] == before;
          assert Delivered(v, disk, links, org, start + br, now[br..br + rcnt]);
          DeliveredExtend(v, disk, links, org, start, now, br, rcnt);
        }
      }
    }

    /** The number of bytes pf_read delivers: btr, cut to what remains of
        the file. */
    static function ReadCount(btr: nat, avail: nat): (n: nat)
      ensures n <= btr && n <= avail && (n == btr || n == avail)
    {
      if btr > avail then avail else btr
    }

    /** pf_read: up to btr bytes from the file pointer into buff. On
        FR_DISK_ERR the file is closed and br counts the bytes that arrived
        before the failure. */
    method Read(buff: array<Byte>, btr: U16) returns (res: FResult, br: U16)
      requires Valid() && btr <= buff.Length
      modifies this`fptr, this`flag, this`currClust, this`csect, this`dsect, buff
      ensures Valid()
      ensures !mounted || old(flag) == 0 ==>
        br == 0 && res == (if !mounted then FR_NOT_ENABLED else FR_NOT_OPENED)
        && fptr == old(fptr) && flag == old(flag) && buff[..] == old(buff[..])
      ensures mounted && old(flag) == FA_OPENED ==>
        ReadOutcome(old(fptr), ReadCount(btr, old(fsize - fptr)), buff, old(buff[..]), res, br)
    {
      br := 0;
      if !mounted {
        return FR_NOT_ENABLED, 0;
      }
      if BitAnd(flag, FA_OPENED) == 0 {
        return FR_NOT_OPENED, 0;
      }
      var remain := U32Of(fsize - fptr);
      var left: U16 := btr;
      if left > remain {
        left := remain;
      }
      assert left == ReadCount(btr, fsize - fptr);
      res, br := ReadLoop(buff, left);
    }

    /** What a pf_read of n bytes from file position from leaves behind:
        the first br bytes of buff are the file's bytes there, the rest of
        buff is as it was, and either all n bytes arrived with the file
        still open, or the file is closed at a byte that cannot be read. */
    ghost predicate ReadOutcome(from: nat, n: nat, buff: array<Byte>, was: seq<Byte>, res: FResult, br: nat)
      reads this`vol, this`fat, this`orgClust, this`flag, this`fptr, buff
      requires vol.csize >= 1
    {
      br <= n && br <= buff.Length && |was| == buff.Length && fptr == from + br
      && Delivered(vol, disk, fat, orgClust, from, buff[..br])
      && (forall j :: br <= j < buff.Length ==> buff[j] == was[j])
      && (res == FR_OK || res == FR_DISK_ERR)
      && (res == FR_OK ==> br == n && flag == FA_OPENED)
      && (res == FR_DISK_ERR ==> br < n && flag == 0 && FileByte(vol, disk, fat, orgClust, from + br) == None)
    }

    /** The loop of pf_read: chunk after chunk until n bytes are in buff. */
    method ReadLoop(buff: array<Byte>, n: U16) returns (res: FResult, br: U16)
      requires Valid() && mounted && flag == FA_OPENED && fptr + n <= fsize && n <= buff.Length
      modifies this`fptr, this`flag, this`currClust, this`csect, this`dsect, buff
      ensures Valid()
      ensures ReadOutcome(old(fptr), n, buff, old(buff[..]), res, br)
    {
      br := 0;
      var left := n;
      ghost var start := fptr;
      var ok := true;
      while left > 0 && ok
        invariant Valid() && fptr == start + br && br + left == n
        invariant Delivered(vol, disk, fat, orgClust, start, buff[..br])
        invariant forall j :: br <= j < buff.Length ==> buff[j] == old(buff[j])
        invariant ok ==> flag == FA_OPENED
        invariant !ok ==> left > 0 && flag == 0 && FileByte(vol, disk, fat, orgClust, fptr) == None
        decreases left, ok
      {
        var rcnt;
        ok, rcnt := ReadChunk(buff, br, left, start);
        br := br + rcnt;
        left := left - rcnt;
      }
      res := if ok then FR_OK else FR_DISK_ERR;
    }
  }
}
