/** The directory walk of the FAT engine: a directory position (the DIR
    object's index, cluster and sector), dir_next's step from one 32-byte
    entry to the next, and dir_find's scan for a name. */
module FatDir {
  import opened ByteOrder
  import opened FatTypes
  import opened FatTable

  const DIR_ENTRY_SIZE: nat := 32
  const ENTRIES_PER_SECTOR: nat := 16

  /** Index of the current entry, current cluster (0 for the static root
      table of FAT12/16) and current sector. */
  datatype DirPos = DirPos(index: U16, clust: U32, sect: U32)

  datatype DirStep = DirStep(res: FResult, pos: DirPos)

  /** The 32 bytes of the entry at a position. */
  function EntryAt(disk: Disk, p: DirPos): (r: Option<seq<Byte>>)
    ensures r.Some? ==> |r.value| == DIR_ENTRY_SIZE
  {
    DiskReadp(disk, p.sect, (p.index % ENTRIES_PER_SECTOR) * DIR_ENTRY_SIZE, DIR_ENTRY_SIZE)
  }

  /** dir_rewind on a start cluster: None (FR_DISK_ERR) for cluster 1 and
      for clusters past the volume; otherwise index 0 of the table, where
      cluster 0 means the root directory (the root cluster on FAT32, the
      static table at dirbase otherwise). */
  function RewindSpec(v: Volume, sclust: U32): (r: Option<DirPos>)
    ensures r.Some? <==> sclust != 1 && sclust < v.maxClust
    ensures r.Some? ==> r.value.index == 0 && (v.csize >= 1 ==> InPlace(v, r.value))
    ensures r.Some? ==>
      r.value.clust == (if sclust == 0 && v.fsType == FAT32 then v.dirbase else sclust)
  {
    if sclust == 1 || sclust >= v.maxClust then None
    else
      var clst := if sclust == 0 && v.fsType == FAT32 then v.dirbase else sclust;
      var sect := if clst != 0 then Clust2Sect(v, clst) else v.dirbase;
      RewindInPlace(v, clst, sect);
      Some(DirPos(0, clst, sect))
  }

  lemma RewindInPlace(v: Volume, clst: U32, sect: U32)
    requires sect == if clst != 0 then Clust2Sect(v, clst) else v.dirbase
    ensures v.csize >= 1 ==> InPlace(v, DirPos(0, clst, sect))
  {
    assert 0 / ENTRIES_PER_SECTOR == 0;
    FitsUnchanged(sect);
    if v.csize >= 1 {
      assert 0 % v.csize == 0;
    }
  }

  /** The first cluster recorded in a directory entry: the high word at
      offset 20 above the low word at offset 26. */
  function StartCluster(e: seq<Byte>): (r: U32)
    requires |e| == DIR_ENTRY_SIZE
    ensures r / TWO16 == LdWord(e, DIR_FST_CLUS_HI) && r % TWO16 == LdWord(e, DIR_FST_CLUS_LO)
  {
    var hi := LdWord(e, DIR_FST_CLUS_HI);
    var lo := LdWord(e, DIR_FST_CLUS_LO);
    MulBelow(hi, TWO16, TWO16);
    DivModUnique(hi * TWO16 + lo, TWO16, hi, lo);
    hi * TWO16 + lo
  }

  /** A directory entry whose attribute byte has the directory bit. */
  predicate IsDirEntry(e: seq<Byte>)
  {
    |e| > DIR_ATTR && BitAnd(e[DIR_ATTR], AM_DIR) != 0
  }

  /** dir_next on a position: the next index, the next sector after every
      sixteenth entry, and the next cluster of a dynamic table after every
      csize sectors. */
  function DirNextSpec(v: Volume, disk: Disk, p: DirPos): (r: DirStep)
    requires v.csize >= 1
    ensures r.res == FR_OK || r.res == FR_NO_FILE || r.res == FR_DISK_ERR
    ensures r.res == FR_OK ==> p.index + 1 < TWO16 && p.sect != 0 && r.pos.index == p.index + 1
    ensures r.res != FR_OK ==> r.pos.index == p.index
    ensures r.res == FR_OK && (p.index + 1) % ENTRIES_PER_SECTOR != 0 ==> r.pos.sect == p.sect && r.pos.clust == p.clust
    ensures p.clust == 0 ==>
      r.pos.clust == 0
      && (r.res == FR_OK <==>
            p.index + 1 < TWO16 && p.sect != 0
            && ((p.index + 1) % ENTRIES_PER_SECTOR != 0 || p.index + 1 < v.nRootdir))
  {
    var i := U16Of(p.index + 1);
    U16Succ(p.index);
    BitAndLowMask(i, 4);
    if i == 0 || p.sect == 0 then DirStep(FR_NO_FILE, p)
    else if BitAnd(i, 16 - 1) != 0 then DirStep(FR_OK, p.(index := i))
    else
      var sect := U32Of(p.sect + 1);
      if p.clust == 0 then
        if i >= v.nRootdir then DirStep(FR_NO_FILE, p.(sect := sect))
        else DirStep(FR_OK, DirPos(i, 0, sect))
      else if BitAnd(i / 16, v.csize - 1) == 0 then
        var clst := GetFat(v, disk, p.clust);
        if clst <= 1 then DirStep(FR_DISK_ERR, p.(sect := sect))
        else if clst >= v.maxClust then DirStep(FR_NO_FILE, p.(sect := sect))
        else DirStep(FR_OK, DirPos(i, clst, Clust2Sect(v, clst)))
      else DirStep(FR_OK, DirPos(i, p.clust, sect))
  }

  /** The sector of a position is the one that holds entry `index` of its
      table: the static root table starts at dirbase, a cluster chain's
      current cluster holds csize consecutive sectors of 16 entries. */
  predicate InPlace(v: Volume, p: DirPos)
  {
    v.csize >= 1
    && (p.clust == 0 ==> p.sect == U32Of(v.dirbase + p.index / ENTRIES_PER_SECTOR))
    && (p.clust != 0 ==>
          p.sect == U32Of(Clust2Sect(v, p.clust) + (p.index / ENTRIES_PER_SECTOR) % v.csize))
  }

  /** On a volume with a power-of-two cluster size every successful dir_next
      step keeps the position in place: the sector moves on exactly every 16
      entries and the cluster exactly every csize sectors. */
  lemma DirNextKeepsPlace(v: Volume, disk: Disk, p: DirPos)
    requires InPlace(v, p) && IsPow2(v.csize)
    requires DirNextSpec(v, disk, p).res == FR_OK
    ensures InPlace(v, DirNextSpec(v, disk, p).pos)
  {
    if (p.index + 1) % ENTRIES_PER_SECTOR != 0 {
      StepInSector(v, disk, p);
    } else if p.clust == 0 {
      StepStatic(v, disk, p);
    } else {
      StepDynamic(v, disk, p);
    }
  }

  lemma StepInSector(v: Volume, disk: Disk, p: DirPos)
    requires InPlace(v, p) && DirNextSpec(v, disk, p).res == FR_OK
    requires (p.index + 1) % ENTRIES_PER_SECTOR != 0
    ensures InPlace(v, DirNextSpec(v, disk, p).pos)
  {
    var q := DirNextSpec(v, disk, p).pos;
    assert q == p.(index := p.index + 1);
    assert (p.index + 1) / ENTRIES_PER_SECTOR == p.index / ENTRIES_PER_SECTOR;
  }

  lemma StepStatic(v: Volume, disk: Disk, p: DirPos)
    requires InPlace(v, p) && DirNextSpec(v, disk, p).res == FR_OK
    requires (p.index + 1) % ENTRIES_PER_SECTOR == 0 && p.clust == 0
    ensures InPlace(v, DirNextSpec(v, disk, p).pos)
  {
    var q := DirNextSpec(v, disk, p).pos;
    var i := p.index + 1;
    var x := p.index / ENTRIES_PER_SECTOR;
    U16Succ(p.index);
    BitAndLowMask(i, 4);
    assert q == DirPos(i, 0, U32Of(p.sect + 1));
    assert i / ENTRIES_PER_SECTOR == x + 1;
    U32Offset(v.dirbase + x);
  }

  lemma StepDynamic(v: Volume, disk: Disk, p: DirPos)
    requires InPlace(v, p) && IsPow2(v.csize) && DirNextSpec(v, disk, p).res == FR_OK
    requires (p.index + 1) % ENTRIES_PER_SECTOR == 0 && p.clust != 0
    ensures InPlace(v, DirNextSpec(v, disk, p).pos)
  {
    var i := p.index + 1;
    var x := p.index / ENTRIES_PER_SECTOR;
    U16Succ(p.index);
    BitAndLowMask(i, 4);
    assert i / ENTRIES_PER_SECTOR == x + 1;
    PowMask(x + 1, v.csize);
    if (x + 1) % v.csize == 0 {
      StepNewCluster(v, disk, p, x);
    } else {
      StepInCluster(v, disk, p, x);
    }
  }

  lemma StepInCluster(v: Volume, disk: Disk, p: DirPos, x: nat)
    requires InPlace(v, p) && DirNextSpec(v, disk, p).res == FR_OK && p.clust != 0
    requires x == p.index / ENTRIES_PER_SECTOR && (p.index + 1) / ENTRIES_PER_SECTOR == x + 1
    requires (p.index + 1) % ENTRIES_PER_SECTOR == 0
    requires BitAnd(x + 1, v.csize - 1) != 0 && (x + 1) % v.csize != 0
    ensures InPlace(v, DirNextSpec(v, disk, p).pos)
  {
    var q := DirNextSpec(v, disk, p).pos;
    U16Succ(p.index);
    BitAndLowMask(p.index + 1, 4);
    assert q == DirPos(p.index + 1, p.clust, U32Of(p.sect + 1));
    ModSucc(x, v.csize);
    U32Offset(Clust2Sect(v, p.clust) + x % v.csize);
  }

  lemma StepNewCluster(v: Volume, disk: Disk, p: DirPos, x: nat)
    requires InPlace(v, p) && DirNextSpec(v, disk, p).res == FR_OK && p.clust != 0
    requires (p.index + 1) / ENTRIES_PER_SECTOR == x + 1
    requires (p.index + 1) % ENTRIES_PER_SECTOR == 0
    requires BitAnd(x + 1, v.csize - 1) == 0 && (x + 1) % v.csize == 0
    ensures InPlace(v, DirNextSpec(v, disk, p).pos)
  {
    U16Succ(p.index);
    BitAndLowMask(p.index + 1, 4);
    var clst := GetFat(v, disk, p.clust);
    var q := DirPos(p.index + 1, clst, Clust2Sect(v, clst));
    assert DirNextSpec(v, disk, p).pos == q;
    assert clst != 0;
    assert q.index / ENTRIES_PER_SECTOR == x + 1;
    var c := Clust2Sect(v, clst);
    FitsUnchanged(c);
    assert InPlace(v, q);
  }

  /** For a power-of-two c, `n & (c - 1)` is `n % c`. */
  lemma PowMask(n: nat, c: nat)
    requires IsPow2(c)
    ensures BitAnd(n, c - 1) == n % c
  {
    var k :| k < 8 && Pow2(k) == c;
    BitAndLowMask(n, k);
  }

  lemma U16Succ(x: U16)
    ensures U16Of(x + 1) == if x + 1 == TWO16 then 0 else x + 1
  {
  }

  /** Wrapping then adding one wraps the same as adding one. */
  lemma U32Offset(a: int)
    ensures U32Of(U32Of(a) + 1) == U32Of(a + 1)
  {
    var q := a / TWO32;
    assert a == q * TWO32 + U32Of(a);
    assert a + 1 == q * TWO32 + (U32Of(a) + 1);
  }

  /** The successor's remainder, when it is not 0. */
  lemma ModSucc(x: nat, m: nat)
    requires m >= 1 && (x + 1) % m != 0
    ensures (x + 1) % m == x % m + 1
  {
    var q := x / m;
    var r := x % m;
    assert x == q * m + r;
    if r + 1 < m {
      DivModUnique(x + 1, m, q, r + 1);
    } else {
      assert x + 1 == (q + 1) * m;
      DivModUnique(x + 1, m, q + 1, 0);
    }
  }

  /** An entry dir_find accepts: not a volume label, and the 11 name bytes
      equal to the name sought. */
  predicate Matches(e: seq<Byte>, name: seq<Byte>)
    requires |e| == DIR_ENTRY_SIZE && |name| >= 11
  {
    BitAnd(e[DIR_ATTR], AM_VOL) == 0 && e[..11] == name[..11]
  }

  datatype ScanResult = ScanResult(res: FResult, pos: DirPos, entry: seq<Byte>)

  /** dir_find's loop from a position: read the entry; stop with FR_NO_FILE
      at an entry whose first byte is 0, with FR_OK at a matching entry,
      otherwise step with dir_next. `last` is the buffer before the scan. */
  function Scan(v: Volume, disk: Disk, p: DirPos, name: seq<Byte>, last: seq<Byte>): ScanResult
    requires v.csize >= 1 && |name| >= 11
    decreases TWO16 - p.index
  {
    match EntryAt(disk, p)
    case None => ScanResult(FR_DISK_ERR, p, last)
    case Some(e) =>
      if e[0] == 0 then ScanResult(FR_NO_FILE, p, e)
      else if Matches(e, name) then ScanResult(FR_OK, p, e)
      else
        var step := DirNextSpec(v, disk, p);
        if step.res != FR_OK then ScanResult(step.res, step.pos, e)
        else Scan(v, disk, step.pos, name, e)
  }

  /** The position k successful dir_next steps after p, if there is one. */
  function Ahead(v: Volume, disk: Disk, p: DirPos, k: nat): Option<DirPos>
    requires v.csize >= 1
    decreases k
  {
    if k == 0 then Some(p)
    else
      var step := DirNextSpec(v, disk, p);
      if step.res == FR_OK then Ahead(v, disk, step.pos, k - 1) else None
  }

  /** The entry k steps after p exists, is in use (its first byte is not
      the end-of-table 0) and does not match the name. */
  predicate Skipped(v: Volume, disk: Disk, p: DirPos, k: nat, name: seq<Byte>)
    requires v.csize >= 1 && |name| >= 11
  {
    match Ahead(v, disk, p, k)
    case None => false
    case Some(q) =>
      match EntryAt(disk, q)
      case None => false
      case Some(e) => e[0] != 0 && !Matches(e, name)
  }

  /** The entry k steps after p is at pos, every entry before it skipped. */
  predicate FoundAt(v: Volume, disk: Disk, p: DirPos, name: seq<Byte>, k: nat, pos: DirPos)
    requires v.csize >= 1 && |name| >= 11
  {
    Ahead(v, disk, p, k) == Some(pos) && forall j: nat :: j < k ==> Skipped(v, disk, p, j, name)
  }

  /** The table read from p ends k steps on, every entry before skipped:
      the entry there is the end-of-table entry, or is skipped too and is
      the last one dir_next reaches. */
  predicate EndsAt(v: Volume, disk: Disk, p: DirPos, name: seq<Byte>, k: nat, entry: seq<Byte>)
    requires v.csize >= 1 && |name| >= 11
  {
    (forall j: nat :: j < k ==> Skipped(v, disk, p, j, name))
    && match Ahead(v, disk, p, k)
       case None => false
       case Some(q) =>
         EntryAt(disk, q) == Some(entry)
         && (entry[0] == 0 || (Skipped(v, disk, p, k, name) && DirNextSpec(v, disk, q).res == FR_NO_FILE))
  }

  /** What dir_find reports. FR_OK: the entry it stopped at is the first
      matching one from p on, every entry before it in use and not
      matching. FR_NO_FILE: no entry from p on matches, up to an
      end-of-table entry or the end of the table. Nothing else but
      FR_DISK_ERR. */
  lemma {:induction false} ScanOutcome(v: Volume, disk: Disk, p: DirPos, name: seq<Byte>, last: seq<Byte>)
    requires v.csize >= 1 && |name| >= 11
    ensures var r := Scan(v, disk, p, name, last);
      (r.res == FR_OK || r.res == FR_NO_FILE || r.res == FR_DISK_ERR)
      && (r.res == FR_OK ==>
            EntryAt(disk, r.pos) == Some(r.entry) && r.entry[0] != 0 && Matches(r.entry, name))
    ensures var r := Scan(v, disk, p, name, last);
      r.res == FR_OK ==> exists k: nat :: FoundAt(v, disk, p, name, k, r.pos)
    ensures var r := Scan(v, disk, p, name, last);
      r.res == FR_NO_FILE ==> exists k: nat :: EndsAt(v, disk, p, name, k, r.entry)
    decreases TWO16 - p.index
  {
    match EntryAt(disk, p)
    case None =>
    case Some(e) =>
      if e[0] != 0 && !Matches(e, name) {
        var step := DirNextSpec(v, disk, p);
        if step.res == FR_OK {
          var r := Scan(v, disk, step.pos, name, e);
          assert Scan(v, disk, p, name, last) == r;
          ScanOutcome(v, disk, step.pos, name, e);
          assert Skipped(v, disk, p, 0, name);
          if r.res == FR_OK {
            var k: nat :| FoundAt(v, disk, step.pos, name, k, r.pos);
            FoundShift(v, disk, p, name, k, r.pos);
          } else if r.res == FR_NO_FILE {
            var k: nat :| EndsAt(v, disk, step.pos, name, k, r.entry);
            EndsShift(v, disk, p, name, k, r.entry);
          }
        } else if step.res == FR_NO_FILE {
          assert EndsAt(v, disk, p, name, 0, e);
        }
      } else {
        assert FoundAt(v, disk, p, name, 0, p);
        assert e[0] == 0 ==> EndsAt(v, disk, p, name, 0, e);
      }
  }

  /** The entries skipped after one successful dir_next from p, seen from p. */
  lemma SkippedShift(v: Volume, disk: Disk, p: DirPos, name: seq<Byte>, k: nat)
    requires v.csize >= 1 && |name| >= 11 && DirNextSpec(v, disk, p).res == FR_OK
    requires Skipped(v, disk, p, 0, name)
    requires forall j: nat :: j < k ==> Skipped(v, disk, DirNextSpec(v, disk, p).pos, j, name)
    ensures forall j: nat :: j < k + 1 ==> Skipped(v, disk, p, j, name)
  {
    var q := DirNextSpec(v, disk, p).pos;
    forall j: nat | j < k + 1
      ensures Skipped(v, disk, p, j, name)
    {
      if j > 0 {
        assert Ahead(v, disk, p, j) == Ahead(v, disk, q, j - 1);
        assert Skipped(v, disk, q, j - 1, name);
      }
    }
  }

  lemma FoundShift(v: Volume, disk: Disk, p: DirPos, name: seq<Byte>, k: nat, pos: DirPos)
    requires v.csize >= 1 && |name| >= 11 && DirNextSpec(v, disk, p).res == FR_OK
    requires Skipped(v, disk, p, 0, name)
    requires FoundAt(v, disk, DirNextSpec(v, disk, p).pos, name, k, pos)
    ensures FoundAt(v, disk, p, name, k + 1, pos)
  {
    SkippedShift(v, disk, p, name, k);
  }

  lemma EndsShift(v: Volume, disk: Disk, p: DirPos, name: seq<Byte>, k: nat, entry: seq<Byte>)
    requires v.csize >= 1 && |name| >= 11 && DirNextSpec(v, disk, p).res == FR_OK
    requires Skipped(v, disk, p, 0, name)
    requires EndsAt(v, disk, DirNextSpec(v, disk, p).pos, name, k, entry)
    ensures EndsAt(v, disk, p, name, k + 1, entry)
  {
    var q := DirNextSpec(v, disk, p).pos;
    SkippedShift(v, disk, p, name, k);
    assert Ahead(v, disk, p, k + 1) == Ahead(v, disk, q, k);
    assert Skipped(v, disk, p, k + 1, name) == Skipped(v, disk, q, k, name);
  }

  /** The scan keeps the position in place on a power-of-two cluster size,
      so a found entry is the entry `index` of the table. */
  lemma {:induction false} ScanKeepsPlace(v: Volume, disk: Disk, p: DirPos, name: seq<Byte>, last: seq<Byte>)
    requires InPlace(v, p) && IsPow2(v.csize) && |name| >= 11
    ensures Scan(v, disk, p, name, last).res == FR_OK ==> InPlace(v, Scan(v, disk, p, name, last).pos)
    decreases TWO16 - p.index
  {
    match EntryAt(disk, p)
    case None =>
    case Some(e) =>
      if e[0] != 0 && !Matches(e, name) {
        var step := DirNextSpec(v, disk, p);
        if step.res == FR_OK {
          DirNextKeepsPlace(v, disk, p);
          ScanKeepsPlace(v, disk, step.pos, name, e);
        }
      }
  }

  /** Only the 11 name bytes of the sought name take part in the scan. */
  lemma {:induction false} ScanName(v: Volume, disk: Disk, p: DirPos, name: seq<Byte>, name2: seq<Byte>, last: seq<Byte>)
    requires v.csize >= 1 && |name| >= 11 && |name2| >= 11 && name[..11] == name2[..11]
    ensures Scan(v, disk, p, name, last) == Scan(v, disk, p, name2, last)
    decreases TWO16 - p.index
  {
    match EntryAt(disk, p)
    case None =>
    case Some(e) =>
      assert Matches(e, name) == Matches(e, name2);
      if e[0] != 0 && !Matches(e, name) {
        var step := DirNextSpec(v, disk, p);
        if step.res == FR_OK {
          ScanName(v, disk, step.pos, name, name2, e);
        }
      }
  }
}
