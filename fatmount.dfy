/** What pf_mount reads from the disk: the boot record check of check_fs,
    the search for the FAT boot sector (sector 0, else the first MBR
    partition), and the volume geometry derived from the BIOS parameter
    block. */
module FatMount {
  import opened ByteOrder
  import opened FatTypes

  /** check_fs results; the C codes are 0, 1, 2 and 3 in this order. */
  datatype BootCheck = FatBootSector | NotFatBootSector | NotBootSector | BootSectorCheckErr

  /** 'F' and 'A', the first two bytes of a "FAT..." type string. */
  predicate HasFatTag(s: Sector, at: nat)
    requires at + 2 <= SECTOR_SIZE
  {
    s[at] == 0x46 && s[at + 1] == 0x41
  }

  /** check_fs: an unreadable sector is an error; a sector without the
      0x55 0xAA signature is not a boot record; a boot record whose type
      string at offset 54 (FAT12/16) or 82 (FAT32) starts with "FA" is a FAT
      boot sector. */
  function CheckFs(disk: Disk, sect: U32): (r: BootCheck)
    ensures r == BootSectorCheckErr <==> sect >= |disk|
    ensures r == NotBootSector <==>
      sect < |disk| && !(disk[sect][BS_55AA] == 0x55 && disk[sect][BS_55AA + 1] == 0xAA)
    ensures r == FatBootSector <==>
      sect < |disk| && disk[sect][BS_55AA] == 0x55 && disk[sect][BS_55AA + 1] == 0xAA
      && (HasFatTag(disk[sect], BS_FIL_SYS_TYPE) || HasFatTag(disk[sect], BS_FIL_SYS_TYPE32))
  {
    match DiskReadp(disk, sect, BS_55AA, 2)
    case None => BootSectorCheckErr
    case Some(sig) =>
      if LdWord(sig, 0) != 0xAA55 then NotBootSector
      else if TagAt(disk, sect, BS_FIL_SYS_TYPE) then FatBootSector
      else if TagAt(disk, sect, BS_FIL_SYS_TYPE32) then FatBootSector
      else NotFatBootSector
  }

  /** `!disk_readp(buf, sect, at, 2) && LD_WORD(buf) == 0x4146`. */
  predicate TagAt(disk: Disk, sect: U32, at: nat)
    requires at + 2 <= SECTOR_SIZE
    ensures TagAt(disk, sect, at) <==> sect < |disk| && HasFatTag(disk[sect], at)
  {
    match DiskReadp(disk, sect, at, 2)
    case None => false
    case Some(t) => LdWord(t, 0) == 0x4146
  }

  datatype BootLocation = BootLocation(fmt: BootCheck, bsect: U32)

  /** The start of pf_mount: sector 0 as a boot sector on its own, and when
      it is a boot record but not a FAT one, the sector named by the first
      partition entry of the MBR, followed once. */
  function LocateBoot(disk: Disk): (r: BootLocation)
    ensures r.bsect == 0 || (
      CheckFs(disk, 0) == NotFatBootSector
      && disk[0][MBR_TABLE + 4] != 0
      && r.bsect == LdDword(disk[0], MBR_TABLE + 8))
    ensures r.fmt == FatBootSector <==> CheckFs(disk, r.bsect) == FatBootSector
    ensures r.fmt == BootSectorCheckErr <==> CheckFs(disk, r.bsect) == BootSectorCheckErr
  {
    var fmt0 := CheckFs(disk, 0);
    if fmt0 != NotFatBootSector then BootLocation(fmt0, 0)
    else
      match DiskReadp(disk, 0, MBR_TABLE, 16)
      case None => BootLocation(BootSectorCheckErr, 0)
      case Some(pt) =>
        if pt[4] != 0 then
          var bsect := LdDword(pt, 8);
          assert bsect == LdDword(disk[0], MBR_TABLE + 8);
          BootLocation(CheckFs(disk, bsect), bsect)
        else BootLocation(fmt0, 0)
  }

  /* The fields pf_mount takes from the 36 bytes that start at offset 13 of
     the boot sector. */

  function SecPerClus(bpb: seq<Byte>): Byte
    requires |bpb| == 36
  {
    bpb[BPB_SEC_PER_CLUS - 13]
  }

  function RsvdSecCnt(bpb: seq<Byte>): U16
    requires |bpb| == 36
  {
    LdWord(bpb, BPB_RSVD_SEC_CNT - 13)
  }

  function RootEntCnt(bpb: seq<Byte>): U16
    requires |bpb| == 36
  {
    LdWord(bpb, BPB_ROOT_ENT_CNT - 13)
  }

  /** Sectors per FAT: the 16-bit field, or the 32-bit one when it is 0. */
  function FatSz(bpb: seq<Byte>): (r: U32)
    requires |bpb| == 36
    ensures LdWord(bpb, BPB_FAT_SZ16 - 13) != 0 ==> r == LdWord(bpb, BPB_FAT_SZ16 - 13)
    ensures LdWord(bpb, BPB_FAT_SZ16 - 13) == 0 ==> r == LdDword(bpb, BPB_FAT_SZ32 - 13)
  {
    var f := LdWord(bpb, BPB_FAT_SZ16 - 13);
    if f != 0 then f else LdDword(bpb, BPB_FAT_SZ32 - 13)
  }

  /** Sectors of the volume: the 16-bit field, or the 32-bit one when it is 0. */
  function TotSec(bpb: seq<Byte>): (r: U32)
    requires |bpb| == 36
    ensures LdWord(bpb, BPB_TOT_SEC16 - 13) != 0 ==> r == LdWord(bpb, BPB_TOT_SEC16 - 13)
    ensures LdWord(bpb, BPB_TOT_SEC16 - 13) == 0 ==> r == LdDword(bpb, BPB_TOT_SEC32 - 13)
  {
    var t := LdWord(bpb, BPB_TOT_SEC16 - 13);
    if t != 0 then t else LdDword(bpb, BPB_TOT_SEC32 - 13)
  }

  /** Sectors of all FAT copies, in 32-bit arithmetic. */
  function FatArea(bpb: seq<Byte>): U32
    requires |bpb| == 36
  {
    U32Of(FatSz(bpb) * bpb[BPB_NUM_FATS - 13])
  }

  /** The FAT sub-type for a cluster count bound. */
  function TypeOf(mclst: U32): (t: FsType)
    ensures t == FAT32 <==> mclst >= 0xFFF7
    ensures t == FAT12 <==> mclst < 0xFF7
  {
    if mclst >= 0xFFF7 then FAT32 else if mclst >= 0xFF7 then FAT16 else FAT12
  }

  /** The geometry pf_mount stores, in 32-bit unsigned arithmetic; None when
      the cluster size is 0. */
  function MountGeometry(bpb: seq<Byte>, bsect: U32): (r: Option<Volume>)
    requires |bpb| == 36
    ensures r.Some? <==> SecPerClus(bpb) != 0
    ensures r.Some? ==> (
      TypeMatchesCount(r.value) && r.value.csize == SecPerClus(bpb)
      && r.value.nRootdir == RootEntCnt(bpb)
      && r.value.fatbase == U32Of(bsect + RsvdSecCnt(bpb)))
  {
    var csize := SecPerClus(bpb);
    if csize == 0 then None
    else
      var fatArea := FatArea(bpb);
      var nroot := RootEntCnt(bpb);
      var fatbase := U32Of(bsect + RsvdSecCnt(bpb));
      var mclst := U32Of(U32Of(TotSec(bpb) - RsvdSecCnt(bpb) - fatArea - nroot / 16) / csize + 2);
      var t := TypeOf(mclst);
      var dirbase := if t == FAT32 then LdDword(bpb, BPB_ROOT_CLUS - 13) else U32Of(fatbase + fatArea);
      Some(Volume(t, csize, nroot, mclst, fatbase, dirbase, U32Of(fatbase + fatArea + nroot / 16)))
  }

  datatype MountOutcome = MountOutcome(res: FResult, vol: Option<Volume>)

  /** pf_mount on a registered object: FR_NOT_READY when the drive reports
      STA_NOINIT, FR_DISK_ERR when the boot sector cannot be read,
      FR_NO_FILESYSTEM without a FAT boot sector (or with a cluster size of
      0), otherwise FR_OK with the geometry of the boot sector found. */
  function MountSpec(disk: Disk, initStatus: Byte): (r: MountOutcome)
    ensures r.vol.Some? <==> r.res == FR_OK
    ensures r.res == FR_OK || r.res == FR_NOT_READY || r.res == FR_DISK_ERR || r.res == FR_NO_FILESYSTEM
    ensures r.res == FR_NOT_READY <==> BitAnd(initStatus, STA_NOINIT) != 0
    ensures r.res == FR_DISK_ERR ==> CheckFs(disk, LocateBoot(disk).bsect) == BootSectorCheckErr
    ensures r.res == FR_OK ==> (
      var bsect := LocateBoot(disk).bsect;
      CheckFs(disk, bsect) == FatBootSector
      && r.vol == MountGeometry(disk[bsect][13..49], bsect)
      && r.vol.value.csize >= 1 && TypeMatchesCount(r.vol.value))
  {
    if BitAnd(initStatus, STA_NOINIT) != 0 then MountOutcome(FR_NOT_READY, None)
    else
      var loc := LocateBoot(disk);
      if loc.fmt == BootSectorCheckErr then MountOutcome(FR_DISK_ERR, None)
      else if loc.fmt != FatBootSector then MountOutcome(FR_NO_FILESYSTEM, None)
      else
        match DiskReadp(disk, loc.bsect, 13, 36)
        case None => MountOutcome(FR_DISK_ERR, None)
        case Some(bpb) =>
          assert bpb == disk[loc.bsect][13..49];
          match MountGeometry(bpb, loc.bsect)
          case None => MountOutcome(FR_NO_FILESYSTEM, None)
          case Some(v) => MountOutcome(FR_OK, Some(v))
  }

  /** pf_mount accepts a disk exactly when the drive is ready, a FAT boot
      sector is found and its cluster size is not 0; it then registers the
      geometry of that boot sector. */
  lemma MountAccepts(disk: Disk, initStatus: Byte)
    ensures var b := LocateBoot(disk).bsect;
      MountSpec(disk, initStatus).res == FR_OK
      <==> BitAnd(initStatus, STA_NOINIT) == 0 && CheckFs(disk, b) == FatBootSector
           && SecPerClus(disk[b][13..49]) != 0
    ensures var b := LocateBoot(disk).bsect;
      BitAnd(initStatus, STA_NOINIT) == 0 && CheckFs(disk, b) == FatBootSector ==>
        MountSpec(disk, initStatus).vol == MountGeometry(disk[b][13..49], b)
  {
    var b := LocateBoot(disk).bsect;
    if BitAnd(initStatus, STA_NOINIT) == 0 && CheckFs(disk, b) == FatBootSector {
      assert DiskReadp(disk, b, 13, 36) == Some(disk[b][13..49]);
    }
  }

  /** When nothing wraps around, every cluster below max_clust lies inside
      the volume, after the reserved sectors, the FATs and the root
      directory. */
  lemma GeometryFits(bpb: seq<Byte>, bsect: U32, clst: U32)
    requires |bpb| == 36 && SecPerClus(bpb) != 0
    requires RsvdSecCnt(bpb) + FatArea(bpb) + RootEntCnt(bpb) / 16 <= TotSec(bpb)
    requires bsect + TotSec(bpb) + 2 < TWO32
    requires 2 <= clst < MountGeometry(bpb, bsect).value.maxClust
    ensures var v := MountGeometry(bpb, bsect).value;
      var first := (clst - 2) * v.csize + v.database;
      v.database == bsect + RsvdSecCnt(bpb) + FatArea(bpb) + RootEntCnt(bpb) / 16
      && Clust2Sect(v, clst) == first
      && first + v.csize <= bsect + TotSec(bpb)
  {
    var v := MountGeometry(bpb, bsect).value;
    var base := RsvdSecCnt(bpb) + FatArea(bpb) + RootEntCnt(bpb) / 16;
    var data := TotSec(bpb) - base;
    MountFields(bpb, bsect);
    MaxClustExact(data, v.csize);
    FitsUnchanged(bsect + RsvdSecCnt(bpb));
    FitsUnchanged(bsect + base);
    DataAreaFits(v, bsect + base, data, clst);
  }

  /** A cluster below data / csize + 2 of a volume whose data area starts
      at start and fits in 32 bits lies, whole, inside that area. */
  lemma DataAreaFits(v: Volume, start: nat, data: nat, clst: U32)
    requires v.csize >= 1 && v.database == start && v.maxClust == data / v.csize + 2
    requires start + data + 2 < TWO32 && 2 <= clst < v.maxClust
    ensures Clust2Sect(v, clst) == (clst - 2) * v.csize + v.database
    ensures (clst - 2) * v.csize + v.database + v.csize <= start + data
  {
    ClusterInData(data, v.csize, clst);
    Clust2SectValue(v, clst);
    FirstSectorExact((clst - 2) * v.csize, v.csize, data, start);
  }

  /** The two fields of MountGeometry the data area is computed from. */
  lemma MountFields(bpb: seq<Byte>, bsect: U32)
    requires |bpb| == 36 && SecPerClus(bpb) != 0
    ensures var v := MountGeometry(bpb, bsect).value;
      v.maxClust == U32Of(U32Of(TotSec(bpb) - (RsvdSecCnt(bpb) + FatArea(bpb) + RootEntCnt(bpb) / 16)) / v.csize + 2)
      && v.database == U32Of(U32Of(bsect + RsvdSecCnt(bpb)) + FatArea(bpb) + RootEntCnt(bpb) / 16)
  {
  }

  lemma MaxClustExact(data: nat, c: nat)
    requires data + 2 < TWO32 && c >= 1
    ensures U32Of(U32Of(data) / c + 2) == data / c + 2
  {
    FitsUnchanged(data);
    var n := data / c;
    assert n <= data by {
      if n >= 1 {
        MulAtLeast(c, n);
        assert n * c <= data;
      }
    }
    FitsUnchanged(n + 2);
  }

  lemma FirstSectorExact(m: int, c: nat, data: nat, start: nat)
    requires 0 <= m && m + c <= data && start + data < TWO32
    ensures U32Of(m + start) == m + start
  {
    FitsUnchanged(m + start);
  }

  /** A cluster numbered below data / c + 2 ends inside the data area. */
  lemma ClusterInData(data: nat, c: nat, clst: nat)
    requires c >= 1 && 2 <= clst < data / c + 2
    ensures 0 <= (clst - 2) * c && (clst - 2) * c + c <= data
  {
    var n := data / c;
    assert n * c <= data;
    MulAtLeast(n - (clst - 2), c);
    assert (n - (clst - 2)) * c == n * c - (clst - 2) * c;
  }

}
