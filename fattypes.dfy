/** Records, codes and on-disk offsets of the read-only FAT engine, the
    abstract partial-sector read it is built on, and the geometry a mounted
    volume is described by. */
module FatTypes {
  import opened ByteOrder

  const SECTOR_SIZE: nat := 512

  /* FATFS.flag bits */
  const FA_OPENED: Byte := 0x01

  /* disk_initialize status bits */
  const STA_NOINIT: Byte := 0x01
  const STA_NODISK: Byte := 0x02
  const STA_NOREADY: Byte := 0x03

  /* Directory entry attribute bits */
  const AM_VOL: Byte := 0x08
  const AM_DIR: Byte := 0x10

  /* Byte offsets in the boot sector */
  const BPB_SEC_PER_CLUS: nat := 13
  const BPB_RSVD_SEC_CNT: nat := 14
  const BPB_NUM_FATS: nat := 16
  const BPB_ROOT_ENT_CNT: nat := 17
  const BPB_TOT_SEC16: nat := 19
  const BPB_FAT_SZ16: nat := 22
  const BPB_TOT_SEC32: nat := 32
  const BPB_FAT_SZ32: nat := 36
  const BPB_ROOT_CLUS: nat := 44
  const BS_FIL_SYS_TYPE: nat := 54
  const BS_FIL_SYS_TYPE32: nat := 82
  const BS_55AA: nat := 510
  const MBR_TABLE: nat := 446

  /* Byte offsets in a 32-byte directory entry */
  const DIR_ATTR: nat := 11
  const DIR_FST_CLUS_HI: nat := 20
  const DIR_FST_CLUS_LO: nat := 26
  const DIR_FILE_SIZE: nat := 28

  /** FRESULT, in the order of its C enumeration (FR_OK = 0 ... FR_NO_FILESYSTEM = 7). */
  datatype FResult =
    | FR_OK
    | FR_DISK_ERR
    | FR_NOT_READY
    | FR_NO_FILE
    | FR_NO_PATH
    | FR_NOT_OPENED
    | FR_NOT_ENABLED
    | FR_NO_FILESYSTEM

  /** The FAT sub-type. Only FAT32's code is defined by the header; the other
      two take the values 1 and 2. */
  datatype FsType = FAT12 | FAT16 | FAT32

  function FsCode(t: FsType): (c: Byte)
    ensures (c == 3) == (t == FAT32)
    ensures 1 <= c <= 3
  {
    match t
    case FAT12 => 1
    case FAT16 => 2
    case FAT32 => 3
  }

  /** Distinct sub-types have distinct codes. */
  lemma FsCodeInjective(t: FsType, u: FsType)
    ensures FsCode(t) == FsCode(u) ==> t == u
  {
  }

  datatype Option<T> = None | Some(value: T)

  /** A disk is a sequence of 512-byte sectors. */
  type Sector = s: seq<Byte> | |s| == SECTOR_SIZE witness seq(512, i => 0)
  type Disk = seq<Sector>

  /** disk_readp: `count` bytes at offset `ofs` of a sector; it fails exactly
      when the sector is not on the disk. */
  function DiskReadp(disk: Disk, sector: int, ofs: nat, count: nat): (r: Option<seq<Byte>>)
    requires ofs + count <= SECTOR_SIZE
    ensures r.Some? <==> 0 <= sector < |disk|
    ensures r.Some? ==>
      (|r.value| == count && forall k :: 0 <= k < count ==> r.value[k] == disk[sector][ofs + k])
  {
    if 0 <= sector < |disk| then Some(disk[sector][ofs..ofs + count]) else None
  }

  /** The geometry pf_mount leaves in the file system object. */
  datatype Volume = Volume(
    fsType: FsType,
    csize: Byte,       // sectors per cluster
    nRootdir: U16,     // root directory entries (0 on FAT32)
    maxClust: U32,     // last cluster number + 1
    fatbase: U32,      // first FAT sector
    dirbase: U32,      // root directory sector (root cluster on FAT32)
    database: U32)     // first data sector

  /** The sub-type is the one pf_mount derives from the cluster count. */
  predicate TypeMatchesCount(v: Volume)
  {
    v.fsType == (if v.maxClust >= 0xFFF7 then FAT32 else if v.maxClust >= 0xFF7 then FAT16 else FAT12)
  }

  /** True when csize is a power of two, as every FAT volume's is. */
  predicate IsPow2(n: nat)
  {
    exists k: nat :: k < 8 && Pow2(k) == n
  }

  /** clust2sect: the first sector of a data cluster, 0 for an invalid
      cluster. The C code subtracts 2 in unsigned arithmetic, so the one
      comparison also rejects clusters 0 and 1. */
  function Clust2Sect(v: Volume, clst: U32): U32
  {
    var c := U32Of(clst - 2);
    if c >= U32Of(v.maxClust - 2) then 0 else U32Of(c * v.csize + v.database)
  }

  /** On a volume with at least the two reserved entries, clust2sect accepts
      exactly the data clusters 2 .. maxClust - 1. */
  lemma Clust2SectValue(v: Volume, clst: U32)
    requires v.maxClust >= 2
    ensures Clust2Sect(v, clst) ==
      if 2 <= clst < v.maxClust then U32Of((clst - 2) * v.csize + v.database) else 0
  {
    FitsUnchanged(v.maxClust - 2);
    if clst >= 2 {
      FitsUnchanged(clst - 2);
    }
  }

  /** mem_set: the first cnt bytes of dst become (char)val. */
  method MemSet(dst: array<Byte>, val: int, cnt: int)
    requires cnt <= dst.Length
    modifies dst
    ensures forall k :: 0 <= k < dst.Length ==>
      dst[k] == if k < cnt then ByteOf(val) else old(dst[k])
  {
    var d := 0;
    var n := cnt;
    while n > 0
      invariant cnt > 0 ==> 0 <= n <= cnt && d == cnt - n
      invariant cnt <= 0 ==> n == cnt && d == 0
      invariant forall k :: 0 <= k < dst.Length ==>
        dst[k] == if k < d then ByteOf(val) else old(dst[k])
    {
      dst[d] := ByteOf(val);
      d := d + 1;
      n := n - 1;
    }
  }

  /** mem_cmp: the difference of the first differing bytes of the two areas,
      0 when the first cnt bytes agree (plain char is unsigned on the ARM
      target). */
  method MemCmp(dst: seq<Byte>, src: seq<Byte>, cnt: int) returns (r: int)
    requires cnt <= |dst| && cnt <= |src|
    ensures (r == 0) <==> (cnt <= 0 || dst[..cnt] == src[..cnt])
    ensures r != 0 ==> exists k :: 0 <= k < cnt && dst[..k] == src[..k] && r == (dst[k] as int) - src[k]
  {
    r := 0;
    var d := 0;
    var n := cnt;
    while n > 0
      invariant 0 <= d && (cnt <= 0 ==> d == 0 && n == cnt)
      invariant cnt > 0 ==> 0 <= n && d + n == cnt
      invariant dst[..d] == src[..d]
      invariant r == 0
    {
      r := (dst[d] as int) - src[d];
      if r != 0 {
        assert dst[..d] == src[..d] && dst[..cnt] != src[..cnt] by {
          assert dst[..cnt][d] != src[..cnt][d];
        }
        return;
      }
      assert dst[..d + 1] == dst[..d] + [dst[d]];
      assert src[..d + 1] == src[..d] + [src[d]];
      d := d + 1;
      n := n - 1;
    }
  }
}
