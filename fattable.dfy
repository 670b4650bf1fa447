/** get_fat: the FAT entry of a cluster, read through partial-sector reads,
    and the FAT entry as the on-disk format lays it out, byte by byte. */
module FatTable {
  import opened ByteOrder
  import opened FatTypes

  /** The k-th byte of the FAT area, or None when its sector cannot be read. */
  function FatByte(v: Volume, disk: Disk, k: nat): (r: Option<Byte>)
    ensures r.Some? <==> U32Of(v.fatbase + k / SECTOR_SIZE) < |disk|
  {
    match DiskReadp(disk, U32Of(v.fatbase + k / SECTOR_SIZE), k % SECTOR_SIZE, 1)
    case None => None
    case Some(b) => Some(b[0])
  }

  /** The FAT entry of cluster n as the FAT format defines it: 12 bits packed
      at byte n + n/2 (the high 12 bits of the little-endian word for odd n),
      a little-endian 16-bit word at byte 2n, or the low 28 bits of a
      little-endian 32-bit word at byte 4n. */
  function FatEntry(v: Volume, disk: Disk, n: nat): Option<nat>
  {
    match v.fsType
    case FAT12 =>
      var k := n + n / 2;
      (match (FatByte(v, disk, k), FatByte(v, disk, k + 1))
       case (Some(b0), Some(b1)) =>
         var w := LdWord([b0, b1], 0);
         Some(if n % 2 == 1 then w / 16 else w % 0x1000)
       case _ => None)
    case FAT16 =>
      (match (FatByte(v, disk, 2 * n), FatByte(v, disk, 2 * n + 1))
       case (Some(b0), Some(b1)) => Some(LdWord([b0, b1], 0))
       case _ => None)
    case FAT32 =>
      (match (FatByte(v, disk, 4 * n), FatByte(v, disk, 4 * n + 1),
              FatByte(v, disk, 4 * n + 2), FatByte(v, disk, 4 * n + 3))
       case (Some(b0), Some(b1), Some(b2), Some(b3)) =>
         Some(LdDword([b0, b1, b2, b3], 0) % TWO28)
       case _ => None)
  }

  /** Two bytes that may straddle a sector end: the C code reads byte 511 of
      one sector and byte 0 of the next. */
  function ReadFat12Pair(v: Volume, disk: Disk, sec: nat, ofs: nat): Option<seq<Byte>>
    requires ofs < SECTOR_SIZE
  {
    if ofs != 511 then DiskReadp(disk, U32Of(v.fatbase + sec), ofs, 2)
    else
      match DiskReadp(disk, U32Of(v.fatbase + sec), 511, 1)
      case None => None
      case Some(a) =>
        match DiskReadp(disk, U32Of(v.fatbase + sec + 1), 0, 1)
        case None => None
        case Some(b) => Some(a + b)
  }

  /** get_fat: the entry of cluster clst; 1 for a cluster out of range and for
      a failed read. */
  function GetFat(v: Volume, disk: Disk, clst: U32): (r: U32)
    ensures (clst < 2 || clst >= v.maxClust) ==> r == 1
  {
    if clst < 2 || clst >= v.maxClust then 1
    else
      match v.fsType
      case FAT12 => GetFat12(v, disk, clst)
      case FAT16 => GetFat16(v, disk, clst)
      case FAT32 => GetFat32(v, disk, clst)
  }

  /** The FAT12 case: a 16-bit word at byte clst + clst/2, in 16-bit C
      arithmetic. */
  function GetFat12(v: Volume, disk: Disk, clst: U32): U32
  {
    var bc0 := U16Of(clst);
    var bc := U16Of(bc0 + bc0 / 2);
    match ReadFat12Pair(v, disk, bc / SECTOR_SIZE, bc % SECTOR_SIZE)
    case None => 1
    case Some(buf) =>
      assert |buf| == 2;
      var wc := LdWord(buf, 0);
      if BitAnd(clst, 1) != 0 then wc / 16 else BitAnd(wc, 0xFFF)
  }

  function GetFat16(v: Volume, disk: Disk, clst: U32): U32
  {
    match DiskReadp(disk, U32Of(v.fatbase + clst / 256), U16Of((U16Of(clst) % 256) * 2), 2)
    case None => 1
    case Some(buf) => LdWord(buf, 0)
  }

  function GetFat32(v: Volume, disk: Disk, clst: U32): U32
  {
    match DiskReadp(disk, U32Of(v.fatbase + clst / 128), U16Of((U16Of(clst) % 128) * 4), 4)
    case None => 1
    case Some(buf) => BitAnd(LdDword(buf, 0), 0x0FFF_FFFF)
  }

  /** The value get_fat returns for an in-range cluster is the FAT entry the
      format defines, and 1 exactly when a FAT byte cannot be read. */
  lemma GetFatIsFatEntry(v: Volume, disk: Disk, clst: U32)
    requires 2 <= clst < v.maxClust
    requires TypeMatchesCount(v)
    ensures GetFat(v, disk, clst) == match FatEntry(v, disk, clst) case None => 1 case Some(e) => e
  {
    match v.fsType
    case FAT12 => Fat12Entry(v, disk, clst);
    case FAT16 => Fat16Entry(v, disk, clst);
    case FAT32 => Fat32Entry(v, disk, clst);
  }

  lemma Fat12Entry(v: Volume, disk: Disk, clst: U32)
    requires 2 <= clst < v.maxClust && clst < 0xFF7 && v.fsType == FAT12
    ensures GetFat(v, disk, clst) == match FatEntry(v, disk, clst) case None => 1 case Some(e) => e
  {
    var k := clst + clst / 2;
    assert U16Of(clst) == clst;
    assert U16Of(clst + clst / 2) == k;
    var sec := k / SECTOR_SIZE;
    var ofs := k % SECTOR_SIZE;
    FatByteIs(v, disk, k, sec, ofs);
    if ofs != 511 {
      FatByteIs(v, disk, k + 1, sec, ofs + 1);
    } else {
      FatByteIs(v, disk, k + 1, sec + 1, 0);
    }
    var r := ReadFat12Pair(v, disk, sec, ofs);
    assert r.Some? <==> FatByte(v, disk, k).Some? && FatByte(v, disk, k + 1).Some?;
    if r.Some? {
      var buf := r.value;
      assert buf == [FatByte(v, disk, k).value, FatByte(v, disk, k + 1).value];
      var wc := LdWord(buf, 0);
      assert GetFat12(v, disk, clst) == if BitAnd(clst, 1) != 0 then wc / 16 else BitAnd(wc, 0xFFF);
      Fat12Select(clst, wc);
      assert FatEntry(v, disk, clst) == Some(if clst % 2 == 1 then wc / 16 else wc % 0x1000);
    } else {
      assert GetFat12(v, disk, clst) == 1;
      assert FatEntry(v, disk, clst) == None;
    }
  }

  /** Where the k-th FAT byte lives. */
  lemma FatByteIs(v: Volume, disk: Disk, k: nat, sec: nat, ofs: nat)
    requires k == sec * SECTOR_SIZE + ofs && ofs < SECTOR_SIZE
    ensures FatByte(v, disk, k) ==
      if U32Of(v.fatbase + sec) < |disk| then Some(disk[U32Of(v.fatbase + sec)][ofs]) else None
  {
    DivModUnique(k, SECTOR_SIZE, sec, ofs);
  }

  lemma Fat16Entry(v: Volume, disk: Disk, clst: U32)
    requires 2 <= clst < v.maxClust && v.fsType == FAT16
    ensures GetFat(v, disk, clst) == match FatEntry(v, disk, clst) case None => 1 case Some(e) => e
  {
    var sec := clst / 256;
    var o := (clst % 256) * 2;
    EntryOffset(clst, 256, 2);
    FatByteIs(v, disk, 2 * clst, sec, o);
    FatByteIs(v, disk, 2 * clst + 1, sec, o + 1);
    var r := DiskReadp(disk, U32Of(v.fatbase + sec), o, 2);
    assert GetFat(v, disk, clst) == GetFat16(v, disk, clst);
    if r.Some? {
      assert r.value == [FatByte(v, disk, 2 * clst).value, FatByte(v, disk, 2 * clst + 1).value];
    }
  }

  lemma Fat32Entry(v: Volume, disk: Disk, clst: U32)
    requires 2 <= clst < v.maxClust && v.fsType == FAT32
    ensures GetFat(v, disk, clst) == match FatEntry(v, disk, clst) case None => 1 case Some(e) => e
  {
    var sec := clst / 128;
    var o := (clst % 128) * 4;
    Fat32Read(v, disk, clst, sec, o);
    Fat32Bytes(v, disk, clst, sec, o);
    assert GetFat(v, disk, clst) == GetFat32(v, disk, clst);
  }

  /** get_fat's FAT32 read: four bytes at offset o of FAT sector sec, masked
      to 28 bits. */
  lemma Fat32Read(v: Volume, disk: Disk, clst: U32, sec: nat, o: nat)
    requires sec == clst / 128 && o == (clst % 128) * 4
    ensures GetFat32(v, disk, clst) ==
      match DiskReadp(disk, U32Of(v.fatbase + sec), o, 4)
      case None => 1
      case Some(buf) => LdDword(buf, 0) % TWO28
  {
    EntryOffset(clst, 128, 4);
    var r := DiskReadp(disk, U32Of(v.fatbase + sec), o, 4);
    if r.Some? {
      Mask28(LdDword(r.value, 0));
    }
  }

  /** The same four bytes are FAT bytes 4 clst to 4 clst + 3. */
  lemma Fat32Bytes(v: Volume, disk: Disk, clst: U32, sec: nat, o: nat)
    requires v.fsType == FAT32 && sec == clst / 128 && o == (clst % 128) * 4
    ensures FatEntry(v, disk, clst) ==
      match DiskReadp(disk, U32Of(v.fatbase + sec), o, 4)
      case None => None
      case Some(buf) => Some(LdDword(buf, 0) % TWO28)
  {
    EntryOffset(clst, 128, 4);
    var n := 4 * clst;
    FatByteIs(v, disk, n, sec, o);
    FatByteIs(v, disk, n + 1, sec, o + 1);
    FatByteIs(v, disk, n + 2, sec, o + 2);
    FatByteIs(v, disk, n + 3, sec, o + 3);
    var r := DiskReadp(disk, U32Of(v.fatbase + sec), o, 4);
    if r.Some? {
      assert r.value == [FatByte(v, disk, n).value, FatByte(v, disk, n + 1).value,
                         FatByte(v, disk, n + 2).value, FatByte(v, disk, n + 3).value];
    }
  }

  /** The sector and offset get_fat computes for a FAT16 (per = 256,
      width = 2) or FAT32 (per = 128, width = 4) entry, in its 16-bit
      arithmetic, locate byte width * clst of the FAT. */
  lemma EntryOffset(clst: U32, per: nat, width: nat)
    requires (per == 256 && width == 2) || (per == 128 && width == 4)
    ensures U16Of((U16Of(clst) % per) * width) == (clst % per) * width
    ensures width * clst == (clst / per) * SECTOR_SIZE + (clst % per) * width
  {
    var hi := clst / TWO16;
    var lo := clst % TWO16;
    DivModUnique(clst, per, hi * (TWO16 / per) + lo / per, lo % per);
    assert U16Of(clst) == lo;
  }

  /** `clst & 1` picks the upper 12 bits, otherwise `wc & 0xFFF` the lower. */
  lemma Fat12Select(clst: nat, wc: nat)
    ensures (if BitAnd(clst, 1) != 0 then wc / 16 else BitAnd(wc, 0xFFF))
         == (if clst % 2 == 1 then wc / 16 else wc % 0x1000)
  {
    BitAndSingleBit(clst, 0);
    Pow2Values();
    BitAndLowMask(wc, 12);
  }

  lemma Mask28(d: nat)
    ensures BitAnd(d, 0x0FFF_FFFF) == d % TWO28
  {
    Pow2Values();
    BitAndLowMask(d, 28);
  }

  lemma Pow2Values()
    ensures Pow2(12) == 0x1000 && Pow2(28) == TWO28
  {
    assert Pow2(4) == 16;
    assert Pow2(8) == 256;
    assert Pow2(12) == 0x1000;
    assert Pow2(16) == TWO16;
    assert Pow2(20) == 0x10_0000;
    assert Pow2(24) == 0x100_0000;
  }
}
