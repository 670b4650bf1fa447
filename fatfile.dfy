/** The contents of an open file as pf_read sees them: the cluster chain
    from the file's first cluster, the sector that holds each 512-byte piece
    of the file, and each byte. */
module FatFile {
  import opened ByteOrder
  import opened FatTypes
  import opened FatTable

  /** The k-th cluster of the chain that starts at org when fat gives the
      FAT link of each cluster, or None once a link (or org itself) is 0 or
      1: the values pf_read gives up on. */
  function ChainAt(fat: U32 -> U32, org: U32, k: int): (r: Option<U32>)
    ensures r.Some? ==> r.value >= 2
  {
    if k <= 0 then (if org <= 1 then None else Some(org))
    else
      match ChainAt(fat, org, k - 1)
      case None => None
      case Some(c) => if fat(c) <= 1 then None else Some(fat(c))
  }

  /** The sector holding sector s of the file: sector s % csize of cluster
      s / csize of the chain; None when the chain breaks or clust2sect
      rejects the cluster. */
  function FileSector(v: Volume, fat: U32 -> U32, org: U32, s: nat): Option<U32>
    requires v.csize >= 1
  {
    match ChainAt(fat, org, s / v.csize)
    case None => None
    case Some(c) =>
      var sect := Clust2Sect(v, c);
      if sect == 0 then None else Some(U32Of(sect + s % v.csize))
  }

  /** Byte pos of the file, or None when its sector cannot be located or read. */
  function FileByte(v: Volume, disk: Disk, fat: U32 -> U32, org: U32, pos: nat): Option<Byte>
    requires v.csize >= 1
  {
    match FileSector(v, fat, org, pos / SECTOR_SIZE)
    case None => None
    case Some(sec) => if sec < |disk| then Some(disk[sec][pos % SECTOR_SIZE]) else None
  }

  /** got holds the bytes of the file from byte from on. */
  predicate Delivered(v: Volume, disk: Disk, fat: U32 -> U32, org: U32, from: nat, got: seq<Byte>)
    requires v.csize >= 1
  {
    forall j :: 0 <= j < |got| ==> FileByte(v, disk, fat, org, from + j) == Some(got[j])
  }

  /** Two runs of file bytes that meet make one run: a buffer whose first
      k bytes are the file's bytes from `from` on, and whose next n bytes
      are those from from + k on, holds k + n of them. */
  lemma DeliveredExtend(v: Volume, disk: Disk, fat: U32 -> U32, org: U32, from: nat, s: seq<Byte>, k: nat, n: nat)
    requires v.csize >= 1 && k + n <= |s|
    requires Delivered(v, disk, fat, org, from, s[..k]) && Delivered(v, disk, fat, org, from + k, s[k..k + n])
    ensures Delivered(v, disk, fat, org, from, s[..k + n])
  {
    forall j | 0 <= j < k + n
      ensures FileByte(v, disk, fat, org, from + j) == Some(s[j])
    {
      if j >= k {
        assert from + j == from + k + (j - k);
        assert s[k..k + n][j - k] == s[j];
      } else {
        assert s[..k][j] == s[j];
      }
    }
  }

  /** A chain whose FAT links each cluster to the next one visits
      consecutive clusters. */
  lemma {:induction false} ContiguousChain(fat: U32 -> U32, org: U32, k: nat)
    requires 2 <= org
    requires forall c: U32 :: org <= c < org + k ==> fat(c) == c + 1
    ensures ChainAt(fat, org, k) == Some(org + k)
  {
    if k > 0 {
      ContiguousChain(fat, org, k - 1);
      assert fat(org + (k - 1)) == org + k;
    }
  }

  /** A file stored in consecutive clusters is stored in consecutive
      sectors: sector s of the file is sector s after the first sector of
      its first cluster. */
  lemma ContiguousSectors(v: Volume, fat: U32 -> U32, org: U32, s: nat)
    requires v.csize >= 1 && v.database >= 1
    requires 2 <= org && org + s / v.csize < v.maxClust
    requires forall c: U32 :: org <= c < org + s / v.csize ==> fat(c) == c + 1
    requires (org - 2) * v.csize + v.database + s < TWO32
    ensures FileSector(v, fat, org, s) == Some((org - 2) * v.csize + v.database + s)
  {
    var q := s / v.csize;
    var c := org + q;
    ContiguousChain(fat, org, q);
    var first := (c - 2) * v.csize + v.database;
    SectorOfCluster(org, q, v.csize, s, v.database);
    FitsUnchanged(first);
    FitsUnchanged(first + s % v.csize);
    Clust2SectValue(v, c);
    assert Clust2Sect(v, c) == first && first >= 1;
    assert FileSector(v, fat, org, s) == Some(U32Of(Clust2Sect(v, c) + s % v.csize));
  }

  /** Sector s of a run of clusters that starts at cluster org. */
  lemma SectorOfCluster(org: nat, q: nat, c: nat, s: nat, base: nat)
    requires c >= 1 && q == s / c && org >= 2
    ensures (org + q - 2) * c + base + s % c == (org - 2) * c + base + s
    ensures 0 <= (org + q - 2) * c && (org + q - 2) * c + base <= (org - 2) * c + base + s
  {
    MulSplit(org - 2, q, c);
  }

  /** pf_read's position after reading from file sector s: clst is the
      cluster holding it, cs the number of that cluster's sectors entered so
      far and sect its disk sector. */
  ghost predicate ReadState(v: Volume, fat: U32 -> U32, org: U32, clst: U32, cs: Byte, sect: U32, s: nat)
    requires v.csize >= 1
  {
    ChainAt(fat, org, s / v.csize) == Some(clst)
    && cs == s % v.csize + 1
    && FileSector(v, fat, org, s) == Some(sect)
  }

  /** Entering a sector that starts a cluster: the next cluster is the FAT
      link of the cluster of the previous sector. */
  lemma {:induction false} ClusterBoundary(v: Volume, fat: U32 -> U32, org: U32, clst: U32, cs: Byte, sect: U32, s: nat, q: int)
    requires v.csize >= 1 && s >= 1 && s % v.csize == 0 && q == s / v.csize
    requires ReadState(v, fat, org, clst, cs, sect, s - 1)
    ensures ChainAt(fat, org, q) == if fat(clst) <= 1 then None else Some(fat(clst))
  {
    DivPrev(s, v.csize);
  }

  /** Entering any other sector: the cluster stays, and cs is its index in
      the cluster. */
  lemma {:induction false} InsideCluster(v: Volume, fat: U32 -> U32, org: U32, clst: U32, cs: Byte, sect: U32, s: nat, q: int)
    requires v.csize >= 1 && s >= 1 && s % v.csize != 0 && q == s / v.csize
    requires ReadState(v, fat, org, clst, cs, sect, s - 1)
    ensures ChainAt(fat, org, q) == Some(clst) && cs == s % v.csize
  {
    DivPrev(s, v.csize);
  }

  /** The sector of cluster clst that pf_read enters next, and the position
      it records for it. */
  lemma {:induction false} EnterCluster(v: Volume, fat: U32 -> U32, org: U32, clst: U32, cs: nat, s: nat, q: int)
    requires v.csize >= 1 && q == s / v.csize && ChainAt(fat, org, q) == Some(clst) && cs == s % v.csize
    ensures Clust2Sect(v, clst) == 0 ==> FileSector(v, fat, org, s) == None
    ensures Clust2Sect(v, clst) != 0 ==>
      cs + 1 < TWO8
      && ReadState(v, fat, org, clst, cs + 1, U32Of(Clust2Sect(v, clst) + cs), s)
  {
  }

  /** pf_read's step onto the sector boundary at file byte f: where the
      sector starts a cluster, the chain moves to the FAT link of clst (to
      org at the top of the file) and the sector count cs restarts; then the
      disk sector is the cluster's first sector plus cs, and cs counts one
      more. The result is the new (cluster, count, sector), or None where
      pf_read aborts. */
  function EnterStep(v: Volume, fat: U32 -> U32, org: U32, clst: U32, cs: Byte, f: nat): Option<(U32, Byte, U32)>
    requires v.csize >= 1
  {
    var boundary := (f / SECTOR_SIZE) % v.csize == 0;
    var c := if !boundary then clst else if f == 0 then org else fat(clst);
    var k := if boundary then 0 else cs;
    if boundary && c <= 1 then None
    else
      var sect := Clust2Sect(v, c);
      if sect == 0 then None else Some((c, ByteOf(k + 1), U32Of(sect + k)))
  }

  /** The step finds exactly the sector of byte f: when it succeeds, the new
      state is the read state of f's sector; when it fails, byte f of the
      file cannot be located. */
  lemma {:induction false} EnterStepState(v: Volume, disk: Disk, fat: U32 -> U32, org: U32, clst: U32, cs: Byte, sect: U32, f: nat)
    requires v.csize >= 1 && f % SECTOR_SIZE == 0
    requires f > 0 ==> ReadState(v, fat, org, clst, cs, sect, (f - 1) / SECTOR_SIZE)
    ensures EnterStep(v, fat, org, clst, cs, f).Some? ==>
      var r := EnterStep(v, fat, org, clst, cs, f).value;
      ReadState(v, fat, org, r.0, r.1, r.2, f / SECTOR_SIZE)
    ensures EnterStep(v, fat, org, clst, cs, f).None? ==> FileByte(v, disk, fat, org, f) == None
  {
    var s := f / SECTOR_SIZE;
    var q := s / v.csize;
    var boundary := s % v.csize == 0;
    var c := if !boundary then clst else if f == 0 then org else fat(clst);
    var k := if boundary then 0 else cs;
    assert ChainAt(fat, org, q) == (if boundary && c <= 1 then None else Some(c)) && k == s % v.csize by {
      if f == 0 {
        assert s == 0 && q == 0;
      } else {
        DivPrev(f, SECTOR_SIZE);
        if boundary {
          ClusterBoundary(v, fat, org, clst, cs, sect, s, q);
        } else {
          InsideCluster(v, fat, org, clst, cs, sect, s, q);
        }
      }
    }
    if !(boundary && c <= 1) {
      EnterCluster(v, fat, org, c, k, s, q);
      FitsUnchanged(k + 1);
    }
  }

  /** The bytes of the sector of file byte f from its offset on are the
      file's bytes from f on. */
  lemma {:induction false} ChunkBytes(v: Volume, disk: Disk, fat: U32 -> U32, org: U32, f: nat, sect: U32, got: seq<Byte>)
    requires v.csize >= 1 && f % SECTOR_SIZE + |got| <= SECTOR_SIZE
    requires FileSector(v, fat, org, f / SECTOR_SIZE) == Some(sect) && sect < |disk|
    requires got == disk[sect][f % SECTOR_SIZE .. f % SECTOR_SIZE + |got|]
    ensures Delivered(v, disk, fat, org, f, got)
  {
    forall j | 0 <= j < |got|
      ensures FileByte(v, disk, fat, org, f + j) == Some(got[j])
    {
      SameSector(f, j);
    }
  }

  /** A sector that cannot be read holds no readable byte of the file. */
  lemma {:induction false} ChunkFails(v: Volume, disk: Disk, fat: U32 -> U32, org: U32, f: nat, sect: U32)
    requires v.csize >= 1
    requires FileSector(v, fat, org, f / SECTOR_SIZE) == Some(sect) && sect >= |disk|
    ensures FileByte(v, disk, fat, org, f) == None
  {
  }

  /** After count more bytes of the same sector the read position is
      unchanged: it is still the state of the sector of the last byte read. */
  lemma {:induction false} ChunkEnd(v: Volume, fat: U32 -> U32, org: U32, clst: U32, cs: Byte, sect: U32, f: nat, count: nat, next: nat)
    requires v.csize >= 1 && 0 < count && f % SECTOR_SIZE + count <= SECTOR_SIZE && next == f + count
    requires ReadState(v, fat, org, clst, cs, sect, f / SECTOR_SIZE)
    ensures ReadState(v, fat, org, clst, cs, sect, (next - 1) / SECTOR_SIZE)
  {
    SameSector(f, count - 1);
  }

  /** Byte f + k of the file lies in the sector of byte f while the offset
      stays below 512. */
  lemma SameSector(f: nat, k: nat)
    requires f % SECTOR_SIZE + k < SECTOR_SIZE
    ensures (f + k) / SECTOR_SIZE == f / SECTOR_SIZE
    ensures (f + k) % SECTOR_SIZE == f % SECTOR_SIZE + k
  {
    DivModUnique(f + k, SECTOR_SIZE, f / SECTOR_SIZE, f % SECTOR_SIZE + k);
  }

  /** The quotient and remainder of x - 1 from those of x. */
  lemma DivPrev(x: nat, m: nat)
    requires x >= 1 && m >= 1
    ensures x % m == 0 ==> x / m >= 1 && (x - 1) / m == x / m - 1 && (x - 1) % m == m - 1
    ensures x % m != 0 ==> (x - 1) / m == x / m && (x - 1) % m == x % m - 1
  {
    if x % m == 0 {
      assert x == (x / m) * m + x % m;
      DivModUnique(x - 1, m, x / m - 1, m - 1);
    } else {
      DivModUnique(x - 1, m, x / m, x % m - 1);
    }
  }
}
