/** create_name: one segment of a path turned into the 11-byte,
    space-padded directory form of an 8.3 name, followed by the last-segment
    flag. A path is a C string: the bytes of `path`, then the terminating NUL. */
module FatName {
  import opened ByteOrder
  import opened FatTypes

  const SPACE: Byte := 0x20
  const DOT: Byte := 0x2E
  const SLASH: Byte := 0x2F

  /** The byte at index k of the C string, its NUL at index |path|. */
  function PathByte(path: seq<Byte>, k: nat): Byte
  {
    if k < |path| then path[k] else 0
  }

  /** IsLower: exactly the letters 'a'..'z'. */
  predicate IsLower(c: Byte)
  {
    0x61 <= c <= 0x7A
  }

  /** The upper-case form create_name stores: 'a'..'z' lose 0x20. */
  function ToUpper(c: Byte): (u: Byte)
    ensures !IsLower(u)
    ensures IsLower(c) ==> 0x41 <= u <= 0x5A && u + 0x20 == c
    ensures !IsLower(c) ==> u == c
  {
    if IsLower(c) then c - 0x20 else c
  }

  /** A byte that ends a segment: a control character, space or '/'. */
  predicate IsTerminator(c: Byte)
  {
    c <= SPACE || c == SLASH
  }

  /** The index of the byte that ends the segment beginning at k. */
  function SegEnd(path: seq<Byte>, k: nat): (e: nat)
    requires k <= |path|
    ensures k <= e <= |path| && IsTerminator(PathByte(path, e))
    ensures forall j :: k <= j < e ==> !IsTerminator(path[j])
    decreases |path| - k
  {
    if k == |path| || IsTerminator(path[k]) then k else SegEnd(path, k + 1)
  }

  /** The index of the first '.' in path[k..e], or e when there is none. */
  function DotIn(path: seq<Byte>, k: nat, e: nat): (d: nat)
    requires k <= e <= |path|
    ensures k <= d <= e && (d < e ==> path[d] == DOT)
    ensures forall j :: k <= j < d ==> path[j] != DOT
    decreases e - k
  {
    if k == e || path[k] == DOT then k else DotIn(path, k + 1, e)
  }

  /** The segment at start is a plain 8.3 name: at most eight name bytes and,
      after an optional '.', at most three extension bytes with no second '.'. */
  predicate Plain83(path: seq<Byte>, start: nat)
    requires start <= |path|
  {
    var e := SegEnd(path, start);
    var d := DotIn(path, start, e);
    d - start <= 8 && (d < e ==> e - d - 1 <= 3 && forall j :: d < j < e ==> path[j] != DOT)
  }

  function UpperAll(s: seq<Byte>): (u: seq<Byte>)
    ensures |u| == |s| && forall k :: 0 <= k < |s| ==> u[k] == ToUpper(s[k])
  {
    if s == [] then [] else [ToUpper(s[0])] + UpperAll(s[1..])
  }

  function Spaces(n: nat): (s: seq<Byte>)
    ensures |s| == n && forall k :: 0 <= k < n ==> s[k] == SPACE
  {
    if n == 0 then [] else [SPACE] + Spaces(n - 1)
  }

  /** The directory form of a plain 8.3 segment: the upper-cased name padded
      to eight bytes, then the upper-cased extension padded to three. */
  function Sfn83(path: seq<Byte>, start: nat): (s: seq<Byte>)
    requires start <= |path| && Plain83(path, start)
    ensures |s| == 11
  {
    var e := SegEnd(path, start);
    var d := DotIn(path, start, e);
    var ext := if d < e then path[d + 1..e] else [];
    Field(path[start..d], 8) + Field(ext, 3)
  }

  /** A field of w bytes: src upper-cased, then padded with spaces. */
  function Field(src: seq<Byte>, w: nat): (s: seq<Byte>)
    requires |src| <= w
    ensures |s| == w
  {
    UpperAll(src) + Spaces(w - |src|)
  }

  /** Where create_name's scan of a segment finds its parts: the name is
      path[start..nameEnd], the extension path[extStart..extEnd], and the
      scan stops just before next. */
  datatype Segment = Segment(nameEnd: nat, extStart: nat, extEnd: nat, next: nat)

  /** The parts of any segment. The name part is the bytes before the first
      '.', the extension the bytes after it up to a second '.' or the end of
      the segment. A name part longer than eight bytes keeps its first eight
      and the scan stops after the ninth, which is lost; an extension longer
      than three keeps its first three and the scan stops after the fourth. */
  function SegmentParts(path: seq<Byte>, start: nat): (r: Segment)
    requires start <= |path|
    ensures start <= r.nameEnd <= start + 8 && r.nameEnd <= |path|
    ensures r.extStart <= r.extEnd <= |path| && r.extEnd - r.extStart <= 3
    ensures start < r.next <= |path| + 1
  {
    var e := SegEnd(path, start);
    var d := DotIn(path, start, e);
    if d - start > 8 then Segment(start + 8, start, start, start + 9)
    else if d == e then Segment(d, d, d, e + 1)
    else
      var d2 := DotIn(path, d + 1, e);
      if d2 - d - 1 <= 3 then Segment(d, d + 1, d2, d2 + 1)
      else Segment(d, d + 1, d + 4, d + 5)
  }

  /** The directory form of any segment: its name part upper-cased and
      padded to eight bytes, then its extension padded to three. */
  function SegmentName(path: seq<Byte>, start: nat): (sfn: seq<Byte>)
    requires start <= |path|
    ensures |sfn| == 11
  {
    var r := SegmentParts(path, start);
    Field(path[start..r.nameEnd], 8) + Field(path[r.extStart..r.extEnd], 3)
  }

  /** A segment's last-segment flag: the byte that stopped the scan is a
      control character or a space (the NUL included). */
  function LastFlag(path: seq<Byte>, next: nat): Byte
    requires next >= 1
  {
    if PathByte(path, next - 1) <= SPACE then 1 else 0
  }

  /** A plain 8.3 segment is read to its terminator, and its directory
      form is Sfn83. */
  lemma PlainSegment(path: seq<Byte>, start: nat)
    requires start <= |path| && Plain83(path, start)
    ensures SegmentName(path, start) == Sfn83(path, start)
    ensures SegmentParts(path, start).next == SegEnd(path, start) + 1
  {
    var e := SegEnd(path, start);
    var d := DotIn(path, start, e);
    if d < e {
      DotAt(path, d + 1, e, e);
    } else {
      assert path[d..d] == [];
    }
  }

  /** SegEnd is the first terminator: a run of non-terminators up to a
      terminator at x ends at x. */
  lemma {:induction false} SegEndAt(path: seq<Byte>, k: nat, x: nat)
    requires k <= x <= |path| && IsTerminator(PathByte(path, x))
    requires forall j :: k <= j < x ==> !IsTerminator(path[j])
    ensures SegEnd(path, k) == x
    decreases x - k
  {
    if k < x {
      SegEndAt(path, k + 1, x);
    }
  }

  /** DotIn is the first '.': a run without '.' up to x, where a '.' is or
      the range ends, ends at x. */
  lemma {:induction false} DotAt(path: seq<Byte>, k: nat, e: nat, x: nat)
    requires k <= x <= e <= |path| && (x < e ==> path[x] == DOT)
    requires forall j :: k <= j < x ==> path[j] != DOT
    ensures DotIn(path, k, e) == x
    decreases x - k
  {
    if k < x {
      DotAt(path, k + 1, e, x);
    }
  }

  /** create_name: fills sfn[0..11] with the directory form of the segment at
      path[start..] and sfn[11] with 1 when the segment ended the path; returns
      the index just past the byte that stopped the scan. */
  method CreateName(sfn: array<Byte>, path: seq<Byte>, start: nat) returns (next: nat)
    requires sfn.Length == 12 && start <= |path|
    modifies sfn
    ensures sfn[..11] == SegmentName(path, start) && next == SegmentParts(path, start).next
    ensures sfn[11] == LastFlag(path, next)
    ensures start < next <= |path| + 1
    ensures forall k :: 0 <= k < 11 ==> !IsLower(sfn[k])
    ensures forall k :: start <= k < next - 1 ==> !IsTerminator(path[k])
    ensures Plain83(path, start) ==>
      sfn[..11] == Sfn83(path, start) && next == SegEnd(path, start) + 1
  {
    MemSet(sfn, SPACE, 11);
    var i, ni, si, c := NameLoop(sfn, path, start);
    next := si;
    ghost var name := sfn[..11];
    NameComplete(path, start, name, i, ni, si - 1);
    ghost var flag := LastFlag(path, next);
    assert flag == if c <= SPACE then 1 else 0;
    sfn[11] := if c <= SPACE then 1 else 0;
    assert sfn[..11] == name && sfn[11] == flag;
    if Plain83(path, start) {
      PlainSegment(path, start);
    }
  }

  /** create_name's loop over the bytes of the segment, from a blank
      buffer: it stops at the byte c, just before index si, in the state
      Scanned describes. */
  method NameLoop(sfn: array<Byte>, path: seq<Byte>, start: nat) returns (i: nat, ni: nat, si: nat, c: Byte)
    requires sfn.Length == 12 && start <= |path| && forall k :: 0 <= k < 11 ==> sfn[k] == SPACE
    modifies sfn
    ensures start < si <= |path| + 1 && c == PathByte(path, si - 1) && Stops(c, i, ni)
    ensures Scanned(path, start, sfn[..11], i, ni, si - 1)
    ensures forall k :: 0 <= k < 11 ==> !IsLower(sfn[k])
  {
    i := 0;
    si := start;
    ni := 8;
    while true
      invariant Scanned(path, start, sfn[..11], i, ni, si)
      invariant forall k :: 0 <= k < 11 ==> !IsLower(sfn[k])
      decreases |path| + 1 - si
    {
      c := PathByte(path, si);
      ghost var s0 := sfn[..11];
      ghost var i0, ni0 := i, ni;
      si := si + 1;
      if c <= SPACE || c == SLASH {
        assert Stops(c, i0, ni0);
        break;
      }
      if c == DOT || i >= ni {
        if ni != 8 || c != DOT {
          assert Stops(c, i0, ni0);
          break;
        }
        i := 8;
        ni := 11;
        ScannedDot(path, start, s0, si - 1);
        continue;
      }
      c := ToUpper(c);
      sfn[i] := c;
      i := i + 1;
      ScannedByte(path, start, s0, i0, ni0, si - 1, sfn[..11]);
    }
  }

  /** The state of create_name's scan with bytes start..x-1 of the segment
      read: i bytes written to the 11-byte buffer s, ni the end of the field
      being filled (8 for the name, 11 for the extension). */
  ghost predicate Scanned(path: seq<Byte>, start: nat, s: seq<Byte>, i: nat, ni: nat, x: nat)
  {
    start <= x <= |path| && |s| == 11 && i <= ni && (ni == 8 || ni == 11)
    && (forall k :: start <= k < x ==> !IsTerminator(path[k]))
    && var e := SegEnd(path, start);
       var d := DotIn(path, start, e);
       (ni == 8 ==>
          x <= d && i == x - start
          && forall k :: 0 <= k < 11 ==> s[k] == if k < i then ToUpper(path[start + k]) else SPACE)
       && (ni == 11 ==>
          d < x <= e && d - start <= 8 && i == 8 + (x - d - 1)
          && (forall k :: d < k < x ==> path[k] != DOT)
          && (forall k :: 0 <= k < 11 ==>
                s[k] == (if k < d - start then ToUpper(path[start + k])
                         else if k < 8 then SPACE
                         else if k < i then ToUpper(path[d + 1 + (k - 8)])
                         else SPACE)))
  }

  /** The byte c ends create_name's scan in the state i, ni. */
  predicate Stops(c: Byte, i: nat, ni: nat)
  {
    IsTerminator(c) || ((c == DOT || i >= ni) && (ni != 8 || c != DOT))
  }

  /** A byte stored: the scan reads on. */
  lemma ScannedByte(path: seq<Byte>, start: nat, s: seq<Byte>, i: nat, ni: nat, x: nat, s2: seq<Byte>)
    requires Scanned(path, start, s, i, ni, x) && !Stops(PathByte(path, x), i, ni)
    requires PathByte(path, x) != DOT && i < ni && |s2| == 11
    requires s2 == s[i := ToUpper(PathByte(path, x))]
    ensures Scanned(path, start, s2, i + 1, ni, x + 1)
  {
    var e := SegEnd(path, start);
    var d := DotIn(path, start, e);
    assert x < e;
  }

  /** The first '.' within eight name bytes: the scan moves to the
      extension field. */
  lemma ScannedDot(path: seq<Byte>, start: nat, s: seq<Byte>, x: nat)
    requires start <= x && Scanned(path, start, s, x - start, 8, x) && PathByte(path, x) == DOT
    ensures Scanned(path, start, s, 8, 11, x + 1)
  {
    var e := SegEnd(path, start);
    var d := DotIn(path, start, e);
    assert x < e;
    assert d == x;
  }

  /** Where create_name's scan stops, at the byte x, the buffer built so far
      is the directory form SegmentName gives, and x + 1 is its next. */
  lemma NameComplete(path: seq<Byte>, start: nat, s: seq<Byte>, i: nat, ni: nat, x: nat)
    requires Scanned(path, start, s, i, ni, x) && Stops(PathByte(path, x), i, ni)
    ensures s == SegmentName(path, start) && SegmentParts(path, start).next == x + 1
  {
    if IsTerminator(PathByte(path, x)) {
      SegEndAt(path, start, x);
    }
    if ni == 8 {
      NameStops(path, start, s, i, x);
    } else {
      ExtStops(path, start, s, i, x);
    }
    assert s == s[..8] + s[8..];
  }

  /** The fields a stopped scan has built are those of the segment's parts. */
  predicate PartsBuilt(path: seq<Byte>, start: nat, s: seq<Byte>, x: nat)
    requires start <= |path| && |s| == 11
  {
    var r := SegmentParts(path, start);
    s[..8] == Field(path[start..r.nameEnd], 8) && s[8..] == Field(path[r.extStart..r.extEnd], 3) && r.next == x + 1
  }

  /** The scan stops within the name field: at the terminator, or at a
      ninth name byte. */
  lemma NameStops(path: seq<Byte>, start: nat, s: seq<Byte>, i: nat, x: nat)
    requires Scanned(path, start, s, i, 8, x) && Stops(PathByte(path, x), i, 8)
    requires IsTerminator(PathByte(path, x)) ==> SegEnd(path, start) == x
    ensures PartsBuilt(path, start, s, x)
  {
    var e := SegEnd(path, start);
    var d := DotIn(path, start, e);
    var r := SegmentParts(path, start);
    if IsTerminator(PathByte(path, x)) {
      NamePart(path, start, s, d);
      assert r == Segment(d, d, d, x + 1);
    } else {
      assert x < e && path[x] != DOT && i == 8;
      NamePart(path, start, s, start + 8);
      assert r == Segment(start + 8, start, start, x + 1);
    }
    Padded(s[8..], [], 3);
    assert path[r.extStart..r.extEnd] == [];
  }

  /** The scan stops within the extension field: at the terminator, at a
      second '.', or at a fourth extension byte. */
  lemma ExtStops(path: seq<Byte>, start: nat, s: seq<Byte>, i: nat, x: nat)
    requires Scanned(path, start, s, i, 11, x) && Stops(PathByte(path, x), i, 11)
    requires IsTerminator(PathByte(path, x)) ==> SegEnd(path, start) == x
    ensures PartsBuilt(path, start, s, x)
  {
    var e := SegEnd(path, start);
    var d := DotIn(path, start, e);
    var c := PathByte(path, x);
    NamePart(path, start, s, d);
    if IsTerminator(c) || c == DOT {
      ExtPart(path, d, s, i, x);
      ExtEnds(path, start, x, e, d);
    } else {
      assert i == 11 && x == d + 4;
      ExtPart(path, d, s, i, d + 4);
      ExtFull(path, start, x, e, d);
    }
  }

  /** The scan ends in the extension at the terminator or a second '.':
      the extension is all the bytes after the dot. */
  lemma ExtEnds(path: seq<Byte>, start: nat, x: nat, e: nat, d: nat)
    requires start <= |path| && e == SegEnd(path, start) && d == DotIn(path, start, e)
    requires d < x <= e && x - d - 1 <= 3 && d - start <= 8
    requires x < e ==> path[x] == DOT
    requires forall k :: d < k < x ==> path[k] != DOT
    ensures SegmentParts(path, start) == Segment(d, d + 1, x, x + 1)
  {
    DotAt(path, d + 1, e, x);
  }

  /** The scan ends at a fourth extension byte: the first three are kept. */
  lemma ExtFull(path: seq<Byte>, start: nat, x: nat, e: nat, d: nat)
    requires start <= |path| && e == SegEnd(path, start) && d == DotIn(path, start, e)
    requires x == d + 4 < e && d - start <= 8
    requires forall k :: d < k <= x ==> path[k] != DOT
    ensures SegmentParts(path, start) == Segment(d, d + 1, d + 4, d + 5)
  {
    var d2 := DotIn(path, d + 1, e);
    assert d2 >= d + 5;
  }

  /** The name field: the segment's bytes up to index n, upper-cased and
      padded. */
  lemma NamePart(path: seq<Byte>, start: nat, s: seq<Byte>, n: nat)
    requires start <= n <= |path| && n - start <= 8 && |s| == 11
    requires forall k :: 0 <= k < 8 ==> s[k] == if k < n - start then ToUpper(path[start + k]) else SPACE
    ensures s[..8] == Field(path[start..n], 8)
  {
    Padded(s[..8], path[start..n], 8);
  }

  /** The extension field: the bytes after the dot at d up to x, upper-cased
      and padded. */
  lemma ExtPart(path: seq<Byte>, d: nat, s: seq<Byte>, i: nat, x: nat)
    requires d < x <= |path| && x - d - 1 <= 3 && |s| == 11 && i == 8 + (x - d - 1)
    requires forall k :: 8 <= k < 11 ==> s[k] == if k < i then ToUpper(path[d + 1 + (k - 8)]) else SPACE
    ensures s[8..] == Field(path[d + 1..x], 3)
  {
    var ext := path[d + 1..x];
    forall k | 0 <= k < 3
      ensures s[8..][k] == if k < |ext| then ToUpper(ext[k]) else SPACE
    {
      assert s[8..][k] == s[8 + k];
    }
    Padded(s[8..], ext, 3);
  }

  /** The bytes of a field, position by position. */
  lemma Padded(s: seq<Byte>, src: seq<Byte>, w: nat)
    requires |src| <= w == |s|
    requires forall k :: 0 <= k < w ==> s[k] == if k < |src| then ToUpper(src[k]) else SPACE
    ensures s == Field(src, w)
  {
  }

  /** "board.txt", the file the game loads, is a plain 8.3 name whose
      directory form is "BOARD   TXT". */
  lemma BoardFileName()
    ensures Plain83([0x62, 0x6F, 0x61, 0x72, 0x64, 0x2E, 0x74, 0x78, 0x74], 0)
    ensures Sfn83([0x62, 0x6F, 0x61, 0x72, 0x64, 0x2E, 0x74, 0x78, 0x74], 0)
         == [0x42, 0x4F, 0x41, 0x52, 0x44, 0x20, 0x20, 0x20, 0x54, 0x58, 0x54]
  {
    var p: seq<Byte> := [0x62, 0x6F, 0x61, 0x72, 0x64, 0x2E, 0x74, 0x78, 0x74];
    assert SegEnd(p, 0) == 9;
    assert DotIn(p, 0, 9) == 5;
    assert p[0..5] == [0x62, 0x6F, 0x61, 0x72, 0x64];
    assert p[6..9] == [0x74, 0x78, 0x74];
    assert Field(p[0..5], 8) == [0x42, 0x4F, 0x41, 0x52, 0x44, 0x20, 0x20, 0x20];
    assert Field(p[6..9], 3) == [0x54, 0x58, 0x54];
  }
}
