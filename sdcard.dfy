/** sdcard.c: readBoard mounts the card, opens "board.txt", reads up to 500
    bytes of it and turns them into board cells. The file system object is
    a parameter; the read buffer, a zero-initialised global that only
    readBoard uses, is a fresh zeroed array. */
module SdCard {
  import opened ByteOrder
  import opened FatTypes
  import opened FatFile
  import FatName
  import opened FatDir
  import FatMount
  import PetitFs

  const BOARD_BUFFER_SIZE: nat := 500
  /** The board the game passes: BOARD_HEIGHT x BOARD_WIDTH cells. */
  const BOARD_CELLS: nat := 21 * 21
  /** "board.txt" */
  const BOARD_FILE: seq<Byte> := [0x62, 0x6F, 0x61, 0x72, 0x64, 0x2E, 0x74, 0x78, 0x74]
  const NEWLINE: Byte := 0x0A
  const RETURN: Byte := 0x0D
  const DIGIT_ZERO: Byte := 0x30

  /** Where the parse stops: the first 0 byte from k on, or the end. */
  function ScanEnd(buf: seq<Byte>, k: nat): (e: nat)
    requires k <= |buf|
    ensures k <= e <= |buf| && (e < |buf| ==> buf[e] == 0)
    ensures forall i :: k <= i < e ==> buf[i] != 0
    decreases |buf| - k
  {
    if k == |buf| || buf[k] == 0 then k else ScanEnd(buf, k + 1)
  }

  predicate IsLineEnd(b: Byte)
  {
    b == NEWLINE || b == RETURN
  }

  /** The cells a run of bytes gives: each byte other than '\n' and '\r',
      minus '0', in order. */
  function Cells(s: seq<Byte>): (c: seq<int>)
    ensures |c| <= |s|
  {
    if s == [] then []
    else Cells(s[..|s| - 1]) + (if IsLineEnd(s[|s| - 1]) then [] else [s[|s| - 1] as int - DIGIT_ZERO as int])
  }

  /** The cells of a prefix are a prefix of the cells. */
  lemma {:induction false} CellsPrefix(s: seq<Byte>, k: nat)
    requires k <= |s|
    ensures Cells(s[..k]) <= Cells(s)
    decreases |s| - k
  {
    if k < |s| {
      var t := s[..|s| - 1];
      CellsPrefix(t, k);
      assert t[..k] == s[..k];
      assert Cells(t) <= Cells(s);
    } else {
      assert s[..k] == s;
    }
  }

  /** The cells of the first k bytes before the stopping 0 are a prefix of
      what the parse produces. */
  lemma ParsedPrefix(buf: seq<Byte>, k: nat)
    requires k <= ScanEnd(buf, 0)
    ensures Cells(buf[..k]) <= Parsed(buf)
  {
    var e := ScanEnd(buf, 0);
    CellsPrefix(buf[..e], k);
    assert buf[..e][..k] == buf[..k];
  }

  /** Without line ends, every byte gives a cell: the j-th cell is the j-th
      byte minus '0', so the cell count is the byte count. */
  lemma {:induction false} CellsWithoutLineEnds(s: seq<Byte>)
    requires forall i :: 0 <= i < |s| ==> !IsLineEnd(s[i])
    ensures |Cells(s)| == |s|
    ensures forall i :: 0 <= i < |s| ==> Cells(s)[i] == s[i] as int - DIGIT_ZERO as int
  {
    if s != [] {
      CellsWithoutLineEnds(s[..|s| - 1]);
    }
  }

  /** Line ends give no cell: the cells of a run are those of the run with
      its line ends removed. */
  lemma {:induction false} LineEndSkipped(s: seq<Byte>, b: Byte)
    requires IsLineEnd(b)
    ensures Cells(s + [b]) == Cells(s)
  {
    assert (s + [b])[..|s|] == s;
  }

  /** One byte more gives one cell more, unless it is a line end. */
  lemma CellsNext(s: seq<Byte>, i: nat)
    requires i < |s|
    ensures Cells(s[..i + 1]) == Cells(s[..i]) + (if IsLineEnd(s[i]) then [] else [s[i] as int - DIGIT_ZERO as int])
  {
    assert s[..i + 1] == s[..i] + [s[i]];
    if IsLineEnd(s[i]) {
      LineEndSkipped(s[..i], s[i]);
    } else {
      assert (s[..i] + [s[i]])[..i] == s[..i];
    }
  }

  /** The cells readBoard's parse produces from a buffer. */
  function Parsed(buf: seq<Byte>): seq<int>
  {
    Cells(buf[..ScanEnd(buf, 0)])
  }

  /** The parse loop as written: bytes are scanned while the index is below
      500 and the byte is not 0, and cell j is written for each kept byte,
      with no bound but the buffer's; the board must hold them all. */
  method ParseAsWritten(board: array<int>, buf: array<Byte>) returns (j: nat)
    requires buf.Length == BOARD_BUFFER_SIZE && |Parsed(buf[..])| <= board.Length
    modifies board
    ensures j == |Parsed(buf[..])| && board[..j] == Parsed(buf[..])
    ensures board[j..] == old(board[j..])
  {
    ghost var e := ScanEnd(buf[..], 0);
    ghost var parsed := Parsed(buf[..]);
    var i: nat := 0;
    j := 0;
    while i < BOARD_BUFFER_SIZE && buf[i] != 0
      invariant i <= e && j <= |parsed|
      invariant j == |Cells(buf[..i])| && board[..j] == Cells(buf[..i])
      invariant board[j..] == old(board[j..])
    {
      assert buf[..i + 1] == buf[..i] + [buf[i]];
      ParsedPrefix(buf[..], i + 1);
      if buf[i] == NEWLINE || buf[i] == RETURN {
        LineEndSkipped(buf[..i], buf[i]);
        i := i + 1;
        continue;
      }
      assert Cells(buf[..i + 1]) == Cells(buf[..i]) + [buf[i] as int - DIGIT_ZERO as int];
      board[j] := buf[i] as int - DIGIT_ZERO as int;
      j := j + 1;
      i := i + 1;
    }
    assert buf[..e][..i] == buf[..i];
  }

  /** A file of 500 digits gives 500 cells, more than the 21 x 21 board
      readBoard is given. */
  lemma BoardOverflow()
    ensures var buf := seq(BOARD_BUFFER_SIZE, _ => 0x31);
      |Parsed(buf)| == BOARD_BUFFER_SIZE > BOARD_CELLS
  {
    var buf: seq<Byte> := seq(BOARD_BUFFER_SIZE, _ => 0x31);
    assert ScanEnd(buf, 0) == BOARD_BUFFER_SIZE;
    assert buf[..BOARD_BUFFER_SIZE] == buf;
    CellsWithoutLineEnds(buf);
  }

  /** The parse loop bounded by the board: it also stops once `cells`
      cells are written, so it writes the first min(kept, cells) cells. */
  method ParseBoard(board: array<int>, buf: array<Byte>, cells: nat) returns (j: nat)
    requires buf.Length == BOARD_BUFFER_SIZE && cells <= board.Length
    modifies board
    ensures var c := Parsed(buf[..]);
      j == (if |c| < cells then |c| else cells) && board[..j] == c[..j]
    ensures board[j..] == old(board[j..])
  {
    ghost var e := ScanEnd(buf[..], 0);
    var i: nat := 0;
    j := 0;
    while i < BOARD_BUFFER_SIZE && buf[i] != 0 && j < cells
      invariant i <= e && j <= cells && j == |Cells(buf[..i])| && board[..j] == Cells(buf[..i])
      invariant board[j..] == old(board[j..])
    {
      CellsNext(buf[..], i);
      if buf[i] == NEWLINE || buf[i] == RETURN {
        i := i + 1;
        continue;
      }
      board[j] := buf[i] as int - DIGIT_ZERO as int;
      j := j + 1;
      i := i + 1;
    }
    CellsPrefix(buf[..e], i);
    assert buf[..e][..i] == buf[..i];
  }

  /** The buffer holds the bytes read, then zeros: the parse sees the bytes
      read up to their first 0. */
  lemma ParsedText(buf: seq<Byte>, text: seq<Byte>)
    requires |text| <= |buf| && buf[..|text|] == text
    requires forall i :: |text| <= i < |buf| ==> buf[i] == 0
    ensures Parsed(buf) == Cells(text[..ScanEnd(text, 0)])
  {
    var e := ScanEnd(text, 0);
    assert forall i :: 0 <= i < e ==> buf[i] == text[i];
    assert e < |buf| ==> buf[e] == 0;
    assert ScanEnd(buf, 0) == e by {
      var f := ScanEnd(buf, 0);
      assert f <= e;
    }
    assert buf[..e] == text[..e];
  }

  /** "board.txt" in directory form, "BOARD   TXT", with the flag that
      marks the last segment of a path. */
  const BOARD_ENTRY_NAME: seq<Byte> := [0x42, 0x4F, 0x41, 0x52, 0x44, 0x20, 0x20, 0x20, 0x54, 0x58, 0x54, 1]

  /** pf_open("board.txt") is one lookup of "BOARD   TXT" in the root
      directory; a directory of that name is no file. */
  lemma BoardLookup(v: Volume, disk: Disk, last: seq<Byte>)
    requires v.csize >= 1 && |last| == DIR_ENTRY_SIZE
    ensures PetitFs.OpenSpec(v, disk, BOARD_FILE, last)
      == match RewindSpec(v, 0)
         case None => PetitFs.Opened(FR_DISK_ERR, last)
         case Some(p0) =>
           var r := Scan(v, disk, p0, BOARD_ENTRY_NAME, last);
           PetitFs.Opened(if r.res == FR_OK && IsDirEntry(r.entry) then FR_NO_FILE else r.res, r.entry)
  {
    BoardPath();
    PetitFs.OpenPlain(v, disk, BOARD_FILE, last);
  }

  /** "board.txt" starts at its first byte and is one plain 8.3 segment. */
  lemma BoardPath()
    ensures PetitFs.PathStart(BOARD_FILE) == 0 && FatName.PathByte(BOARD_FILE, 0) > FatName.SPACE
    ensures PetitFs.LastSegment(BOARD_FILE, 0) && FatName.Plain83(BOARD_FILE, 0)
    ensures FatName.Sfn83(BOARD_FILE, 0) + [1] == BOARD_ENTRY_NAME
  {
    FatName.BoardFileName();
    assert PetitFs.SkipSpaces(BOARD_FILE, 0) == 0;
    assert FatName.SegEnd(BOARD_FILE, 0) == 9;
  }

  /** What findAndInitSD and pf_open("board.txt") leave: a failed mount
      reported as it is, with no volume registered and the entry buffer as
      it was; after a mount, the volume mounted, and the result and entry
      buffer of opening board.txt on it. */
  predicate OpenedBoard(disk: Disk, initStatus: Byte, last: seq<Byte>, mounted: bool, vol: Volume, result: FResult, buf: seq<Byte>)
    requires |last| == DIR_ENTRY_SIZE
  {
    var m := FatMount.MountSpec(disk, initStatus);
    if m.res != FR_OK then result == m.res && !mounted && buf == last
    else
      mounted && vol == m.vol.value
      && result == PetitFs.OpenSpec(vol, disk, BOARD_FILE, last).res
      && buf == PetitFs.OpenSpec(vol, disk, BOARD_FILE, last).buf
  }

  /** findAndInitSD, then pf_open("board.txt"): after a failed mount the
      open flag is as it was; after a mount the file is open, at its start,
      exactly on FR_OK. */
  method OpenBoard(fs: PetitFs.FileSystem, initStatus: Byte) returns (result: FResult)
    requires fs.Valid()
    modifies fs`mounted, fs`vol, fs`fat, fs`flag, fs`buf, fs`orgClust, fs`fsize, fs`fptr
    ensures fs.Valid()
    ensures OpenedBoard(fs.disk, initStatus, old(fs.buf), fs.mounted, fs.vol, result, fs.buf)
    ensures fs.flag == (if !fs.mounted then old(fs.flag) else if result == FR_OK then FA_OPENED else 0)
    ensures result == FR_OK ==>
      fs.fptr == 0 && fs.orgClust == StartCluster(fs.buf) && fs.fsize == LdDword(fs.buf, DIR_FILE_SIZE)
  {
    result := fs.Mount(true, initStatus);
    if result != FR_OK {
      return;
    }
    result := fs.Open(BOARD_FILE);
  }

  /** readBoard with the bounded parse, for a board of boardHeight x
      boardWidth cells; `initStatus` is what disk_initialize reported to
      pf_mount, and `openResult` is what OpenBoard returned. It fails when the
      mount, the open or the read does, and then leaves the board alone;
      `text` is what was read of board.txt: nothing when the open failed,
      the whole request on success, and the bytes before the first one that
      could not be read on FR_DISK_ERR. */
  method ReadBoard(fs: PetitFs.FileSystem, board: array<int>, boardHeight: Byte, boardWidth: Byte, initStatus: Byte)
      returns (ok: bool, result: FResult, ghost openResult: FResult, ghost text: seq<Byte>)
    requires fs.Valid() && Area(boardHeight, boardWidth) <= board.Length
    modifies fs, board
    ensures fs.Valid()
    ensures ok <==> result == FR_OK
    ensures !ok ==> board[..] == old(board[..])
    ensures OpenedBoard(fs.disk, initStatus, old(fs.buf), fs.mounted, fs.vol, openResult, fs.buf)
    ensures openResult != FR_OK ==> result == openResult && text == [] && (fs.mounted ==> fs.flag == 0)
    ensures openResult == FR_OK ==>
      fs.orgClust == StartCluster(fs.buf) && fs.fsize == LdDword(fs.buf, DIR_FILE_SIZE)
      && BoardRead(fs.vol, fs.disk, fs.fat, fs.orgClust, fs.fsize, fs.fptr, fs.flag,
                   result, text, board[..], old(board[..]), Area(boardHeight, boardWidth))
  {
    text := [];
    result := OpenBoard(fs, initStatus);
    openResult := result;
    if result != FR_OK {
      return false, result, openResult, text;
    }
    result, text := ReadOpened(fs, board, Area(boardHeight, boardWidth));
    ok := result == FR_OK;
  }

  /** The rest of readBoard once board.txt is open at its start: pf_read of
      up to 500 bytes into the zeroed buffer and, when it succeeds, the
      bounded parse of them into the first `cells` cells of the board. */
  method ReadOpened(fs: PetitFs.FileSystem, board: array<int>, cells: nat) returns (result: FResult, ghost text: seq<Byte>)
    requires fs.Valid() && fs.mounted && fs.flag == FA_OPENED && fs.fptr == 0 && cells <= board.Length
    modifies fs`fptr, fs`flag, fs`currClust, fs`csect, fs`dsect, board
    ensures fs.Valid()
    ensures BoardRead(fs.vol, fs.disk, fs.fat, fs.orgClust, fs.fsize, fs.fptr, fs.flag,
                      result, text, board[..], old(board[..]), cells)
  {
    var boardBuffer := new Byte[BOARD_BUFFER_SIZE](_ => 0);
    var bytesRead;
    result, bytesRead := fs.Read(boardBuffer, BOARD_BUFFER_SIZE as U16);
    text := boardBuffer[..bytesRead];
    if result != FR_OK {
      return;
    }
    ParsedText(boardBuffer[..], text);
    var j := ParseBoard(board, boardBuffer, cells);
  }

  /** What pf_read of up to 500 bytes of an open file, at its start, and
      the parse leave: FR_OK with the whole request read and parsed into the
      board, or FR_DISK_ERR with the file closed at the first byte that could
      not be read and the board as it was; either way the file pointer is
      past the bytes read, and they are the file's first bytes. */
  predicate BoardRead(v: Volume, disk: Disk, fat: U32 -> U32, org: U32, fsize: nat, fptr: nat, flag: Byte,
                      result: FResult, text: seq<Byte>, now: seq<int>, was: seq<int>, cells: nat)
    requires v.csize >= 1
  {
    var n := PetitFs.FileSystem.ReadCount(BOARD_BUFFER_SIZE, fsize);
    (result == FR_OK || result == FR_DISK_ERR)
    && |text| <= n && fptr == |text| && Delivered(v, disk, fat, org, 0, text)
    && (result == FR_OK ==>
          |text| == n && flag == FA_OPENED && BoardFrom(now, was, Cells(text[..ScanEnd(text, 0)]), cells))
    && (result == FR_DISK_ERR ==>
          |text| < n && flag == 0 && FileByte(v, disk, fat, org, |text|) == None && now == was)
  }

  /** The number of cells of a boardHeight x boardWidth board. */
  function Area(height: Byte, width: Byte): nat
  {
    height * width
  }

  /** The board after the bounded parse of cells c: its first min(|c|,
      cells) entries are those cells and the rest is as it was. */
  predicate BoardFrom(now: seq<int>, was: seq<int>, c: seq<int>, cells: nat)
  {
    var j := if |c| < cells then |c| else cells;
    j <= |now| == |was| && now[..j] == c[..j] && now[j..] == was[j..]
  }
}
