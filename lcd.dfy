/** lcd.c: the driver of the 130 x 130 colour LCD. The controller is fed
    9-bit frames whose first bit tells a command from a data byte; chip
    select brackets each operation. The driver keeps a text cursor, two
    colours and the "next byte is a colour" mark. The frames go into the
    log `sent`; the bit-banging of lcd_hw.c is not part of this model. */
module Lcd {
  import opened ByteOrder

  /** One event on the LCD's serial line. */
  datatype Wire = Select(on: bool) | WrCmd(cmd: Byte) | WrData(data: Byte)

  const CASET: Byte := 0x2A
  const PASET: Byte := 0x2B
  const RAMWR: Byte := 0x2C

  /** The screen holds 130 x 130 pixels. */
  const SCREEN_PIXELS: nat := 16900
  /** Characters are 8 pixels wide and 14 high. */
  const CHAR_WIDTH: nat := 8
  const GLYPH_ROWS: nat := 14
  /** The font table starts at character 30. */
  const FIRST_GLYPH: int := 30
  /** lcdPutchar draws a character only while the cursor is at x <= 124. */
  const LAST_COLUMN: nat := 124
  /** lcdNewline moves down 14 pixels and stops at y = 126. */
  const LAST_LINE: nat := 126

  const NEWLINE: Byte := 10
  const RETURN: Byte := 13
  const COLOUR_MARK: Byte := 0xff

  // ------------------------------------------------------------------
  // The frames the driver sends, in the order it sends them

  /** n data bytes of colour c after log. */
  function Fill(log: seq<Wire>, n: nat, c: Byte): seq<Wire>
    decreases n, log
  {
    if n == 0 then log else Fill(log, n - 1, c) + [WrData(c)]
  }

  lemma {:induction false} FillContents(log: seq<Wire>, n: nat, c: Byte)
    ensures Fill(log, n, c) == log + seq(n, _ => WrData(c))
  {
    if n > 0 {
      FillContents(log, n - 1, c);
      assert log + seq(n - 1, _ => WrData(c)) + [WrData(c)] == log + seq(n, _ => WrData(c));
    }
  }

  /** lcdWindowNoReset: the column range and the row range, each offset by
      two to the controller's coordinates and truncated to a byte. */
  function WindowCmds(log: seq<Wire>, xp: Byte, yp: Byte, xe: Byte, ye: Byte): seq<Wire>
  {
    log + [WrCmd(CASET)] + [WrData(ByteOf(xp + 2))] + [WrData(ByteOf(xe + 2))]
      + [WrCmd(PASET)] + [WrData(ByteOf(yp + 2))] + [WrData(ByteOf(ye + 2))]
  }

  /** Select, a window of controller columns x0..x1 and rows y0..y1, and
      RAMWR: the frames that open a drawing. */
  function Opened(log: seq<Wire>, x0: Byte, x1: Byte, y0: Byte, y1: Byte): seq<Wire>
  {
    log + [Select(true)] + [WrCmd(CASET)] + [WrData(x0)] + [WrData(x1)]
      + [WrCmd(PASET)] + [WrData(y0)] + [WrData(y1)] + [WrCmd(RAMWR)]
  }

  /** The frames opened through lcdWindowNoReset, for a drawing from (xp,
      yp) to (xe, ye). */
  function Header(log: seq<Wire>, xp: Byte, yp: Byte, xe: Byte, ye: Byte): seq<Wire>
  {
    WindowCmds(log + [Select(true)], xp, yp, xe, ye) + [WrCmd(RAMWR)]
  }

  /** The window lcdWindowNoReset sets, in the controller's coordinates. */
  lemma HeaderOpens(log: seq<Wire>, xp: Byte, yp: Byte, xe: Byte, ye: Byte)
    ensures Header(log, xp, yp, xe, ye) == Opened(log, ByteOf(xp + 2), ByteOf(xe + 2), ByteOf(yp + 2), ByteOf(ye + 2))
  {
  }

  /** lcdClrscr's frames: the whole screen's window (255 + 2 and 128 + 2
      truncate to columns and rows 1 to 130) and 16900 background bytes. */
  function ClearWire(log: seq<Wire>, bkg: Byte): seq<Wire>
  {
    Fill(Header(log, 255, 255, 128, 128), SCREEN_PIXELS, bkg) + [Select(false)]
  }

  /** Clearing opens the window of columns and rows 1 to 130, the whole
      screen, and paints each of its 130 x 130 pixels once. */
  lemma ClearFillsScreen(log: seq<Wire>, bkg: Byte)
    ensures ClearWire(log, bkg) == Opened(log, 1, 130, 1, 130) + seq(130 * 130, _ => WrData(bkg)) + [Select(false)]
  {
    FillContents(Header(log, 255, 255, 128, 128), SCREEN_PIXELS, bkg);
  }

  /** lcdRect's frames: the window from (x, y) over xLen x yLen pixels and
      xLen * yLen bytes of the colour. */
  function RectWire(log: seq<Wire>, x: Byte, y: Byte, xLen: Byte, yLen: Byte, color: Byte): seq<Wire>
  {
    Fill(Header(log, x, y, ByteOf(x + xLen - 1), ByteOf(y + yLen - 1)), xLen * yLen, color) + [Select(false)]
  }

  /** A rectangle that stays on the controller's 0..255 range sends one
      byte for each pixel of its window. */
  lemma RectFillsWindow(log: seq<Wire>, x: Byte, y: Byte, xLen: Byte, yLen: Byte, color: Byte)
    requires xLen >= 1 && yLen >= 1 && x + xLen + 1 < 256 && y + yLen + 1 < 256
    ensures RectWire(log, x, y, xLen, yLen, color)
      == Opened(log, x + 2, x + xLen + 1, y + 2, y + yLen + 1) + seq(xLen * yLen, _ => WrData(color)) + [Select(false)]
  {
    var h := Header(log, x, y, ByteOf(x + xLen - 1), ByteOf(y + yLen - 1));
    assert h == Opened(log, x + 2, x + xLen + 1, y + 2, y + yLen + 1) by {
      FitsUnchanged(x + xLen - 1);
      FitsUnchanged(y + yLen - 1);
      FitsUnchanged(x + 2);
      FitsUnchanged(y + 2);
      FitsUnchanged(x + xLen + 1);
      FitsUnchanged(y + yLen + 1);
    }
    FillContents(h, xLen * yLen, color);
  }

  // ------------------------------------------------------------------
  // Bordered rectangles

  /** A row of lcdRectBrd's middle: a border byte, `inner` interior bytes,
      a border byte. */
  function BorderRow(log: seq<Wire>, inner: nat, interior: Byte, border: Byte): seq<Wire>
  {
    Fill(log + [WrData(border)], inner, interior) + [WrData(border)]
  }

  function MiddleRows(log: seq<Wire>, rows: nat, inner: nat, interior: Byte, border: Byte): seq<Wire>
    decreases rows, log
  {
    if rows == 0 then log else BorderRow(MiddleRows(log, rows - 1, inner, interior, border), inner, interior, border)
  }

  /** A full border row of width bytes, `rows` middle rows, a full border
      row. */
  function Frame(log: seq<Wire>, width: nat, rows: nat, inner: nat, interior: Byte, border: Byte): seq<Wire>
  {
    Fill(MiddleRows(Fill(log, width, border), rows, inner, interior, border), width, border)
  }

  /** The pixel at row r, column c of a frame `height` rows high: border
      on the outer rows and columns, interior inside. */
  function FrameCell(r: nat, c: nat, width: nat, height: nat, interior: Byte, border: Byte): Wire
  {
    if r == 0 || r == height - 1 || c == 0 || c == width - 1 then WrData(border) else WrData(interior)
  }

  /** Row r of such a frame, left to right. */
  function FrameRow(r: nat, width: nat, height: nat, interior: Byte, border: Byte): seq<Wire>
  {
    seq(width, c requires 0 <= c < width => FrameCell(r, c, width, height, interior, border))
  }

  /** The first n rows of such a frame, top to bottom: the reference
      layout. */
  function Grid(width: nat, n: nat, height: nat, interior: Byte, border: Byte): seq<Wire>
  {
    if n == 0 then [] else Grid(width, n - 1, height, interior, border) + FrameRow(n - 1, width, height, interior, border)
  }

  lemma {:induction false} GridSize(width: nat, n: nat, height: nat, interior: Byte, border: Byte)
    ensures |Grid(width, n, height, interior, border)| == n * width
  {
    if n > 0 {
      GridSize(width, n - 1, height, interior, border);
      assert (n - 1) * width + width == n * width;
    }
  }

  /** The middle rows as sent are rows 1 to k of the frame. */
  lemma {:induction false} MiddleRowsGrid(log: seq<Wire>, width: nat, k: nat, height: nat, interior: Byte, border: Byte)
    requires width >= 2 && k + 1 < height
    ensures MiddleRows(log + Grid(width, 1, height, interior, border), k, width - 2, interior, border)
      == log + Grid(width, k + 1, height, interior, border)
  {
    if k > 0 {
      MiddleRowsGrid(log, width, k - 1, height, interior, border);
      var g := Grid(width, k, height, interior, border);
      var inner := seq(width - 2, _ => WrData(interior));
      FillContents(log + g + [WrData(border)], width - 2, interior);
      assert FrameRow(k, width, height, interior, border) == [WrData(border)] + inner + [WrData(border)];
      assert log + g + [WrData(border)] + inner + [WrData(border)]
        == log + (g + ([WrData(border)] + inner + [WrData(border)]));
    }
  }

  /** lcdRectBrd's pixel loops, corrected, send the frame row by row. */
  lemma FrameIsGrid(log: seq<Wire>, width: nat, rows: nat, interior: Byte, border: Byte)
    requires width >= 2
    ensures Frame(log, width, rows, width - 2, interior, border) == log + Grid(width, rows + 2, rows + 2, interior, border)
  {
    var h := rows + 2;
    FillContents(log, width, border);
    assert Grid(width, 1, h, interior, border) == FrameRow(0, width, h, interior, border);
    assert seq(width, _ => WrData(border)) == FrameRow(0, width, h, interior, border);
    MiddleRowsGrid(log, width, rows, h, interior, border);
    var g := Grid(width, rows + 1, h, interior, border);
    FillContents(log + g, width, border);
    assert seq(width, _ => WrData(border)) == FrameRow(rows + 1, width, h, interior, border);
    assert log + g + FrameRow(rows + 1, width, h, interior, border) == log + (g + FrameRow(rows + 1, width, h, interior, border));
  }

  /** lcdRectBrd as written: `j` runs from 1 while j < yLen - 2, the bound
      computed in int and compared as an unsigned 32-bit value. */
  function RowsAsWritten(yLen: Byte): nat
  {
    if U32Of(yLen - 2) >= 1 then U32Of(yLen - 2) - 1 else 0
  }

  /** lcdRectBrd's frames as written. */
  function RectBrdAsWrittenWire(log: seq<Wire>, x: Byte, y: Byte, xLen: Byte, yLen: Byte, interior: Byte, border: Byte): seq<Wire>
  {
    Frame(Header(log, x, y, ByteOf(x + xLen - 1), ByteOf(y + yLen - 1)),
          xLen, RowsAsWritten(yLen), U32Of(xLen - 2), interior, border) + [Select(false)]
  }

  /** As written, a bordered rectangle of yLen >= 3 rows sends a whole
      frame one row short of its window: the last window row gets nothing
      and a 4 x 4 rectangle gets 12 bytes. */
  lemma RectBrdOneRowShort(log: seq<Wire>, x: Byte, y: Byte, xLen: Byte, yLen: Byte, interior: Byte, border: Byte)
    requires xLen >= 2 && yLen >= 3
    ensures RectBrdAsWrittenWire(log, x, y, xLen, yLen, interior, border)
      == Opened(log, ByteOf(x + 2), ByteOf(x + xLen + 1), ByteOf(y + 2), ByteOf(y + yLen + 1))
         + Grid(xLen, yLen - 1, yLen - 1, interior, border) + [Select(false)]
    ensures |Grid(xLen, yLen - 1, yLen - 1, interior, border)| == (yLen - 1) * xLen
  {
    var xe, ye := ByteOf(x + xLen - 1), ByteOf(y + yLen - 1);
    var h := Header(log, x, y, xe, ye);
    var g := Grid(xLen, yLen - 1, yLen - 1, interior, border);
    assert RectBrdAsWrittenWire(log, x, y, xLen, yLen, interior, border) == h + g + [Select(false)] by {
      assert U32Of(xLen - 2) == xLen - 2 && RowsAsWritten(yLen) == yLen - 3;
      FrameIsGrid(h, xLen, yLen - 3, interior, border);
    }
    HeaderOfRect(log, x, y, xLen, yLen);
    GridSize(xLen, yLen - 1, yLen - 1, interior, border);
  }

  /** As written, a rectangle one pixel high runs the middle loop for
      almost 2^32 rows. */
  lemma RectBrdFlatRuns()
    ensures RowsAsWritten(1) == TWO32 - 2
  {
  }

  /** lcdRectBrd corrected: yLen - 2 middle rows, so the frame fills its
      window. */
  function RectBrdWire(log: seq<Wire>, x: Byte, y: Byte, xLen: Byte, yLen: Byte, interior: Byte, border: Byte): seq<Wire>
    requires xLen >= 2 && yLen >= 2
  {
    Frame(Header(log, x, y, ByteOf(x + xLen - 1), ByteOf(y + yLen - 1)),
          xLen, yLen - 2, xLen - 2, interior, border) + [Select(false)]
  }

  /** Corrected, the frame has as many rows as its window: one byte for
      each of its xLen * yLen pixels, border around and interior inside. */
  lemma RectBrdFillsWindow(log: seq<Wire>, x: Byte, y: Byte, xLen: Byte, yLen: Byte, interior: Byte, border: Byte)
    requires xLen >= 2 && yLen >= 2
    ensures RectBrdWire(log, x, y, xLen, yLen, interior, border)
      == Opened(log, ByteOf(x + 2), ByteOf(x + xLen + 1), ByteOf(y + 2), ByteOf(y + yLen + 1))
         + Grid(xLen, yLen, yLen, interior, border) + [Select(false)]
    ensures |Grid(xLen, yLen, yLen, interior, border)| == xLen * yLen
  {
    var xe, ye := ByteOf(x + xLen - 1), ByteOf(y + yLen - 1);
    var h := Header(log, x, y, xe, ye);
    var g := Grid(xLen, yLen, yLen, interior, border);
    assert RectBrdWire(log, x, y, xLen, yLen, interior, border) == h + g + [Select(false)] by {
      FrameIsGrid(h, xLen, yLen - 2, interior, border);
    }
    HeaderOfRect(log, x, y, xLen, yLen);
    GridSize(xLen, yLen, yLen, interior, border);
  }

  /** The header lcdRectBrd sends opens the window of its rectangle. */
  lemma HeaderOfRect(log: seq<Wire>, x: Byte, y: Byte, xLen: Byte, yLen: Byte)
    ensures Header(log, x, y, ByteOf(x + xLen - 1), ByteOf(y + yLen - 1))
      == Opened(log, ByteOf(x + 2), ByteOf(x + xLen + 1), ByteOf(y + 2), ByteOf(y + yLen + 1))
  {
    ByteOfShift(x + xLen - 1, 2);
    ByteOfShift(y + yLen - 1, 2);
    HeaderOpens(log, x, y, ByteOf(x + xLen - 1), ByteOf(y + yLen - 1));
  }

  /** Truncating to a byte before or after adding k gives the same byte. */
  lemma ByteOfShift(a: int, k: int)
    ensures ByteOf(ByteOf(a) + k) == ByteOf(a + k)
  {
    DivModUnique(ByteOf(a) + k, TWO8, (a + k) / TWO8 - a / TWO8, (a + k) % TWO8);
  }

  // ------------------------------------------------------------------
  // Characters

  /** Pixel j of a font row, left to right: the row's bits from the most
      significant down. */
  function Pixel(row: Byte, j: nat, fg: Byte, bg: Byte): Wire
    requires j < 8
  {
    if Bit(row, 7 - j) then WrData(fg) else WrData(bg)
  }

  /** The first j pixels of a font row after log. */
  function Pixels(log: seq<Wire>, row: Byte, j: nat, fg: Byte, bg: Byte): seq<Wire>
    requires j <= 8
    decreases j, log
  {
    if j == 0 then log else Pixels(log, row, j - 1, fg, bg) + [Pixel(row, j - 1, fg, bg)]
  }

  /** Where pixel (r, c) of a drawing `width` pixels wide is sent. */
  function Offset(r: nat, c: nat, width: nat): nat
  {
    r * width + c
  }

  /** The first n rows of the glyph at `offset` in the font after log. */
  function Rows(log: seq<Wire>, font: nat -> Byte, offset: nat, n: nat, fg: Byte, bg: Byte): seq<Wire>
    decreases n, log
  {
    if n == 0 then log else Pixels(Rows(log, font, offset, n - 1, fg, bg), font(offset + n - 1), 8, fg, bg)
  }

  lemma {:induction false} PixelsContents(log: seq<Wire>, row: Byte, j: nat, fg: Byte, bg: Byte)
    requires j <= 8
    ensures Pixels(log, row, j, fg, bg) == log + seq(j, k requires 0 <= k < j => Pixel(row, k, fg, bg))
  {
    if j > 0 {
      PixelsContents(log, row, j - 1, fg, bg);
      assert log + seq(j - 1, k requires 0 <= k < j - 1 => Pixel(row, k, fg, bg)) + [Pixel(row, j - 1, fg, bg)]
        == log + seq(j, k requires 0 <= k < j => Pixel(row, k, fg, bg));
    }
  }

  /** The reference layout of a glyph: n rows of 8 pixels, row i from font
      byte offset + i, most significant bit leftmost. */
  lemma {:induction false} RowsCells(log: seq<Wire>, font: nat -> Byte, offset: nat, n: nat, fg: Byte, bg: Byte)
    ensures var g := Rows(log, font, offset, n, fg, bg);
      |g| == |log| + 8 * n && g[..|log|] == log
      && forall i, j :: 0 <= i < n && 0 <= j < 8 ==> g[|log| + Offset(i, j, 8)] == Pixel(font(offset + i), j, fg, bg)
  {
    if n > 0 {
      var p := Rows(log, font, offset, n - 1, fg, bg);
      RowsCells(log, font, offset, n - 1, fg, bg);
      PixelsContents(p, font(offset + n - 1), 8, fg, bg);
    }
  }

  /** The text state of the driver and its frames. */
  datatype Screen = Screen(x: Byte, y: Byte, bkgColor: Byte, textColor: Byte, setcolmark: bool, sent: seq<Wire>)

  /** lcdData's frames: for a byte up to 127 the 8 x 14 window at the
      cursor and the glyph of character data - 30 (truncated to a byte);
      for larger bytes only the chip select. */
  function GlyphWire(s: Screen, font: nat -> Byte, data: Byte): seq<Wire>
  {
    (if data <= 127 then
       Rows(Opened(s.sent, ByteOf(s.x + 2), ByteOf(s.x + 9), ByteOf(s.y + 2), ByteOf(s.y + 15)),
            font, GLYPH_ROWS * ByteOf(data - FIRST_GLYPH), GLYPH_ROWS, s.textColor, s.bkgColor)
     else s.sent + [Select(true)]) + [Select(false)]
  }

  /** lcdData: the glyph sent and the cursor 8 pixels right, wrapping at
      256. */
  function Drawn(s: Screen, font: nat -> Byte, data: Byte): Screen
  {
    s.(x := ByteOf(s.x + CHAR_WIDTH), sent := GlyphWire(s, font, data))
  }

  /** A character opens the 8 x 14 window at the cursor (controller
      columns x + 2 to x + 9, rows y + 2 to y + 15) and fills it row by row
      with its glyph: text colour for set font bits, background for clear
      ones, the most significant bit leftmost. */
  lemma GlyphFillsWindow(s: Screen, font: nat -> Byte, data: Byte)
    requires data <= 127
    ensures var w, n := GlyphWire(s, font, data), |s.sent| + 8;
      |w| == n + 8 * GLYPH_ROWS + 1 && w[|w| - 1] == Select(false)
      && w[..n] == Opened(s.sent, ByteOf(s.x + 2), ByteOf(s.x + 9), ByteOf(s.y + 2), ByteOf(s.y + 15))
      && forall i, j :: 0 <= i < GLYPH_ROWS && 0 <= j < 8 ==>
           w[n + Offset(i, j, 8)] == Pixel(font(GLYPH_ROWS * ByteOf(data - FIRST_GLYPH) + i), j, s.textColor, s.bkgColor)
  {
    var h := Opened(s.sent, ByteOf(s.x + 2), ByteOf(s.x + 9), ByteOf(s.y + 2), ByteOf(s.y + 15));
    RowsCells(h, font, GLYPH_ROWS * ByteOf(data - FIRST_GLYPH), GLYPH_ROWS, s.textColor, s.bkgColor);
  }

  /** lcdNewline: back to column 0, 14 pixels down, at most to line 126.
      lcd_y is a byte, so from line 242 on the step wraps past 255 and
      lands near the top, below 126, where the clamp does not apply. */
  function NewLine(s: Screen): (r: Screen)
    ensures r.x == 0 && r.y <= LAST_LINE
    ensures s.y + 14 < 256 ==> r.y == (if s.y + 14 < LAST_LINE then s.y + 14 else LAST_LINE)
    ensures s.y + 14 >= 256 ==> r.y == s.y + 14 - 256
    ensures r == s.(x := 0, y := r.y)
  {
    s.(x := 0, y := if ByteOf(s.y + 14) >= LAST_LINE then LAST_LINE else ByteOf(s.y + 14))
  }

  /** lcdPutchar: '\n' starts a line, '\r' is dropped; otherwise an armed
      colour mark makes the byte the text colour, 0xff arms the mark, and
      any other byte is drawn while x <= 124. */
  function Put(s: Screen, font: nat -> Byte, data: Byte): Screen
  {
    if data == NEWLINE then NewLine(s)
    else if data == RETURN then s
    else if s.setcolmark then s.(textColor := data, setcolmark := false)
    else if data == COLOUR_MARK then s.(setcolmark := true)
    else if s.x <= LAST_COLUMN then Drawn(s, font, data)
    else s
  }

  /** lcdPutchar on each byte of a string in turn. */
  function PutAll(s: Screen, font: nat -> Byte, text: seq<Byte>): Screen
  {
    if text == [] then s else Put(PutAll(s, font, text[..|text| - 1]), font, text[|text| - 1])
  }

  /** The string lcdPuts prints: the bytes before the first NUL. */
  function Terminated(text: seq<Byte>): (r: seq<Byte>)
    ensures 0 !in r && r <= text
  {
    if text == [] || text[0] == 0 then [] else [text[0]] + Terminated(text[1..])
  }

  lemma {:induction false} TerminatedAt(text: seq<Byte>, i: nat)
    requires i <= |text| && (i == |text| || text[i] == 0)
    requires forall k :: 0 <= k < i ==> text[k] != 0
    ensures Terminated(text) == text[..i]
  {
    if i > 0 {
      TerminatedAt(text[1..], i - 1);
      assert [text[0]] + text[1..][..i - 1] == text[..i];
    }
  }

  /** Printing two strings one after the other is printing their
      concatenation. */
  lemma {:induction false} PutAllAppend(s: Screen, font: nat -> Byte, a: seq<Byte>, b: seq<Byte>)
    ensures PutAll(s, font, a + b) == PutAll(PutAll(s, font, a), font, b)
  {
    if b != [] {
      assert (a + b)[..|a + b| - 1] == a + b[..|b| - 1];
      PutAllAppend(s, font, a, b[..|b| - 1]);
    } else {
      assert a + b == a;
    }
  }

  /** Printing only appends frames: what was sent before stays. */
  lemma {:induction false} PutAllExtends(s: Screen, font: nat -> Byte, text: seq<Byte>)
    ensures s.sent <= PutAll(s, font, text).sent
  {
    if text != [] {
      var p := PutAll(s, font, text[..|text| - 1]);
      PutAllExtends(s, font, text[..|text| - 1]);
      var c := text[|text| - 1];
      if c != NEWLINE && c != RETURN && !p.setcolmark && c != COLOUR_MARK && p.x <= LAST_COLUMN {
        var h := Opened(p.sent, ByteOf(p.x + 2), ByteOf(p.x + 9), ByteOf(p.y + 2), ByteOf(p.y + 15));
        RowsCells(h, font, GLYPH_ROWS * ByteOf(c - FIRST_GLYPH), GLYPH_ROWS, p.textColor, p.bkgColor);
        assert h[..|p.sent|] == p.sent;
      }
    }
  }

  /** An ordinary byte: drawn, not a line break, not the colour mark. */
  predicate Ordinary(c: Byte)
  {
    c != NEWLINE && c != RETURN && c != COLOUR_MARK
  }

  /** A line holds 16 characters: from column 0, n ordinary bytes leave the
      cursor at 8 * min(n, 16), and bytes past the sixteenth change
      nothing. */
  lemma {:induction false} LineCapacity(s: Screen, font: nat -> Byte, text: seq<Byte>)
    requires s.x == 0 && !s.setcolmark
    requires forall k :: 0 <= k < |text| ==> Ordinary(text[k])
    ensures PutAll(s, font, text).x == 8 * (if |text| < 16 then |text| else 16)
    ensures !PutAll(s, font, text).setcolmark && PutAll(s, font, text).y == s.y
    ensures |text| > 16 ==> PutAll(s, font, text) == PutAll(s, font, text[..16])
  {
    if text != [] {
      var p := text[..|text| - 1];
      LineCapacity(s, font, p);
      if |text| > 16 {
        assert text[..16] == p[..16] || |p| == 16;
        if |p| == 16 {
          assert text[..16] == p;
        }
      }
    }
  }

  /** The colour escape: 0xff and the next byte set the text colour and
      draw nothing. */
  lemma ColourEscape(s: Screen, font: nat -> Byte, c: Byte)
    requires !s.setcolmark && c != NEWLINE && c != RETURN
    ensures PutAll(s, font, [COLOUR_MARK, c]) == s.(textColor := c)
  {
    assert [COLOUR_MARK, c][..1] == [COLOUR_MARK];
    assert [COLOUR_MARK][..0] == [];
    assert PutAll(s, font, [COLOUR_MARK]) == s.(setcolmark := true);
  }

  /** A line break between the mark and its colour byte leaves the mark
      armed: the newline test comes first. */
  lemma MarkSurvivesNewline(s: Screen, font: nat -> Byte)
    requires s.setcolmark
    ensures Put(s, font, NEWLINE).setcolmark && Put(s, font, RETURN) == s
  {
  }

  class Driver {
    /** lcd_x and lcd_y, the text cursor. */
    var x: Byte
    var y: Byte
    var bkgColor: Byte
    var textColor: Byte
    /** Whether the next byte printed is a text colour. */
    var setcolmark: bool
    /** Every frame sent, in order. */
    var sent: seq<Wire>
    /** charMap, the font table, 14 bytes per character from character 30;
        the table itself is not part of this model. */
    const font: nat -> Byte

    function State(): Screen
      reads this
    {
      Screen(x, y, bkgColor, textColor, setcolmark, sent)
    }

    constructor (charMap: nat -> Byte)
      ensures State() == Screen(0, 0, 0, 0, false, []) && font == charMap
    {
      x, y, bkgColor, textColor, setcolmark, sent := 0, 0, 0, 0, false, [];
      font := charMap;
    }

    /** lcdWrcmd. */
    method WriteCommand(cmd: Byte)
      modifies this`sent
      ensures sent == old(sent) + [WrCmd(cmd)]
    {
      sent := sent + [WrCmd(cmd)];
    }

    /** lcdWrdata. */
    method WriteData(data: Byte)
      modifies this`sent
      ensures sent == old(sent) + [WrData(data)]
    {
      sent := sent + [WrData(data)];
    }

    /** selectLCD. */
    method SelectLcd(on: bool)
      modifies this`sent
      ensures sent == old(sent) + [Select(on)]
    {
      sent := sent + [Select(on)];
    }

    /** lcdWindowNoReset. */
    method WindowNoReset(xp: Byte, yp: Byte, xe: Byte, ye: Byte)
      modifies this`sent
      ensures sent == WindowCmds(old(sent), xp, yp, xe, ye)
    {
      WriteCommand(CASET);
      WriteData(ByteOf(xp + 2));
      WriteData(ByteOf(xe + 2));
      WriteCommand(PASET);
      WriteData(ByteOf(yp + 2));
      WriteData(ByteOf(ye + 2));
    }

    /** lcdWindow: lcdWindowNoReset between select and deselect. */
    method Window(xp: Byte, yp: Byte, xe: Byte, ye: Byte)
      modifies this`sent
      ensures sent == WindowCmds(old(sent) + [Select(true)], xp, yp, xe, ye) + [Select(false)]
    {
      SelectLcd(true);
      WindowNoReset(xp, yp, xe, ye);
      SelectLcd(false);
    }

    /** The window and RAMWR that open a drawing. */
    method OpenDrawing(xp: Byte, yp: Byte, xe: Byte, ye: Byte)
      modifies this`sent
      ensures sent == Header(old(sent), xp, yp, xe, ye)
    {
      SelectLcd(true);
      WindowNoReset(xp, yp, xe, ye);
      WriteCommand(RAMWR);
    }

    /** The loops that send n bytes of one colour. */
    method FillBytes(n: nat, c: Byte)
      modifies this`sent
      ensures sent == Fill(old(sent), n, c)
    {
      var i := 0;
      while i < n
        invariant 0 <= i <= n && sent == Fill(old(sent), i, c)
      {
        WriteData(c);
        i := i + 1;
      }
    }

    /** lcdClrscr. */
    method Clrscr()
      modifies this`x, this`y, this`sent
      ensures x == 0 && y == 0 && sent == ClearWire(old(sent), bkgColor)
    {
      x := 0;
      y := 0;
      OpenDrawing(255, 255, 128, 128);
      FillBytes(SCREEN_PIXELS, bkgColor);
      SelectLcd(false);
    }

    /** lcdColor. */
    method Color(bkg: Byte, text: Byte)
      modifies this`bkgColor, this`textColor
      ensures bkgColor == bkg && textColor == text
    {
      bkgColor := bkg;
      textColor := text;
    }

    /** lcdRect. */
    method Rect(x0: Byte, y0: Byte, xLen: Byte, yLen: Byte, color: Byte)
      modifies this`sent
      ensures sent == RectWire(old(sent), x0, y0, xLen, yLen, color)
    {
      OpenDrawing(x0, y0, ByteOf(x0 + xLen - 1), ByteOf(y0 + yLen - 1));
      var len := xLen * yLen;
      FillBytes(len, color);
      SelectLcd(false);
    }

    /** One middle row of lcdRectBrd. */
    method BorderedRow(inner: nat, interior: Byte, border: Byte)
      modifies this`sent
      ensures sent == BorderRow(old(sent), inner, interior, border)
    {
      WriteData(border);
      FillBytes(inner, interior);
      WriteData(border);
    }

    /** The middle rows of lcdRectBrd: rows numbered from 1 while below
        `bound`. */
    method BorderedRows(bound: nat, inner: nat, interior: Byte, border: Byte)
      modifies this`sent
      ensures sent == MiddleRows(old(sent), if bound >= 1 then bound - 1 else 0, inner, interior, border)
    {
      var j := 1;
      while j < bound
        invariant 1 <= j <= (if bound >= 1 then bound else 1)
        invariant sent == MiddleRows(old(sent), j - 1, inner, interior, border)
      {
        BorderedRow(inner, interior, border);
        j := j + 1;
      }
    }

    /** lcdRectBrd as written: the middle loop stops at yLen - 2. */
    method RectBrdAsWritten(x0: Byte, y0: Byte, xLen: Byte, yLen: Byte, interior: Byte, border: Byte)
      modifies this`sent
      ensures sent == RectBrdAsWrittenWire(old(sent), x0, y0, xLen, yLen, interior, border)
    {
      OpenDrawing(x0, y0, ByteOf(x0 + xLen - 1), ByteOf(y0 + yLen - 1));
      FillBytes(xLen, border);
      BorderedRows(U32Of(yLen - 2), U32Of(xLen - 2), interior, border);
      FillBytes(xLen, border);
      SelectLcd(false);
    }

    /** lcdRectBrd with the middle loop running to yLen - 1, for rectangles
        of at least two rows and columns. */
    method RectBrd(x0: Byte, y0: Byte, xLen: Byte, yLen: Byte, interior: Byte, border: Byte)
      requires xLen >= 2 && yLen >= 2
      modifies this`sent
      ensures sent == RectBrdWire(old(sent), x0, y0, xLen, yLen, interior, border)
    {
      OpenDrawing(x0, y0, ByteOf(x0 + xLen - 1), ByteOf(y0 + yLen - 1));
      FillBytes(xLen, border);
      BorderedRows(yLen - 1, xLen - 2, interior, border);
      FillBytes(xLen, border);
      SelectLcd(false);
    }

    /** lcdGotoxy: the cursor moved and a window from it to the bottom
        right corner. */
    method Gotoxy(x0: Byte, y0: Byte)
      modifies this`x, this`y, this`sent
      ensures x == x0 && y == y0
      ensures sent == WindowCmds(old(sent) + [Select(true)], x0, y0, 129, 129) + [Select(false)]
    {
      x := x0;
      y := y0;
      Window(x0, y0, 129, 129);
    }

    /** lcdNewline. */
    method Newline()
      modifies this`x, this`y
      ensures State() == NewLine(old(State()))
    {
      x := 0;
      y := ByteOf(y + 14);
      if y >= LAST_LINE {
        y := LAST_LINE;
      }
    }

    /** The inner loop of lcdData: the font byte shifted out MSB first,
        one pixel per bit. */
    method ShiftOut(row: Byte)
      modifies this`sent
      ensures sent == Pixels(old(sent), row, 8, textColor, bkgColor)
    {
      var byteToShift := row;
      var j := 0;
      while j < 8
        invariant 0 <= j <= 8 && sent == Pixels(old(sent), row, j, textColor, bkgColor)
        invariant forall k :: j <= k < 8 ==> Bit(byteToShift, k) == Bit(row, k - j)
      {
        assert Pow2(7) == 0x80;
        BitAndPow2(byteToShift, 7);
        if BitAnd(byteToShift, 0x80) != 0 {
          WriteData(textColor);
        } else {
          WriteData(bkgColor);
        }
        ShiftedBits(byteToShift, row, j);
        byteToShift := ByteOf(Shl(byteToShift, 1));
        j := j + 1;
      }
    }

    /** lcdData's window: the 8 columns and 14 rows from the cursor, then
        RAMWR. */
    method GlyphWindow()
      modifies this`sent
      ensures sent == old(sent) + [WrCmd(CASET)] + [WrData(ByteOf(x + 2))] + [WrData(ByteOf(x + 9))]
        + [WrCmd(PASET)] + [WrData(ByteOf(y + 2))] + [WrData(ByteOf(y + 15))] + [WrCmd(RAMWR)]
    {
      WriteCommand(CASET);
      WriteData(ByteOf(x + 2));
      WriteData(ByteOf(x + 9));
      WriteCommand(PASET);
      WriteData(ByteOf(y + 2));
      WriteData(ByteOf(y + 15));
      WriteCommand(RAMWR);
    }

    /** lcdData's outer loop: the 14 font rows from mapOffset on. */
    method SendGlyph(offset: nat)
      modifies this`sent
      ensures sent == Rows(old(sent), font, offset, GLYPH_ROWS, textColor, bkgColor)
    {
      var mapOffset := offset;
      var i := 0;
      while i < GLYPH_ROWS
        invariant 0 <= i <= GLYPH_ROWS && mapOffset == offset + i
        invariant sent == Rows(old(sent), font, offset, i, textColor, bkgColor)
      {
        var byteToShift := font(mapOffset);
        mapOffset := mapOffset + 1;
        ShiftOut(byteToShift);
        i := i + 1;
      }
    }

    /** lcdData. */
    method Data(data: Byte)
      modifies this`x, this`sent
      ensures State() == Drawn(old(State()), font, data)
    {
      SelectLcd(true);
      if data <= 127 {
        var glyph := ByteOf(data - FIRST_GLYPH);
        GlyphWindow();
        SendGlyph(GLYPH_ROWS * glyph);
      }
      SelectLcd(false);
      x := ByteOf(x + CHAR_WIDTH);
    }

    /** lcdPutchar. */
    method Putchar(data: Byte)
      modifies this`x, this`y, this`textColor, this`setcolmark, this`sent
      ensures State() == Put(old(State()), font, data)
    {
      if data == NEWLINE {
        Newline();
      } else if data != RETURN {
        PutOther(data);
      }
    }

    /** lcdPutchar past the line-break tests. */
    method PutOther(data: Byte)
      requires data != NEWLINE && data != RETURN
      modifies this`x, this`textColor, this`setcolmark, this`sent
      ensures State() == Put(old(State()), font, data)
    {
      if setcolmark {
        textColor := data;
        setcolmark := false;
      } else if data == COLOUR_MARK {
        setcolmark := true;
      } else if x <= LAST_COLUMN {
        Data(data);
      }
    }

    /** lcdPuts: lcdPutchar on each byte up to the terminating NUL. */
    method Puts(text: seq<Byte>)
      modifies this`x, this`y, this`textColor, this`setcolmark, this`sent
      ensures State() == PutAll(old(State()), font, Terminated(text))
    {
      var i := 0;
      while i < |text| && text[i] != 0
        invariant 0 <= i <= |text| && forall k :: 0 <= k < i ==> text[k] != 0
        invariant State() == PutAll(old(State()), font, text[..i])
      {
        assert text[..i + 1][..i] == text[..i];
        Putchar(text[i]);
        i := i + 1;
      }
      TerminatedAt(text, i);
    }
  }

  /** One step of lcdData's shift: the bit at the top of the byte is bit
      7 - j of the font row, and shifting left on a byte moves the rest up
      by one. */
  lemma ShiftedBits(b: Byte, row: Byte, j: nat)
    requires j < 8 && forall k :: j <= k < 8 ==> Bit(b, k) == Bit(row, k - j)
    ensures Bit(b, 7) == Bit(row, 7 - j)
    ensures forall k :: j + 1 <= k < 8 ==> Bit(ByteOf(Shl(b, 1)), k) == Bit(row, k - (j + 1))
  {
    assert Pow2(8) == TWO8;
    forall k | j + 1 <= k < 8
      ensures Bit(ByteOf(Shl(b, 1)), k) == Bit(row, k - (j + 1))
    {
      ModBit(Shl(b, 1), 8, k);
      ShlBit(b, 1, k);
    }
  }
}
