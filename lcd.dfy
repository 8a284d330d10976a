/**
 * The 20x4 character display behind a PCF8574 I2C backpack (lcd.c). Every
 * byte goes to the controller as two 4-bit halves, each half as two I2C
 * bytes that strobe the enable line; the model records the I2C byte stream
 * the driver writes (`Lcd.out`). Opening the bus, the controller's
 * start-up sequence and the delays between writes are not part of this
 * model.
 */
module Lcd {
  import opened Globals

  // ---------------------------------------------------------------------------
  // Wire format
  // ---------------------------------------------------------------------------

  /** Backpack pins: register select, read/write, enable, backlight, data D4-D7. */
  const RS: bv8 := 0x01
  const RW: bv8 := 0x02
  const EN: bv8 := 0x04
  const BL: bv8 := 0x08
  const D4: bv8 := 0x10
  const D5: bv8 := 0x20
  const D6: bv8 := 0x40
  const D7: bv8 := 0x80

  /** Controller commands used here. */
  const LCD_CLEAR: bv8 := 0x01
  const LCD_SET_DDRAM: bv8 := 0x80

  /** Display geometry and the display RAM address of each row's first cell. */
  const WIDTH: nat := 20
  const ROWS: nat := 4
  const ROW_OFFSETS: seq<bv8> := [0x00, 0x40, 0x14, 0x54]

  /** The pins of one half-byte: D4-D7 from its four bits, RS when `rs`, and the backlight on. */
  function NibbleData(nibble: bv8, rs: bool): (data: bv8)
    ensures data >> 4 == nibble & 0x0F
    ensures data & (RS | RW | EN | BL) == (if rs then RS | BL else BL)
  {
    (if nibble & 0x01 != 0 then D4 else 0) | (if nibble & 0x02 != 0 then D5 else 0) |
    (if nibble & 0x04 != 0 then D6 else 0) | (if nibble & 0x08 != 0 then D7 else 0) |
    (if rs then RS else 0) | BL
  }

  /** lcd_send_nibble's two I2C bytes: the half-byte with enable high, then with enable low. */
  function NibbleBytes(nibble: bv8, rs: bool): (r: seq<bv8>)
    ensures |r| == 2
  {
    var data := NibbleData(nibble, rs);
    [data | EN, data & !EN]
  }

  /** The two bytes differ only in the enable line, and both carry the half-byte, the register select and the backlight. */
  lemma NibbleShape(nibble: bv8, rs: bool)
    ensures var r := NibbleBytes(nibble, rs);
      r[0] == r[1] | EN && r[1] & EN == 0 &&
      r[0] >> 4 == r[1] >> 4 == nibble & 0x0F &&
      (r[1] & RS != 0) == rs && r[1] & BL == BL
  {
  }

  /** One byte for the controller: a command (`rs` false) or a character (`rs` true). */
  datatype Write = Write(byte: bv8, rs: bool)

  /** lcd_send_byte's four I2C bytes: high half, then low half. */
  function ByteBytes(w: Write): (r: seq<bv8>)
    ensures |r| == 4
  {
    NibbleBytes(w.byte >> 4, w.rs) + NibbleBytes(w.byte & 0x0F, w.rs)
  }

  /** The I2C stream of a sequence of controller writes. */
  function Encode(ws: seq<Write>): (r: seq<bv8>)
    ensures |r| == 4 * |ws|
    decreases |ws|
  {
    if ws == [] then [] else Encode(ws[..|ws| - 1]) + ByteBytes(ws[|ws| - 1])
  }

  /** What the controller latches from four I2C bytes: the two data halves and the register select. */
  function DecodeOne(b: seq<bv8>): Write
    requires |b| == 4
  {
    Write(((b[1] >> 4) << 4) | (b[3] >> 4), b[1] & RS != 0)
  }

  /** The controller's view of an I2C stream, four bytes per write. */
  function Decode(bytes: seq<bv8>): (ws: seq<Write>)
    requires |bytes| % 4 == 0
    decreases |bytes|
  {
    if bytes == [] then [] else Decode(bytes[..|bytes| - 4]) + [DecodeOne(bytes[|bytes| - 4..])]
  }

  /** Each byte is recovered from its two halves. */
  lemma ByteRoundTrip(w: Write)
    ensures DecodeOne(ByteBytes(w)) == w
  {
    var r := ByteBytes(w);
    NibbleShape(w.byte >> 4, w.rs);
    NibbleShape(w.byte & 0x0F, w.rs);
    assert r[1] >> 4 == (w.byte >> 4) & 0x0F;
    assert r[3] >> 4 == w.byte & 0x0F;
    assert (((w.byte >> 4) & 0x0F) << 4) | (w.byte & 0x0F) == w.byte;
  }

  /** The controller sees exactly the writes the driver sent. */
  lemma {:induction false} RoundTrip(ws: seq<Write>)
    ensures Decode(Encode(ws)) == ws
    decreases |ws|
  {
    if ws != [] {
      var e := Encode(ws);
      var front := ws[..|ws| - 1];
      RoundTrip(front);
      ByteRoundTrip(ws[|ws| - 1]);
      assert e[..|e| - 4] == Encode(front);
      assert e[|e| - 4..] == ByteBytes(ws[|ws| - 1]);
      assert front + [ws[|ws| - 1]] == ws;
    }
  }

  lemma {:induction false} EncodeAppend(a: seq<Write>, b: seq<Write>)
    ensures Encode(a + b) == Encode(a) + Encode(b)
    decreases |b|
  {
    if b == [] {
      assert a + b == a;
    } else {
      var b' := b[..|b| - 1];
      EncodeAppend(a, b');
      assert (a + b)[..|a + b| - 1] == a + b';
      Assoc(Encode(a), Encode(b'), ByteBytes(b[|b| - 1]));
    }
  }

  // ---------------------------------------------------------------------------
  // What the driver writes
  // ---------------------------------------------------------------------------

  /** A C `char` as the unsigned byte lcd_send_byte receives. */
  function CharByte(c: char): bv8 {
    ((c as int) % 256) as bv8
  }

  /** Characters for the display's data register. */
  function Chars(s: seq<char>): (ws: seq<Write>)
    ensures |ws| == |s| && forall i | 0 <= i < |s| :: ws[i] == Write(CharByte(s[i]), true)
  {
    seq(|s|, i requires 0 <= i < |s| => Write(CharByte(s[i]), true))
  }

  function Repeat(c: char, n: nat): (s: seq<char>)
    ensures |s| == n && forall i | 0 <= i < n :: s[i] == c
  {
    seq(n, _ => c)
  }

  /** The cursor command for a row, or nothing for a row off the display. */
  function Cursor(row: int): (ws: seq<Write>)
    ensures 0 <= row < ROWS ==> ws == [Write(LCD_SET_DDRAM | ROW_OFFSETS[row], false)]
    ensures !(0 <= row < ROWS) ==> ws == []
  {
    if 0 <= row < ROWS then [Write(LCD_SET_DDRAM | ROW_OFFSETS[row], false)] else []
  }

  /** How many characters of `str` from `col` are shown: up to the terminator or the end, at most to column 20. */
  function Visible(str: seq<char>, col: nat): (n: nat)
    requires col <= WIDTH
    ensures col <= n <= WIDTH && (n == col || n <= |str|)
    decreases WIDTH - col
  {
    if col < |str| && str[col] != '\0' && col < WIDTH then Visible(str, col + 1) else col
  }

  /** The visible stretch is exactly the run of non-terminator characters, cut at column 20. */
  lemma {:induction false} VisibleIs(str: seq<char>, col: nat, n: nat)
    requires col <= n <= WIDTH && n <= |str|
    requires forall i | col <= i < n :: str[i] != '\0'
    requires n == WIDTH || n == |str| || str[n] == '\0'
    ensures Visible(str, col) == n
    decreases n - col
  {
    if col < n {
      VisibleIs(str, col + 1, n);
    }
  }

  /** The row lcd_write_string fills: the visible characters, then spaces to column 20. */
  function Row(str: seq<char>): (r: seq<char>)
    ensures |r| == WIDTH
    ensures forall i | 0 <= i < Visible(str, 0) :: r[i] == str[i]
    ensures forall i | Visible(str, 0) <= i < WIDTH :: r[i] == ' '
  {
    var n := Visible(str, 0);
    str[..n] + Repeat(' ', WIDTH - n)
  }

  /** For a string without terminator: the row holds its first min(len, 20) characters, then spaces. */
  lemma RowShows(str: seq<char>)
    requires '\0' !in str
    ensures var m := if |str| < WIDTH then |str| else WIDTH;
      Row(str) == str[..m] + Repeat(' ', WIDTH - m)
  {
    var m := if |str| < WIDTH then |str| else WIDTH;
    forall i | 0 <= i < m
      ensures str[i] != '\0'
    {
      assert str[i] in str;
    }
    VisibleIs(str, 0, m);
  }

  /** lcd_write_string's controller writes: the cursor for a row on the display, then exactly 20 characters. */
  function WriteStringOps(str: seq<char>, row: int): (ws: seq<Write>)
    ensures |ws| == |Cursor(row)| + WIDTH
    ensures forall i | 0 <= i < |ws| :: ws[i].rs <==> i >= |Cursor(row)|
  {
    Cursor(row) + Chars(Row(str))
  }

  /** The length lcd_display_message centres on: strlen, at most 20. */
  function Fitted(line: string): (len: nat)
    ensures len <= WIDTH && (len == |line| || len == WIDTH)
  {
    if |line| > WIDTH then WIDTH else |line|
  }

  /** The left margin of a centred line. */
  function Padding(line: string): (p: nat)
    ensures p + Fitted(line) <= WIDTH
  {
    (WIDTH - Fitted(line)) / 2
  }

  /**
   * lcd_display_message's line buffer: 21 spaces, then the line copied from
   * column `padding` with strncpy (at most 20 - padding characters, the rest
   * of those filled with terminators), and a terminator in the last byte.
   */
  function Centred(line: string): (buf: seq<char>)
    ensures |buf| == WIDTH + 1 && buf[WIDTH] == '\0'
  {
    var padding := Padding(line);
    var copied := if |line| < WIDTH - padding then |line| else WIDTH - padding;
    seq(WIDTH + 1, i requires 0 <= i < WIDTH + 1 =>
      if i < padding then ' ' else if i < padding + copied then line[i - padding] else '\0')
  }

  /**
   * A line of the message is centred: (20 - min(len, 20)) / 2 spaces, the
   * text cut to 20 characters, then spaces; the right margin of a line
   * that fits equals its left one or is one space wider.
   */
  lemma CentredRow(line: string)
    requires '\0' !in line
    ensures var len := Fitted(line);
      var padding := Padding(line);
      Row(Centred(line)) == Repeat(' ', padding) + line[..len] + Repeat(' ', WIDTH - padding - len) &&
      0 <= (WIDTH - padding - len) - padding <= 1
  {
    var len := Fitted(line);
    var padding := Padding(line);
    var buf := Centred(line);
    forall i | 0 <= i < padding + len
      ensures buf[i] != '\0'
    {
      if i >= padding {
        assert buf[i] == line[i - padding];
        assert line[i - padding] in line;
      }
    }
    VisibleIs(buf, 0, padding + len);
    var text := Repeat(' ', padding) + line[..len];
    forall i | 0 <= i < padding + len
      ensures buf[..padding + len][i] == text[i]
    {
    }
    assert buf[..padding + len] == text;
  }

  /** The controller writes of lcd_display_message for the first `n` lines (a missing line is skipped). */
  function LinesOps(lines: seq<Option<string>>, n: nat): (ws: seq<Write>)
    requires n <= |lines|
    decreases n
  {
    if n == 0 then []
    else LinesOps(lines, n - 1) + (if lines[n - 1].Some? then WriteStringOps(Centred(lines[n - 1].value), n - 1) else [])
  }

  /** The writes of one more row of a message. */
  lemma MessageStep(lines: seq<Option<string>>, i: nat, ops: seq<Write>, more: seq<Write>)
    requires i < |lines| && ops == [Write(LCD_CLEAR, false)] + LinesOps(lines, i)
    requires more == (if lines[i].Some? then WriteStringOps(Centred(lines[i].value), i) else [])
    ensures ops + more == [Write(LCD_CLEAR, false)] + LinesOps(lines, i + 1)
  {
    Assoc([Write(LCD_CLEAR, false)], LinesOps(lines, i), more);
  }

  /** The bargraph's value: clamped into 1..100. */
  function Clamp(value: int): (v: int)
    ensures 1 <= v <= 100 && (1 <= value <= 100 ==> v == value)
  {
    if value < 1 then 1 else if value > 100 then 100 else value
  }

  /** Custom characters 0..3 fill one to four fifths of a cell, character 4 all five. */
  const FULL_CELL: char := 4 as char

  /** The 20 cells of a bargraph row: value/5 full cells, one partial cell for the remainder, then spaces. */
  function BarCells(value: int): (cells: seq<char>)
    ensures |cells| == WIDTH
  {
    var v := Clamp(value);
    var full := v / 5;
    var partial := v % 5;
    var shown := if full < WIDTH then full else WIDTH;
    var part := if full < WIDTH && partial > 0 then [(partial - 1) as char] else [];
    Repeat(FULL_CELL, shown) + part + Repeat(' ', WIDTH - shown - |part|)
  }

  /** The cells as the driver writes them: the full cells, the partial cell if any, then the padding. */
  lemma BarCellsAre(value: int, v: int)
    requires v == Clamp(value)
    ensures v / 5 <= WIDTH
    ensures v / 5 < WIDTH && v % 5 > 0 ==>
      BarCells(value) == (Repeat(FULL_CELL, v / 5) + [(v % 5 - 1) as char]) + Repeat(' ', WIDTH - (v / 5 + 1))
    ensures !(v / 5 < WIDTH && v % 5 > 0) ==>
      BarCells(value) == Repeat(FULL_CELL, v / 5) + Repeat(' ', WIDTH - v / 5)
  {
  }

  /** lcd_display_bargraph's controller writes: nothing for a row off the display, else the cursor and the cells. */
  function BargraphOps(value: int, row: int): (ws: seq<Write>)
    ensures !(0 <= row < ROWS) ==> ws == []
    ensures 0 <= row < ROWS ==> |ws| == 1 + WIDTH && ws[0] == Write(LCD_SET_DDRAM | ROW_OFFSETS[row], false)
    ensures forall i | 1 <= i < |ws| :: ws[i].rs
  {
    if 0 <= row < ROWS then Cursor(row) + Chars(BarCells(value)) else []
  }

  /** The fifths of a cell a bargraph character fills. */
  function Fifths(c: char): nat {
    if c == FULL_CELL then 5 else if c < FULL_CELL then c as nat + 1 else 0
  }

  /** The fifths a row of cells fills. */
  function Fill(cells: seq<char>): (n: nat)
    ensures n <= 5 * |cells|
    decreases |cells|
  {
    if cells == [] then 0 else Fill(cells[..|cells| - 1]) + Fifths(cells[|cells| - 1])
  }

  lemma {:induction false} FillAppend(a: seq<char>, b: seq<char>)
    ensures Fill(a + b) == Fill(a) + Fill(b)
    decreases |b|
  {
    if b == [] {
      assert a + b == a;
    } else {
      FillAppend(a, b[..|b| - 1]);
      assert (a + b)[..|a + b| - 1] == a + b[..|b| - 1];
    }
  }

  lemma {:induction false} FillRepeat(c: char, n: nat)
    ensures Fill(Repeat(c, n)) == n * Fifths(c)
    decreases n
  {
    if n > 0 {
      FillRepeat(c, n - 1);
      assert Repeat(c, n)[..n - 1] == Repeat(c, n - 1);
    }
  }

  /** The bargraph always fills the whole row, and the cells show the clamped value in fifths of a cell. */
  lemma BargraphShowsValue(value: int)
    ensures |BarCells(value)| == WIDTH
    ensures Fill(BarCells(value)) == Clamp(value)
  {
    var v := Clamp(value);
    BarCellsAre(value, v);
    var full := v / 5;
    var partial := v % 5;
    assert v == 5 * full + partial;
    if full < WIDTH && partial > 0 {
      BarWithPartial(full, partial);
    } else {
      BarWhole(full);
    }
  }

  /** `full` full cells, a cell holding `partial` fifths, then spaces: a full row filled to 5 * full + partial. */
  lemma BarWithPartial(full: nat, partial: nat)
    requires full < WIDTH && 1 <= partial <= 4
    ensures var cells := (Repeat(FULL_CELL, full) + [(partial - 1) as char]) + Repeat(' ', WIDTH - (full + 1));
      |cells| == WIDTH && Fill(cells) == 5 * full + partial
  {
    var c := (partial - 1) as char;
    var cells, pad := Repeat(FULL_CELL, full), Repeat(' ', WIDTH - (full + 1));
    assert Fill(cells) == 5 * full by {
      FillRepeat(FULL_CELL, full);
    }
    assert Fill(pad) == 0 by {
      FillRepeat(' ', WIDTH - (full + 1));
    }
    assert Fill([c]) == partial by {
      assert Fill([c]) == Fill([]) + Fifths(c);
    }
    FillAppend(cells, [c]);
    FillAppend(cells + [c], pad);
  }

  /** `full` full cells, then spaces: a full row filled to 5 * full. */
  lemma BarWhole(full: nat)
    requires full <= WIDTH
    ensures var cells := Repeat(FULL_CELL, full) + Repeat(' ', WIDTH - full);
      |cells| == WIDTH && Fill(cells) == 5 * full
  {
    var cells, pad := Repeat(FULL_CELL, full), Repeat(' ', WIDTH - full);
    assert Fill(cells) == 5 * full by {
      FillRepeat(FULL_CELL, full);
    }
    assert Fill(pad) == 0 by {
      FillRepeat(' ', WIDTH - full);
    }
    FillAppend(cells, pad);
  }

  // ---------------------------------------------------------------------------
  // The driver
  // ---------------------------------------------------------------------------

  lemma Assoc<T>(a: seq<T>, b: seq<T>, c: seq<T>)
    ensures (a + b) + c == a + (b + c)
  {
  }

  /** The I2C bytes of characters written one by one. */
  function Text(cs: seq<char>): (r: seq<bv8>)
    decreases |cs|
  {
    if cs == [] then [] else Text(cs[..|cs| - 1]) + ByteBytes(Write(CharByte(cs[|cs| - 1]), true))
  }

  lemma TextSnoc(cs: seq<char>, c: char)
    ensures Text(cs + [c]) == Text(cs) + ByteBytes(Write(CharByte(c), true))
  {
    assert (cs + [c])[..|cs|] == cs;
  }

  lemma {:induction false} TextIsEncode(cs: seq<char>)
    ensures Text(cs) == Encode(Chars(cs))
    decreases |cs|
  {
    if cs != [] {
      TextIsEncode(cs[..|cs| - 1]);
      assert Chars(cs)[..|cs| - 1] == Chars(cs[..|cs| - 1]);
    }
  }

  /** A command followed by characters, as bytes. */
  lemma CommandThenText(cursor: seq<Write>, cs: seq<char>)
    ensures Encode(cursor + Chars(cs)) == Encode(cursor) + Text(cs)
  {
    EncodeAppend(cursor, Chars(cs));
    TextIsEncode(cs);
  }

  lemma {:induction false} TextAppend(a: seq<char>, b: seq<char>)
    ensures Text(a + b) == Text(a) + Text(b)
    decreases |b|
  {
    if b == [] {
      assert a + b == a;
    } else {
      var b' := b[..|b| - 1];
      TextAppend(a, b');
      assert (a + b)[..|a + b| - 1] == a + b';
      Assoc(Text(a), Text(b'), ByteBytes(Write(CharByte(b[|b| - 1]), true)));
    }
  }

  /** Two runs of controller writes sent one after the other. */
  lemma Continued(start: seq<bv8>, ops: seq<Write>, more: seq<Write>, mid: seq<bv8>, after: seq<bv8>)
    requires mid == start + Encode(ops)
    requires after == mid + Encode(more)
    ensures after == start + Encode(ops + more)
  {
    EncodeAppend(ops, more);
    Assoc(start, Encode(ops), Encode(more));
  }

  /** Two runs of characters written one after the other. */
  lemma Joined(head: seq<bv8>, a: seq<char>, b: seq<char>, mid: seq<bv8>, after: seq<bv8>)
    requires mid == head + Text(a)
    requires after == mid + Text(b)
    ensures after == head + Text(a + b)
  {
    TextAppend(a, b);
    Assoc(head, Text(a), Text(b));
  }

  /** A command followed by characters, written after `start`. */
  lemma Framed(start: seq<bv8>, cursor: seq<Write>, cs: seq<char>, head: seq<bv8>, after: seq<bv8>)
    requires head == start + Encode(cursor)
    requires after == head + Text(cs)
    ensures after == start + Encode(cursor + Chars(cs))
  {
    CommandThenText(cursor, cs);
    Assoc(start, Encode(cursor), Text(cs));
  }

  /** One more character written after a command and some characters. */
  lemma Typed(head: seq<bv8>, cells: seq<char>, c: char, before: seq<bv8>, after: seq<bv8>)
    requires before == head + Text(cells)
    requires after == before + ByteBytes(Write(CharByte(c), true))
    ensures after == head + Text(cells + [c])
  {
    Assoc(head, Text(cells), ByteBytes(Write(CharByte(c), true)));
    TextSnoc(cells, c);
  }

  lemma RepeatSnoc(c: char, k: nat)
    ensures Repeat(c, k + 1) == Repeat(c, k) + [c]
  {
  }

  lemma EncodeOne(w: Write)
    ensures Encode([w]) == ByteBytes(w)
  {
    assert [w][..0] == [];
  }

  /** The I2C byte stream written to the backpack so far. */
  class Display {
    var out: seq<bv8>

    constructor ()
      ensures out == []
    {
      out := [];
    }

    /** lcd_send_nibble. */
    method SendNibble(nibble: bv8, rs: bool)
      modifies this
      ensures out == old(out) + NibbleBytes(nibble, rs)
    {
      var data: bv8 := 0;
      if nibble & 0x01 != 0 { data := data | D4; }
      if nibble & 0x02 != 0 { data := data | D5; }
      if nibble & 0x04 != 0 { data := data | D6; }
      if nibble & 0x08 != 0 { data := data | D7; }
      data := data | (if rs then RS else 0);
      data := data | BL;
      out := out + [data | EN];
      out := out + [data & !EN];
    }

    /** lcd_send_byte. */
    method SendByte(byte: bv8, rs: bool)
      modifies this
      ensures out == old(out) + ByteBytes(Write(byte, rs))
    {
      SendNibble(byte >> 4, rs);
      SendNibble(byte & 0x0F, rs);
    }

    /** lcd_write_char. */
    method WriteChar(c: char)
      modifies this
      ensures out == old(out) + ByteBytes(Write(CharByte(c), true))
    {
      SendByte(CharByte(c), true);
    }

    /** lcd_write_string. */
    method WriteString(str: seq<char>, line: int)
      modifies this
      ensures out == old(out) + Encode(WriteStringOps(str, line))
    {
      ghost var start := out;
      if line >= 0 && line < 4 {
        SendByte(LCD_SET_DDRAM | ROW_OFFSETS[line], false);
        EncodeOne(Write(LCD_SET_DDRAM | ROW_OFFSETS[line], false));
      }
      ghost var head := out;
      var col := WriteVisible(str);
      ghost var mid := out;
      PadFrom(col);
      Joined(head, str[..col], Repeat(' ', WIDTH - col), mid, out);
      Framed(start, Cursor(line), Row(str), head, out);
    }

    /** lcd_write_string's first loop: the characters before the terminator, at most 20. */
    method WriteVisible(str: seq<char>) returns (col: nat)
      modifies this
      ensures col == Visible(str, 0)
      ensures out == old(out) + Text(str[..col])
    {
      ghost var head := out;
      col := 0;
      while col < |str| && str[col] != '\0' && col < WIDTH
        invariant col <= Visible(str, 0) && Visible(str, col) == Visible(str, 0)
        invariant out == head + Text(str[..col])
        decreases WIDTH - col
      {
        WriteNext(str, col, head);
        col := col + 1;
      }
    }

    /** One step of WriteVisible: the character at `col` follows the ones before it. */
    method WriteNext(str: seq<char>, col: nat, ghost head: seq<bv8>)
      requires col < |str| && out == head + Text(str[..col])
      modifies this
      ensures out == head + Text(str[..col + 1])
    {
      ghost var before := out;
      WriteChar(str[col]);
      Typed(head, str[..col], str[col], before, out);
      assert str[..col + 1] == str[..col] + [str[col]];
    }

    /** Spaces from column `col` to the end of the row (the padding loops of lcd_write_string and lcd_display_bargraph). */
    method PadFrom(col: nat)
      requires col <= WIDTH
      modifies this
      ensures out == old(out) + Text(Repeat(' ', WIDTH - col))
    {
      ghost var head := out;
      ghost var cells: seq<char> := [];
      var i := col;
      while i < WIDTH
        invariant col <= i <= WIDTH
        invariant cells == Repeat(' ', i - col)
        invariant out == head + Text(cells)
      {
        ghost var before := out;
        WriteChar(' ');
        Typed(head, cells, ' ', before, out);
        RepeatSnoc(' ', i - col);
        cells := cells + [' '];
        i := i + 1;
      }
    }

    /** lcd_display_message: clear, then each present line centred on its row. */
    method DisplayMessage(line0: Option<string>, line1: Option<string>, line2: Option<string>, line3: Option<string>)
      modifies this
      ensures out == old(out) + Encode([Write(LCD_CLEAR, false)] + LinesOps([line0, line1, line2, line3], ROWS))
    {
      ghost var start := out;
      SendByte(LCD_CLEAR, false);
      EncodeOne(Write(LCD_CLEAR, false));
      var lines := [line0, line1, line2, line3];
      ghost var ops := [Write(LCD_CLEAR, false)];
      assert ops + LinesOps(lines, 0) == ops;
      for i := 0 to ROWS
        invariant ops == [Write(LCD_CLEAR, false)] + LinesOps(lines, i)
        invariant out == start + Encode(ops)
      {
        ghost var mid := out;
        ghost var more: seq<Write> := [];
        if lines[i].Some? {
          var buf := Centred(lines[i].value);
          more := WriteStringOps(buf, i);
          WriteString(buf, i);
        } else {
          assert out == mid + Encode(more);
        }
        MessageStep(lines, i, ops, more);
        Continued(start, ops, more, mid, out);
        ops := ops + more;
      }
    }

    /** lcd_display_bargraph. */
    method DisplayBargraph(value: int, row: int)
      modifies this
      ensures out == old(out) + Encode(BargraphOps(value, row))
    {
      ghost var start := out;
      var v := value;
      if v < 1 { v := 1; }
      if v > 100 { v := 100; }
      if !(row >= 0 && row < 4) {
        assert out + [] == out;
        return;
      }
      SendByte(LCD_SET_DDRAM | ROW_OFFSETS[row], false);
      EncodeOne(Write(LCD_SET_DDRAM | ROW_OFFSETS[row], false));
      ghost var head := out;
      var fullBlocks := v / 5;
      var partial := v % 5;
      BarCellsAre(value, v);
      FullCells(fullBlocks);
      ghost var cells := Repeat(FULL_CELL, fullBlocks);
      if fullBlocks < WIDTH && partial > 0 {
        ghost var before := out;
        WriteChar((partial - 1) as char);
        Typed(head, cells, (partial - 1) as char, before, out);
        cells := cells + [(partial - 1) as char];
        fullBlocks := fullBlocks + 1;
      }
      ghost var mid := out;
      PadFrom(fullBlocks);
      Joined(head, cells, Repeat(' ', WIDTH - fullBlocks), mid, out);
      Framed(start, Cursor(row), BarCells(value), head, out);
    }

    /** lcd_display_bargraph's first loop: `fullBlocks` full cells, at most 20. */
    method FullCells(fullBlocks: int)
      requires 0 <= fullBlocks <= WIDTH
      modifies this
      ensures out == old(out) + Text(Repeat(FULL_CELL, fullBlocks))
    {
      ghost var head := out;
      var i := 0;
      while i < fullBlocks && i < WIDTH
        invariant 0 <= i <= fullBlocks
        invariant out == head + Text(Repeat(FULL_CELL, i))
      {
        ghost var before := out;
        WriteChar(FULL_CELL);
        Typed(head, Repeat(FULL_CELL, i), FULL_CELL, before, out);
        RepeatSnoc(FULL_CELL, i);
        i := i + 1;
      }
    }
  }
}
