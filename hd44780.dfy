/**
 * What the two HD44780 drivers (Modules/hd44780_i2c.c and
 * Modules/hd44780_i2c_DMA.c) have in common: the PCF8574 backpack's 4-bit
 * encoding of one LCD byte, the controller's instruction bytes, the
 * DDRAM/CGRAM addresses, the display-control flags, and how Puts lays a
 * string out as a sequence of commands.
 */
module Hd44780 {
  /** eDataType: a byte is either character data (RS = 1) or an instruction (RS = 0). */
  datatype Kind = Data | Instruction

  /** One byte handed to the controller, with its register select. */
  datatype Command = Command(kind: Kind, byte: bv8)

  /** ePin: the PCF8574 outputs. D4-D7 are the upper nibble. */
  const RsPin: bv8 := 0x01
  const RwPin: bv8 := 0x02
  const EnPin: bv8 := 0x04
  const BacklightPin: bv8 := 0x08

  /** eCommand: the instruction codes. */
  const ClearDisplay: bv8 := 0x01
  const EntryModeSet: bv8 := 0x04
  const DisplayControl: bv8 := 0x08
  const CursorShift: bv8 := 0x10
  const FunctionSet: bv8 := 0x20
  const SetCgramAddr: bv8 := 0x40
  const SetDdramAddr: bv8 := 0x80

  /** The characters Puts treats as cursor moves. */
  const LineFeed: bv8 := 0x0A
  const CarriageReturn: bv8 := 0x0D

  /**
   * The LCD latches the data lines on the falling edge of EN: the high
   * nibble from the second byte of a frame, the low nibble from the fourth,
   * and the register select with the first nibble.
   */
  function Decode(frame: seq<bv8>): (c: Command)
    requires |frame| == 4
  {
    Command(if frame[1] & RsPin != 0 then Data else Instruction, (frame[1] & 0xF0) | (frame[3] >> 4))
  }

  /**
   * send() / loadCommandToDMAbuff(): the four PCF8574 bytes for one LCD
   * byte. EN rises with each nibble and falls in the following byte, RW is
   * always write, the backlight stays on, RS marks data; the LCD reads the
   * original command back.
   */
  function Encode(c: Command): (r: seq<bv8>)
    ensures |r| == 4 && Decode(r) == c
    ensures r[0] & EnPin != 0 && r[1] & EnPin == 0 && r[2] & EnPin != 0 && r[3] & EnPin == 0
    ensures forall k :: 0 <= k < 4 ==>
      r[k] & RwPin == 0 && r[k] & BacklightPin != 0 && (r[k] & RsPin != 0 <==> c.kind == Data)
  {
    var b0 := (EnPin | BacklightPin | (if c.kind == Data then RsPin else 0)) | (c.byte & 0xF0);
    var b2 := (b0 & 0x0F) | (c.byte << 4);
    [b0, b0 & !EnPin, b2, b2 & !EnPin]
  }

  /** The byte stream for a sequence of commands, frame after frame. */
  function Frames(cmds: seq<Command>): (r: seq<bv8>)
    ensures |r| == 4 * |cmds|
    decreases |cmds|
  {
    if |cmds| == 0 then [] else Frames(cmds[..|cmds| - 1]) + Encode(cmds[|cmds| - 1])
  }

  /** What the LCD reads from a stream of whole frames. */
  function DecodeFrames(stream: seq<bv8>): (cmds: seq<Command>)
    requires |stream| % 4 == 0
    ensures 4 * |cmds| == |stream|
    decreases |stream|
  {
    if |stream| == 0 then [] else DecodeFrames(stream[..|stream| - 4]) + [Decode(stream[|stream| - 4..])]
  }

  /** The LCD reads back exactly the commands whose frames were sent. */
  lemma {:induction false} FramesDecode(cmds: seq<Command>)
    ensures DecodeFrames(Frames(cmds)) == cmds
    decreases |cmds|
  {
    if |cmds| > 0 {
      var front := cmds[..|cmds| - 1];
      var s := Frames(cmds);
      assert s == Frames(front) + Encode(cmds[|cmds| - 1]);
      assert s[..|s| - 4] == Frames(front) && s[|s| - 4..] == Encode(cmds[|cmds| - 1]);
      FramesDecode(front);
      assert cmds == front + [cmds[|cmds| - 1]];
    }
  }

  /** The frames of a concatenation are the concatenated frames. */
  lemma {:induction false} FramesAppend(a: seq<Command>, b: seq<Command>)
    ensures Frames(a + b) == Frames(a) + Frames(b)
    decreases |b|
  {
    if |b| == 0 {
      assert a + b == a;
    } else {
      var front := b[..|b| - 1];
      assert (a + b)[..|a + b| - 1] == a + front;
      FramesAppend(a, front);
    }
  }

  /** A uint8_t of the driver: a column, a row or a dimension of the display. */
  type Uint8 = n: int | 0 <= n < 256

  /** A uint8_t incremented, as `currentX++` and `currentY + 1` store it: 255 wraps to 0. */
  function Inc(n: Uint8): Uint8
  {
    if n == 255 then 0 else n + 1
  }

  /** row_offsets: the DDRAM address of the first cell of each row of a 4-row display. */
  function RowOffset(row: Uint8): (offset: bv8)
    requires row < 4
  {
    if row == 0 then 0x00 else if row == 1 then 0x40 else if row == 2 then 0x14 else 0x54
  }

  /** The 20-column, 4-row display the user interface writes to. */
  const DisplayCols: Uint8 := 20
  const DisplayRows: Uint8 := 4

  /** The Set DDRAM address instruction for a cell, truncated to 8 bits as the source does. */
  function Address(col: Uint8, row: Uint8): (r: bv8)
    requires row < 4
    ensures r & SetDdramAddr == SetDdramAddr
  {
    SetDdramAddr | (col as bv8 + RowOffset(row))
  }

  /** On a 20x4 display every cell has its own DDRAM address. */
  lemma AddressesDistinct(col1: Uint8, row1: Uint8, col2: Uint8, row2: Uint8)
    requires col1 < DisplayCols && col2 < DisplayCols && row1 < DisplayRows && row2 < DisplayRows
    requires col1 != col2 || row1 != row2
    ensures Address(col1, row1) != Address(col2, row2)
  {
    assert Address(col1, row1) & 0x7F == col1 as bv8 + RowOffset(row1);
    assert Address(col2, row2) & 0x7F == col2 as bv8 + RowOffset(row2);
  }

  /** The cursor position kept in HD44780_State (currentX, currentY). */
  datatype Cursor = Cursor(x: Uint8, y: Uint8)

  /**
   * CursorSet(): a row or column beyond the display becomes 0; the cursor
   * moves there and the cell's DDRAM address is the command sent. The
   * address table has four rows, so the driver needs a display of at most
   * four rows.
   */
  function CursorSet(cols: Uint8, rows: Uint8, col: Uint8, row: Uint8): (r: (Cursor, Command))
    requires rows <= 4
    ensures col < cols ==> r.0.x == col
    ensures col >= cols ==> r.0.x == 0
    ensures row < rows ==> r.0.y == row
    ensures row >= rows ==> r.0.y == 0
    ensures r.0.y < 4 && r.1 == Command(Instruction, Address(r.0.x, r.0.y))
    ensures r.0.x <= cols && (0 < rows ==> r.0.y < rows)
  {
    var c := if col >= cols then 0 else col;
    var w := if row >= rows then 0 else row;
    (Cursor(c, w), Command(Instruction, Address(c, w)))
  }

  /** The progress of Puts through its string: cursor, commands so far, characters written. */
  datatype Progress = Progress(cursor: Cursor, cmds: seq<Command>, count: nat)

  /** Before each character of Puts: a cursor past the last column wraps to the start of the next row. */
  function Wrap(cols: Uint8, rows: Uint8, p: Progress): (q: Progress)
    requires rows <= 4
  {
    if p.cursor.x >= cols then
      var moved := CursorSet(cols, rows, 0, Inc(p.cursor.y));
      Progress(moved.0, p.cmds + [moved.1], p.count)
    else p
  }

  /** '\n' moves down a row, '\r' back to column 0; any other character is written and counted. */
  function Place(cols: Uint8, rows: Uint8, p: Progress, ch: bv8): (q: Progress)
    requires rows <= 4
  {
    if ch == LineFeed then
      var moved := CursorSet(cols, rows, p.cursor.x, Inc(p.cursor.y));
      Progress(moved.0, p.cmds + [moved.1], p.count)
    else if ch == CarriageReturn then
      var moved := CursorSet(cols, rows, 0, p.cursor.y);
      Progress(moved.0, p.cmds + [moved.1], p.count)
    else
      Progress(Cursor(Inc(p.cursor.x), p.cursor.y), p.cmds + [Command(Data, ch)], p.count + 1)
  }

  /** One character of Puts. */
  function PutsChar(cols: Uint8, rows: Uint8, p: Progress, ch: bv8): (q: Progress)
    requires rows <= 4
  {
    Place(cols, rows, Wrap(cols, rows, p), ch)
  }

  /** A character's commands and count do not depend on what came before it, only its cursor does. */
  lemma PutsCharFrom(cols: Uint8, rows: Uint8, p: Progress, ch: bv8)
    requires rows <= 4
    ensures var r := PutsChar(cols, rows, Progress(p.cursor, [], 0), ch);
      PutsChar(cols, rows, p, ch) == Progress(r.cursor, p.cmds + r.cmds, p.count + r.count)
  {
    var w := Wrap(cols, rows, p);
    var w0 := Wrap(cols, rows, Progress(p.cursor, [], 0));
    assert w == Progress(w0.cursor, p.cmds + w0.cmds, p.count);
    var r := Place(cols, rows, w, ch);
    var r0 := Place(cols, rows, w0, ch);
    assert r.cmds == p.cmds + r0.cmds;
  }

  /** Puts' loop over the characters of a string. */
  function PutsFrom(cols: Uint8, rows: Uint8, p: Progress, str: seq<bv8>): (q: Progress)
    requires rows <= 4
    decreases |str|
  {
    if |str| == 0 then p else PutsChar(cols, rows, PutsFrom(cols, rows, p, str[..|str| - 1]), str[|str| - 1])
  }

  /** Commands sent before a string do not change how it is laid out. */
  lemma {:induction false} PutsFromPrefix(cols: Uint8, rows: Uint8, p: Progress, pre: seq<Command>, str: seq<bv8>)
    requires rows <= 4
    ensures var q := PutsFrom(cols, rows, p, str);
      PutsFrom(cols, rows, Progress(p.cursor, pre + p.cmds, p.count), str) == Progress(q.cursor, pre + q.cmds, q.count)
    decreases |str|
  {
    if |str| > 0 {
      var front := str[..|str| - 1];
      PutsFromPrefix(cols, rows, p, pre, front);
      PutsCharPrefix(cols, rows, PutsFrom(cols, rows, p, front), pre, str[|str| - 1]);
    }
  }

  lemma PutsCharPrefix(cols: Uint8, rows: Uint8, p: Progress, pre: seq<Command>, ch: bv8)
    requires rows <= 4
    ensures var q := PutsChar(cols, rows, p, ch);
      PutsChar(cols, rows, Progress(p.cursor, pre + p.cmds, p.count), ch) == Progress(q.cursor, pre + q.cmds, q.count)
  {
    var r := PutsChar(cols, rows, Progress(p.cursor, [], 0), ch);
    PutsCharFrom(cols, rows, p, ch);
    PutsCharFrom(cols, rows, Progress(p.cursor, pre + p.cmds, p.count), ch);
    assert (pre + p.cmds) + r.cmds == pre + (p.cmds + r.cmds);
  }

  /** HD44780_Puts(): the cursor is set to (x, y), then the string is laid out. */
  function Puts(cols: Uint8, rows: Uint8, x: Uint8, y: Uint8, str: seq<bv8>): (q: Progress)
    requires rows <= 4
  {
    var start := CursorSet(cols, rows, x, y);
    PutsFrom(cols, rows, Progress(start.0, [start.1], 0), str)
  }

  /** Puts writes every character other than '\n' and '\r'. */
  predicate Printing(ch: bv8)
  {
    ch != LineFeed && ch != CarriageReturn
  }

  /** The characters of a string other than '\n' and '\r', in order. */
  function Printable(str: seq<bv8>): (r: seq<bv8>)
    ensures |r| <= |str|
    decreases |str|
  {
    if |str| == 0 then []
    else Printable(str[..|str| - 1]) + (if !Printing(str[|str| - 1]) then [] else [str[|str| - 1]])
  }

  /** The bytes of the data commands, in order. */
  function DataBytes(cmds: seq<Command>): (r: seq<bv8>)
    ensures |r| <= |cmds|
    decreases |cmds|
  {
    if |cmds| == 0 then []
    else DataBytes(cmds[..|cmds| - 1]) + (if cmds[|cmds| - 1].kind == Data then [cmds[|cmds| - 1].byte] else [])
  }

  lemma {:induction false} DataBytesAppend(a: seq<Command>, b: seq<Command>)
    ensures DataBytes(a + b) == DataBytes(a) + DataBytes(b)
    decreases |b|
  {
    if |b| == 0 {
      assert a + b == a;
    } else {
      var front := b[..|b| - 1];
      assert (a + b)[..|a + b| - 1] == a + front;
      DataBytesAppend(a, front);
    }
  }

  /** Every instruction Puts sends is a Set DDRAM address. */
  predicate OnlyAddresses(cmds: seq<Command>)
  {
    forall k :: 0 <= k < |cmds| && cmds[k].kind == Instruction ==> cmds[k].byte & SetDdramAddr == SetDdramAddr
  }

  /** The cursor stays on the display, or one column past the last one. */
  predicate OnDisplay(cols: Uint8, rows: Uint8, c: Cursor)
  {
    c.y < rows && c.x <= cols
  }

  lemma OnlyAddressesAppend(a: seq<Command>, b: seq<Command>)
    requires OnlyAddresses(a) && OnlyAddresses(b)
    ensures OnlyAddresses(a + b)
  {
    forall k | 0 <= k < |a + b| && (a + b)[k].kind == Instruction
      ensures (a + b)[k].byte & SetDdramAddr == SetDdramAddr
    {
      if k >= |a| {
        assert (a + b)[k] == b[k - |a|];
      }
    }
  }

  /** A wrap adds at most a cursor move and brings the cursor back onto the display. */
  lemma WrapFacts(cols: Uint8, rows: Uint8, p: Progress) returns (added: seq<Command>)
    requires 0 < cols && 0 < rows <= 4 && OnDisplay(cols, rows, p.cursor)
    ensures var q := Wrap(cols, rows, p);
      && q.cmds == p.cmds + added && DataBytes(added) == [] && OnlyAddresses(added)
      && q.count == p.count && q.cursor.x < cols && q.cursor.y < rows
  {
    var q := Wrap(cols, rows, p);
    added := q.cmds[|p.cmds|..];
    assert q.cmds == p.cmds + added;
    if |added| == 1 {
      assert added[..0] == [];
    }
  }

  /** Placing a character adds one command: the character itself exactly when it is printable. */
  lemma PlaceFacts(cols: Uint8, rows: Uint8, p: Progress, ch: bv8) returns (c: Command)
    requires 0 < rows <= 4 && p.cursor.x < cols && p.cursor.y < rows
    ensures Place(cols, rows, p, ch).cmds == p.cmds + [c]
    ensures c.kind == Data <==> Printing(ch)
    ensures c.kind == Data ==> c.byte == ch
    ensures c.kind == Instruction ==> c.byte & SetDdramAddr == SetDdramAddr
    ensures Place(cols, rows, p, ch).count == p.count + (if c.kind == Data then 1 else 0)
    ensures OnDisplay(cols, rows, Place(cols, rows, p, ch).cursor)
  {
    if ch == LineFeed || ch == CarriageReturn {
      c := PlaceMove(cols, rows, p, ch);
    } else {
      c := PlacePrint(cols, rows, p, ch);
    }
  }

  lemma PlacePrint(cols: Uint8, rows: Uint8, p: Progress, ch: bv8) returns (c: Command)
    requires rows <= 4 && Printing(ch) && p.cursor.x < cols && p.cursor.y < rows
    ensures var q := Place(cols, rows, p, ch);
      && c == Command(Data, ch) && q.cmds == p.cmds + [c]
      && q.count == p.count + 1 && OnDisplay(cols, rows, q.cursor)
  {
    c := Command(Data, ch);
    assert Place(cols, rows, p, ch).cursor == Cursor(p.cursor.x + 1, p.cursor.y);
  }

  lemma PlaceMove(cols: Uint8, rows: Uint8, p: Progress, ch: bv8) returns (c: Command)
    requires 0 < rows <= 4 && (ch == LineFeed || ch == CarriageReturn)
    ensures var q := Place(cols, rows, p, ch);
      && q.cmds == p.cmds + [c] && c.kind == Instruction && c.byte & SetDdramAddr == SetDdramAddr
      && q.count == p.count && OnDisplay(cols, rows, q.cursor)
  {
    var moved := if ch == LineFeed then CursorSet(cols, rows, p.cursor.x, Inc(p.cursor.y))
                 else CursorSet(cols, rows, 0, p.cursor.y);
    c := moved.1;
    assert Place(cols, rows, p, ch) == Progress(moved.0, p.cmds + [c], p.count);
  }

  /** The commands one character adds, and what they do to the count and the cursor. */
  lemma PutsCharFacts(cols: Uint8, rows: Uint8, p: Progress, ch: bv8) returns (added: seq<Command>)
    requires 0 < cols && 0 < rows <= 4 && OnDisplay(cols, rows, p.cursor)
    ensures var q := PutsChar(cols, rows, p, ch);
      && q.cmds == p.cmds + added
      && DataBytes(added) == (if !Printing(ch) then [] else [ch])
      && OnlyAddresses(added)
      && q.count == p.count + (if !Printing(ch) then 0 else 1)
      && OnDisplay(cols, rows, q.cursor)
  {
    var pre := WrapFacts(cols, rows, p);
    var c := PlaceFacts(cols, rows, Wrap(cols, rows, p), ch);
    added := pre + [c];
    DataBytesAppend(pre, [c]);
    assert [c][..0] == [];
    OnlyAddressesAppend(pre, [c]);
  }

  /**
   * Where one character lands: a printable character written with the cursor
   * inside the row goes to the next column; with the cursor past the last
   * column, a move to column 0 of the next row (row 0 after the last) comes
   * first and the character is written there.
   */
  lemma PutsCharPlacement(cols: Uint8, rows: Uint8, p: Progress, ch: bv8)
    requires 0 < cols && 0 < rows <= 4 && OnDisplay(cols, rows, p.cursor) && Printing(ch)
    ensures var q := PutsChar(cols, rows, p, ch);
      var row: Uint8 := if p.cursor.y + 1 < rows then p.cursor.y + 1 else 0;
      && (p.cursor.x < cols ==>
            q.cmds == p.cmds + [Command(Data, ch)] && q.cursor == Cursor(p.cursor.x + 1, p.cursor.y))
      && (p.cursor.x >= cols ==>
            q.cmds == p.cmds + [Command(Instruction, Address(0, row)), Command(Data, ch)] && q.cursor == Cursor(1, row))
  {
  }

  /**
   * What Puts' loop keeps: the count is the number of printable characters,
   * the data commands are those characters in order, the instructions are
   * cursor moves, and the cursor stays on the display.
   */
  lemma {:induction false} PutsFromFacts(cols: Uint8, rows: Uint8, p: Progress, str: seq<bv8>)
    requires 0 < cols && 0 < rows <= 4 && OnDisplay(cols, rows, p.cursor) && OnlyAddresses(p.cmds)
    ensures var q := PutsFrom(cols, rows, p, str);
      && q.count == p.count + |Printable(str)|
      && DataBytes(q.cmds) == DataBytes(p.cmds) + Printable(str)
      && OnlyAddresses(q.cmds)
      && OnDisplay(cols, rows, q.cursor)
    decreases |str|
  {
    if |str| > 0 {
      var front := str[..|str| - 1];
      PutsFromFacts(cols, rows, p, front);
      var m := PutsFrom(cols, rows, p, front);
      var added := PutsCharFacts(cols, rows, m, str[|str| - 1]);
      assert Printable(str) == Printable(front) + DataBytes(added);
      DataBytesAppend(m.cmds, added);
      OnlyAddressesAppend(m.cmds, added);
    }
  }

  /**
   * HD44780_Puts() returns the number of characters other than '\n' and
   * '\r', writes exactly those characters in order, sends no instruction
   * other than cursor moves, and leaves the cursor on the display.
   */
  lemma PutsFacts(cols: Uint8, rows: Uint8, x: Uint8, y: Uint8, str: seq<bv8>)
    requires 0 < cols && 0 < rows <= 4
    ensures var q := Puts(cols, rows, x, y, str);
      && q.count == |Printable(str)|
      && DataBytes(q.cmds) == Printable(str)
      && OnlyAddresses(q.cmds)
      && OnDisplay(cols, rows, q.cursor)
  {
    var start := CursorSet(cols, rows, x, y);
    assert DataBytes([start.1]) == [] by {
      assert [start.1][..0] == [];
    }
    PutsFromFacts(cols, rows, Progress(start.0, [start.1], 0), str);
  }

  /** eDisplayControl: the three flags of the Display Control instruction. */
  datatype ControlOp = DisplayOn | DisplayOff | CursorOn | CursorOff | BlinkOn | BlinkOff

  function ControlBit(op: ControlOp): (b: bv8)
  {
    match op
    case DisplayOn | DisplayOff => 0x04
    case CursorOn | CursorOff => 0x02
    case BlinkOn | BlinkOff => 0x01
  }

  predicate Sets(op: ControlOp)
  {
    op.DisplayOn? || op.CursorOn? || op.BlinkOn?
  }

  /** HD44780_DisplayOn() and the other setters: set or clear one flag and keep the rest. */
  function ApplyControl(flags: bv8, op: ControlOp): (r: bv8)
    ensures r & ControlBit(op) == (if Sets(op) then ControlBit(op) else 0)
    ensures r & !ControlBit(op) == flags & !ControlBit(op)
  {
    if Sets(op) then flags | ControlBit(op) else flags & !ControlBit(op)
  }

  /** Setters of different flags commute, and repeating a setter changes nothing. */
  lemma ControlIndependent(flags: bv8, op1: ControlOp, op2: ControlOp)
    ensures ControlBit(op1) != ControlBit(op2) ==>
      ApplyControl(ApplyControl(flags, op1), op2) == ApplyControl(ApplyControl(flags, op2), op1)
    ensures ApplyControl(ApplyControl(flags, op1), op1) == ApplyControl(flags, op1)
  {
  }

  /** The Display Control instruction carrying the current flags. */
  function ControlCommand(flags: bv8): (c: Command)
    ensures c.kind == Instruction && c.byte & DisplayControl == DisplayControl
    ensures c.byte & 0x07 == flags & 0x07
  {
    Command(Instruction, DisplayControl | flags)
  }

  /** eCursorShift: HD44780_ScrollLeft() and HD44780_ScrollRight(). */
  datatype Direction = Left | Right

  /** A display shift by one position, to the right exactly when asked. */
  function ScrollCommand(d: Direction): (c: Command)
    ensures c.kind == Instruction && c.byte & 0xF8 == CursorShift | 0x08
    ensures c.byte & 0x04 != 0 <==> d == Right
  {
    Command(Instruction, CursorShift + 0x08 + (if d == Right then 0x04 else 0x00))
  }

  /**
   * HD44780_CreateChar(): the location is masked to the eight CGRAM
   * characters, whose address is location * 8, followed by the eight rows.
   */
  function CreateChar(location: bv8, rows: seq<bv8>): (cmds: seq<Command>)
    requires |rows| >= 8
  {
    [CgramAddress(location)] + DataCommands(rows[..8])
  }

  /** Set CGRAM Address for a custom character: the location masked to 0-7, times eight. */
  function CgramAddress(location: bv8): Command
  {
    Command(Instruction, SetCgramAddr | ((location & 0x07) << 3))
  }

  /**
   * The commands of CreateChar: a Set CGRAM Address whose character field
   * is the location's low three bits (row field zero), then the eight rows.
   */
  lemma CreateCharLayout(location: bv8, rows: seq<bv8>)
    requires |rows| >= 8
    ensures var cmds := CreateChar(location, rows);
      && |cmds| == 9 && cmds[0].kind == Instruction
      && cmds[0].byte & 0xC0 == SetCgramAddr && cmds[0].byte & 0x07 == 0
      && (cmds[0].byte >> 3) & 0x07 == location & 0x07
      && forall k :: 1 <= k < 9 ==> cmds[k] == Command(Data, rows[k - 1])
  {
  }

  /** One data write per byte. */
  function DataCommands(bytes: seq<bv8>): (cmds: seq<Command>)
    ensures |cmds| == |bytes| && forall k :: 0 <= k < |bytes| ==> cmds[k] == Command(Data, bytes[k])
  {
    seq(|bytes|, k requires 0 <= k < |bytes| => Command(Data, bytes[k]))
  }

  /** HD44780_PutCustom(): moves the cursor and writes the custom character. */
  function PutCustom(cols: Uint8, rows: Uint8, x: Uint8, y: Uint8, location: bv8): (r: (Cursor, seq<Command>))
    requires rows <= 4
    ensures |r.1| == 2 && r.1[0].kind == Instruction && r.1[1] == Command(Data, location)
  {
    var start := CursorSet(cols, rows, x, y);
    (start.0, [start.1, Command(Data, location)])
  }

  /** The Function Set flags for a display of `rows` rows: 4-bit, 5x8 dots, two lines when rows > 1. */
  function FunctionFlags(rows: Uint8): (f: bv8)
    ensures f & 0x10 == 0 && f & 0x04 == 0
    ensures f & 0x08 != 0 <==> rows > 1
  {
    0x00 | (if rows > 1 then 0x08 else 0x00)
  }

  /** Figure 24 of the HD44780 datasheet: the sequence that returns the interface to 4 bits. */
  const FourBitReset: seq<Command> :=
    [Command(Instruction, 0x03), Command(Instruction, 0x03), Command(Instruction, 0x03), Command(Instruction, 0x02)]

  /** Entry mode: left to right, no display shift. */
  const EntryLeft: bv8 := 0x02
}
