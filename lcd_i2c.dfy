/**
 * The interrupt-driven LCD driver of Modules/hd44780_i2c.c: send() encodes
 * each LCD byte as four PCF8574 bytes and puts them into a ring buffer,
 * which the I2C transmit-complete interrupt empties one byte at a time.
 * The bytes handed to the I2C peripheral are recorded in `wire`.
 */
module LcdI2c {
  import opened Hd44780

  /** HD44780_BUFF_SIZE: the ring's capacity (the array has one spare byte). */
  const Size: nat := 1792
  /** buffAdd() drops a byte when fewer than this many bytes are free. */
  const Margin: nat := 10

  /** An index advanced by one, wrapping at the end of the ring. */
  function Next(i: nat): (j: nat)
    requires i < Size
    ensures j < Size && (j == 0 <==> i == Size - 1)
  {
    if i + 1 == Size then 0 else i + 1
  }

  /** The bytes waiting in the ring from `tail` (oldest) up to `head`. */
  function Queued(buff: seq<bv8>, head: nat, tail: nat): (r: seq<bv8>)
    requires |buff| == Size + 1 && head < Size && tail < Size
    ensures |r| < Size && (r == [] <==> head == tail)
  {
    if head >= tail then buff[tail..head] else buff[tail..Size] + buff[..head]
  }

  /** buffAdd()'s free-space computation. */
  function Free(head: nat, tail: nat): (f: nat)
    requires head < Size && tail < Size
  {
    if head >= tail then Size - head + tail else tail - head
  }

  /** The free space is the capacity minus what is waiting. */
  lemma FreeIsRoom(buff: seq<bv8>, head: nat, tail: nat)
    requires |buff| == Size + 1 && head < Size && tail < Size
    ensures Free(head, tail) == Size - |Queued(buff, head, tail)|
    ensures 0 < Free(head, tail) <= Size
  {
  }

  /** Storing at `head` and advancing it appends the byte, as long as a slot stays free. */
  lemma QueuedPush(buff: seq<bv8>, head: nat, tail: nat, b: bv8)
    requires |buff| == Size + 1 && head < Size && tail < Size && Free(head, tail) >= 2
    ensures Queued(buff[head := b], Next(head), tail) == Queued(buff, head, tail) + [b]
  {
    var after := buff[head := b];
    if head >= tail && head + 1 == Size {
      assert after[tail..Size] == buff[tail..head] + [b];
      assert after[..0] == [];
    } else if head >= tail {
      assert after[tail..head + 1] == buff[tail..head] + [b];
    } else {
      assert after[tail..Size] == buff[tail..Size];
      assert after[..head + 1] == buff[..head] + [b];
    }
  }

  /** Advancing `tail` removes the oldest byte, the one at `tail`. */
  lemma QueuedPop(buff: seq<bv8>, head: nat, tail: nat)
    requires |buff| == Size + 1 && head < Size && tail < Size && head != tail
    ensures Queued(buff, head, tail)[0] == buff[tail]
    ensures Queued(buff, head, Next(tail)) == Queued(buff, head, tail)[1..]
  {
    if head < tail && tail + 1 == Size {
      assert buff[tail..Size] == [buff[tail]];
    }
  }

  /** Moving the first waiting byte to the sent ones keeps their concatenation. */
  lemma MoveFirst(sent: seq<bv8>, waiting: seq<bv8>)
    requires waiting != []
    ensures (sent + [waiting[0]]) + waiting[1..] == sent + waiting
  {
    assert waiting == [waiting[0]] + waiting[1..];
  }

  /** A byte read back from buffGet()'s int result is the byte stored. */
  lemma ByteRoundTrip(b: bv8)
    ensures (b as int) as bv8 == b
  {
  }

  /**
   * How many of the four bytes of one send() buffAdd() keeps when `free`
   * bytes are free: the margin is checked byte by byte, so near a full ring
   * only the first one, two or three bytes of a frame go in.
   */
  function Stored(free: nat): (k: nat)
    ensures k <= 4
    ensures k == 0 <==> free < Margin
    ensures k == 4 <==> free >= Margin + 3
  {
    if free < Margin then 0 else if free - Margin + 1 < 4 then free - Margin + 1 else 4
  }

  /**
   * The bytes successive buffAdd() calls keep of the first `k` bytes of a
   * frame, starting with `len` bytes waiting: each is kept exactly when
   * Margin bytes are free at its turn.
   */
  function Fill(len: nat, frame: seq<bv8>, k: nat): (r: seq<bv8>)
    requires k <= |frame|
    ensures |r| <= k
  {
    if k == 0 then []
    else
      var kept := Fill(len, frame, k - 1);
      kept + (if Size - (len + |kept|) >= Margin then [frame[k - 1]] else [])
  }

  /** Of a four-byte frame, buffAdd() keeps the first Stored(free) bytes. */
  lemma FillFrame(len: nat, frame: seq<bv8>)
    requires |frame| == 4 && len <= Size
    ensures Fill(len, frame, 4) == frame[..Stored(Size - len)]
  {
    var n := Stored(Size - len);
    assert frame[..1] == frame[..0] + [frame[0]] && frame[..2] == frame[..1] + [frame[1]];
    assert frame[..3] == frame[..2] + [frame[2]] && frame[..4] == frame[..3] + [frame[3]];
    assert Fill(len, frame, 0) == frame[..0];
    assert Fill(len, frame, 1) == frame[..if n < 1 then n else 1];
    assert Fill(len, frame, 2) == frame[..if n < 2 then n else 2];
    assert Fill(len, frame, 3) == frame[..if n < 3 then n else 3];
  }

  /** HD44780_dataBuff: the ring, its indices and the idle flag. */
  class Queue {
    /** transmitBuff. */
    const buff: array<bv8>
    /** The producer's index. */
    var head: nat
    /** The consumer's index. */
    var tail: nat
    /** flag_idle: no transmission is under way. */
    var idle: bool
    /** The bytes given to HAL_I2C_Master_Transmit_IT, in order. */
    var wire: seq<bv8>
    /** The bytes waiting in the ring, oldest first. */
    ghost var contents: seq<bv8>
    /** Every byte the ring accepted. */
    ghost var accepted: seq<bv8>
    /** Every command send() was asked for. */
    ghost var requested: seq<Command>
    /** The commands whose whole frame went into the ring. */
    ghost var framed: seq<Command>

    /** The indices are in the ring and `contents` is what lies between them. */
    ghost predicate Ring()
      reads this, buff
    {
      buff.Length == Size + 1 && head < Size && tail < Size && contents == Queued(buff[..], head, tail)
    }

    /** Nothing is lost: the bytes sent and those waiting are the bytes accepted. */
    ghost predicate Valid()
      reads this, buff
    {
      Ring() && wire + contents == accepted
    }

    /** The accepted bytes are whole frames of the commands recorded as framed. */
    ghost predicate Whole()
      reads this
    {
      accepted == Frames(framed)
    }

    /** HD44780_Init()'s zeroed buffer, idle. */
    constructor ()
      ensures Valid() && Whole() && idle && contents == []
      ensures wire == [] && requested == [] && framed == [] && fresh(buff)
    {
      buff := new bv8[Size + 1](_ => 0);
      head, tail := 0, 0;
      idle := true;
      wire, contents, accepted, requested, framed := [], [], [], [], [];
    }

    /**
     * buffAdd(): with at least Margin bytes free the byte is appended and
     * the ring is then not empty; otherwise it is dropped.
     */
    method Add(b: bv8)
      requires Valid()
      modifies this`head, this`contents, this`accepted, buff
      ensures Valid()
      ensures Size - old(|contents|) >= Margin ==>
        contents == old(contents) + [b] && accepted == old(accepted) + [b] && head != tail
      ensures Size - old(|contents|) < Margin ==> contents == old(contents) && accepted == old(accepted)
    {
      FreeIsRoom(buff[..], head, tail);
      var free: nat;
      if head >= tail {
        free := Size - head + tail;
      } else {
        free := tail - head;
      }
      if free >= Margin {
        QueuedPush(buff[..], head, tail, b);
        buff[head] := b;
        head := head + 1;
        if head == Size {
          head := 0;
        }
        contents := contents + [b];
        accepted := accepted + [b];
      }
    }

    /**
     * buffGet(): -1 from an empty ring, which is left as it is; otherwise
     * the oldest byte, which leaves the ring.
     */
    method Get() returns (data: int)
      requires Ring()
      modifies this`tail, this`contents
      ensures Ring()
      ensures old(contents) == [] ==> data == -1 && tail == old(tail) && contents == []
      ensures old(contents) != [] ==> data == old(contents)[0] as int && contents == old(contents)[1..]
    {
      if tail == head {
        return -1;
      }
      QueuedPop(buff[..], head, tail);
      data := buff[tail] as int;
      tail := tail + 1;
      if tail == Size {
        tail := 0;
      }
      contents := contents[1..];
    }

    /**
     * HAL_I2C_MasterTxCpltCallback(): the next byte is transmitted, or, with
     * none left, the driver becomes idle.
     */
    method TxComplete()
      requires Valid()
      modifies this`tail, this`contents, this`wire, this`idle
      ensures Valid()
      ensures old(contents) == [] ==> idle && wire == old(wire) && contents == []
      ensures old(contents) != [] ==>
        && wire == old(wire) + [old(contents)[0]] && contents == old(contents)[1..] && idle == old(idle)
    {
      var status := Get();
      if status < 0 {
        idle := true;
      } else {
        ByteRoundTrip(old(contents)[0]);
        MoveFirst(wire, old(contents));
        wire := wire + [status as bv8];
      }
    }

    /** The four buffAdd() calls of send(): the first Stored(free) bytes of the frame go in. */
    method AddFrame(frame: seq<bv8>)
      requires Valid() && |frame| == 4
      modifies this`head, this`contents, this`accepted, buff
      ensures Valid()
      ensures contents == old(contents) + frame[..Stored(Size - old(|contents|))]
      ensures accepted == old(accepted) + frame[..Stored(Size - old(|contents|))]
    {
      ghost var c0 := contents;
      ghost var a0 := accepted;
      FillFrame(|c0|, frame);
      AddNext(frame, 0, c0, a0);
      AddNext(frame, 1, c0, a0);
      AddNext(frame, 2, c0, a0);
      AddNext(frame, 3, c0, a0);
    }

    /** The buffAdd() of the k-th byte of a frame, after the first k. */
    method AddNext(frame: seq<bv8>, k: nat, ghost c0: seq<bv8>, ghost a0: seq<bv8>)
      requires Valid() && k < |frame|
      requires contents == c0 + Fill(|c0|, frame, k) && accepted == a0 + Fill(|c0|, frame, k)
      modifies this`head, this`contents, this`accepted, buff
      ensures Valid()
      ensures contents == c0 + Fill(|c0|, frame, k + 1) && accepted == a0 + Fill(|c0|, frame, k + 1)
    {
      ghost var kept := Fill(|c0|, frame, k);
      assert Fill(|c0|, frame, k + 1) == kept + (if Size - (|c0| + |kept|) >= Margin then [frame[k]] else []);
      assert |contents| == |c0| + |kept|;
      Add(frame[k]);
    }

    /**
     * The end of send(): an idle driver is started by calling the completion
     * callback directly, and is busy afterwards.
     */
    method Kick()
      requires Valid()
      modifies this`tail, this`contents, this`wire, this`idle
      ensures Valid() && !idle
      ensures !old(idle) ==> wire == old(wire) && contents == old(contents)
      ensures old(idle) && old(contents) != [] ==> wire == old(wire) + [old(contents)[0]] && contents == old(contents)[1..]
      ensures old(idle) && old(contents) == [] ==> wire == old(wire)
    {
      if idle {
        TxComplete();
        idle := false;
      }
    }

    /**
     * send() as written: the four bytes go through buffAdd() one by one, so
     * only the first Stored(free) of them are kept; an idle driver is then
     * started, and it is busy afterwards.
     */
    method Send(c: Command)
      requires Valid()
      modifies this, buff
      ensures Valid() && !idle
      ensures requested == old(requested) + [c] && framed == old(framed)
      ensures accepted == old(accepted) + Encode(c)[..Stored(Size - old(|contents|))]
      ensures !old(idle) ==> wire == old(wire)
    {
      AddFrame(Encode(c));
      requested := requested + [c];
      Kick();
    }

    /**
     * A send() that keeps frames whole: the frame goes in only when all four
     * bytes pass the margin, and is otherwise dropped as a unit.
     */
    method SendWhole(c: Command)
      requires Valid()
      modifies this, buff
      ensures Valid() && !idle
      ensures requested == old(requested) + [c]
      ensures Size - old(|contents|) >= Margin + 3 ==>
        accepted == old(accepted) + Encode(c) && framed == old(framed) + [c]
      ensures Size - old(|contents|) < Margin + 3 ==> accepted == old(accepted) && framed == old(framed)
      ensures old(Whole()) ==> Whole()
      ensures !old(idle) ==> wire == old(wire)
      ensures old(idle) && old(contents) == [] ==> wire == old(wire) + [Encode(c)[0]] && contents == Encode(c)[1..]
    {
      AddWhole(c);
      requested := requested + [c];
      Kick();
    }

    /** The frame of `c` goes into the ring when all four bytes pass the margin, and is dropped otherwise. */
    method AddWhole(c: Command)
      requires Valid()
      modifies this`head, this`contents, this`accepted, this`framed, buff
      ensures Valid()
      ensures Size - old(|contents|) >= Margin + 3 ==>
        && accepted == old(accepted) + Encode(c) && framed == old(framed) + [c]
        && contents == old(contents) + Encode(c)
      ensures Size - old(|contents|) < Margin + 3 ==>
        accepted == old(accepted) && framed == old(framed) && contents == old(contents)
      ensures old(Whole()) ==> Whole()
    {
      FreeIsRoom(buff[..], head, tail);
      var free := if head >= tail then Size - head + tail else tail - head;
      if free >= Margin + 3 {
        AddFrame(Encode(c));
        assert (framed + [c])[..|framed|] == framed;
        framed := framed + [c];
      }
    }
    /** The whole-frame send() as HD44780_State's operations see it: one more command requested. */
    method Post(c: Command)
      requires Valid()
      modifies this, buff
      ensures Valid() && requested == old(requested) + [c] && !idle
    {
      SendWhole(c);
    }
  }

  /**
   * The as-written send() splits a frame. The LCD latches a nibble when EN
   * falls. With Margin + 1 or Margin + 2 bytes free, a stream of whole
   * frames gets the first two or three bytes of the next frame: EN rises
   * and falls once, so the LCD latches the upper nibble of a command whose
   * lower nibble never comes, and pairs every later nibble with the wrong
   * partner. (With exactly Margin bytes free only the rising edge goes in,
   * and the command is lost without a stray latch.)
   */
  lemma SendSplitsFrame(stream: seq<bv8>, c: Command)
    requires |stream| % 4 == 0
    ensures Stored(Margin) == 1 && Stored(Margin + 1) == 2 && Stored(Margin + 2) == 3
    ensures var kept := Encode(c)[..Stored(Margin + 1)];
      kept[0] & EnPin != 0 && kept[1] & EnPin == 0 && |stream + kept| % 4 == 2
    ensures var kept := Encode(c)[..Stored(Margin + 2)];
      kept[0] & EnPin != 0 && kept[1] & EnPin == 0 && kept[2] & EnPin != 0 && |stream + kept| % 4 == 3
  {
  }

  /** What the LCD reads back from the bytes of a driver using whole-frame sends. */
  lemma WholeDecodes(wire: seq<bv8>, waiting: seq<bv8>, framed: seq<Command>)
    requires wire + waiting == Frames(framed)
    ensures |wire + waiting| % 4 == 0 && DecodeFrames(wire + waiting) == framed
  {
    FramesDecode(framed);
  }

  /** The commands HD44780_Init() sends for a display of `rows` rows. */
  function InitCommands(rows: Uint8): (cmds: seq<Command>)
  {
    FourBitReset + SetupCommands(rows)
  }

  /** The commands of HD44780_Init() after the 4-bit reset. */
  function SetupCommands(rows: Uint8): (cmds: seq<Command>)
  {
    [Command(Instruction, FunctionSet | FunctionFlags(rows)), ControlCommand(0x04),
     Command(Instruction, ClearDisplay), Command(Instruction, EntryModeSet | EntryLeft)]
  }

  /** HD44780_State together with the ring it sends through. */
  class Display {
    const q: Queue
    /** HD44780_State.DisplayControl, FunctionSet, EntryMode. */
    var displayControl: bv8
    var functionSet: bv8
    var entryMode: bv8
    /** HD44780_State.Rows and Cols. */
    const rows: Uint8
    const cols: Uint8
    /** HD44780_State.currentX and currentY. */
    var cursor: Cursor

    ghost predicate Valid()
      reads this, q, q.buff
    {
      q.Valid() && rows <= 4
    }

    /**
     * HD44780_Init(cols, rows): the 4-bit reset sequence, Function Set for
     * the number of lines, display on, clear, and left-to-right entry.
     */
    constructor Init(cols: Uint8, rows: Uint8)
      requires rows <= 4
      ensures Valid() && this.cols == cols && this.rows == rows && cursor == Cursor(0, 0)
      ensures functionSet == FunctionFlags(rows) && displayControl == 0x04 && entryMode == EntryLeft
      ensures q.requested == InitCommands(rows)
      ensures fresh(q) && fresh(q.buff)
    {
      q := new Queue();
      displayControl, functionSet, entryMode := 0, 0, 0;
      this.rows, this.cols := rows, cols;
      cursor := Cursor(0, 0);
      new;
      Reset();
      Configure();
    }

    /** The rest of HD44780_Init(): Function Set, display on, clear, and the entry mode. */
    method Configure()
      requires Valid() && displayControl == 0 && functionSet == 0 && entryMode == 0
      modifies this`functionSet, this`displayControl, this`entryMode, q, q.buff
      ensures Valid()
      ensures functionSet == FunctionFlags(rows) && displayControl == 0x04 && entryMode == EntryLeft
      ensures q.requested == old(q.requested) + SetupCommands(rows)
    {
      SetFunction();
      Control(DisplayOn);
      Clear();
      entryMode := EntryLeft;
      q.Post(Command(Instruction, EntryModeSet | entryMode));
      assert q.requested == old(q.requested) + SetupCommands(rows);
    }

    /** The Function Set of HD44780_Init(): 4-bit, 5x8 dots, two lines when there is more than one row. */
    method SetFunction()
      requires Valid() && functionSet == 0
      modifies this`functionSet, q, q.buff
      ensures Valid() && functionSet == FunctionFlags(rows)
      ensures q.requested == old(q.requested) + [Command(Instruction, FunctionSet | FunctionFlags(rows))]
    {
      functionSet := functionSet | 0x00;
      if rows > 1 {
        functionSet := functionSet | 0x08;
      }
      q.Post(Command(Instruction, FunctionSet | functionSet));
    }

    /** The start of HD44780_Init(): the sequence that puts the controller into 4-bit mode. */
    method Reset()
      requires Valid()
      modifies q, q.buff
      ensures Valid() && q.requested == old(q.requested) + FourBitReset
    {
      q.Post(FourBitReset[0]);
      q.Post(FourBitReset[1]);
      q.Post(FourBitReset[2]);
      q.Post(FourBitReset[3]);
    }

    /**
     * HD44780_Clear(): sends Clear Display and waits until the interrupt
     * has emptied the ring, so everything accepted has been transmitted.
     */
    method Clear()
      requires Valid()
      modifies q, q.buff
      ensures Valid() && q.requested == old(q.requested) + [Command(Instruction, ClearDisplay)]
      ensures q.idle && q.contents == [] && q.wire == q.accepted
    {
      q.Post(Command(Instruction, ClearDisplay));
      while !q.idle
        invariant Valid() && q.requested == old(q.requested) + [Command(Instruction, ClearDisplay)]
        invariant q.idle ==> q.contents == []
        decreases |q.contents| + (if q.idle then 0 else 1)
      {
        q.TxComplete();
      }
    }

    /** HD44780_CursorSet(): the clamped cursor and its Set DDRAM address. */
    method CursorSet(col: Uint8, row: Uint8)
      requires Valid()
      modifies this`cursor, q, q.buff
      ensures Valid()
      ensures cursor == Hd44780.CursorSet(cols, rows, col, row).0
      ensures q.requested == old(q.requested) + [Hd44780.CursorSet(cols, rows, col, row).1]
    {
      var moved := Hd44780.CursorSet(cols, rows, col, row);
      cursor := moved.0;
      q.Post(moved.1);
    }

    /** One pass of HD44780_Puts()'s loop. */
    method PutChar(ch: bv8) returns (written: nat)
      requires Valid()
      modifies this`cursor, q, q.buff
      ensures Valid()
      ensures var r := PutsChar(cols, rows, Progress(old(cursor), [], 0), ch);
        cursor == r.cursor && q.requested == old(q.requested) + r.cmds && written == r.count
    {
      ghost var p0 := Progress(cursor, [], 0);
      if cursor.x >= cols {
        CursorSet(0, Inc(cursor.y));
      }
      ghost var p1 := Wrap(cols, rows, p0);
      assert cursor == p1.cursor && q.requested == old(q.requested) + p1.cmds;
      written := 0;
      if ch == LineFeed {
        CursorSet(cursor.x, Inc(cursor.y));
      } else if ch == CarriageReturn {
        CursorSet(0, cursor.y);
      } else {
        q.Post(Command(Data, ch));
        written := 1;
        cursor := Cursor(Inc(cursor.x), cursor.y);
      }
    }

    /**
     * HD44780_Puts(): the commands and final cursor of Hd44780.Puts, and
     * the number of characters written. `str` is the string before its
     * terminating zero, so it holds no zero byte.
     */
    method Puts(x: Uint8, y: Uint8, str: seq<bv8>) returns (count: nat)
      requires Valid() && forall i :: 0 <= i < |str| ==> str[i] != 0
      modifies this`cursor, q, q.buff
      ensures Valid()
      ensures var p := Hd44780.Puts(cols, rows, x, y, str);
        count == p.count && cursor == p.cursor && q.requested == old(q.requested) + p.cmds
    {
      CursorSet(x, y);
      ghost var first := Progress(cursor, [Hd44780.CursorSet(cols, rows, x, y).1], 0);
      ghost var start := Progress(cursor, q.requested, 0);
      count := 0;
      var i := 0;
      while i < |str|
        invariant 0 <= i <= |str| && Valid()
        invariant var p := PutsFrom(cols, rows, start, str[..i]);
          cursor == p.cursor && count == p.count && q.requested == p.cmds
      {
        ghost var before := PutsFrom(cols, rows, start, str[..i]);
        assert str[..i + 1][..i] == str[..i];
        PutsCharFrom(cols, rows, before, str[i]);
        var written := PutChar(str[i]);
        count := count + written;
        i := i + 1;
      }
      assert str[..i] == str;
      PutsFromPrefix(cols, rows, first, old(q.requested), str);
    }

    /** HD44780_DisplayOn/Off, BlinkOn/Off, CursorOn/Off: one flag changes, then Display Control is sent. */
    method Control(op: ControlOp)
      requires Valid()
      modifies this`displayControl, q, q.buff
      ensures Valid()
      ensures displayControl == ApplyControl(old(displayControl), op)
      ensures q.requested == old(q.requested) + [ControlCommand(displayControl)]
    {
      displayControl := ApplyControl(displayControl, op);
      q.Post(ControlCommand(displayControl));
    }

    /** HD44780_ScrollLeft() and HD44780_ScrollRight(). */
    method Scroll(d: Direction)
      requires Valid()
      modifies q, q.buff
      ensures Valid() && q.requested == old(q.requested) + [ScrollCommand(d)]
    {
      q.Post(ScrollCommand(d));
    }

    /** HD44780_CreateChar(): the CGRAM address and the eight rows of the character. */
    method CreateChar(location: bv8, pattern: seq<bv8>)
      requires Valid() && |pattern| >= 8
      modifies q, q.buff
      ensures Valid() && q.requested == old(q.requested) + Hd44780.CreateChar(location, pattern)
    {
      q.Post(CgramAddress(location));
      SendRows(pattern);
    }

    /** The loop of HD44780_CreateChar(): the eight rows of the character as data. */
    method SendRows(pattern: seq<bv8>)
      requires Valid() && |pattern| >= 8
      modifies q, q.buff
      ensures Valid() && q.requested == old(q.requested) + DataCommands(pattern[..8])
    {
      var i := 0;
      while i < 8
        invariant 0 <= i <= 8 && Valid()
        invariant q.requested == old(q.requested) + DataCommands(pattern[..i])
      {
        assert DataCommands(pattern[..i + 1]) == DataCommands(pattern[..i]) + [Command(Data, pattern[i])];
        q.Post(Command(Data, pattern[i]));
        i := i + 1;
      }
    }

    /** HD44780_PutCustom(): moves the cursor and writes a custom character. */
    method PutCustom(x: Uint8, y: Uint8, location: bv8)
      requires Valid()
      modifies this`cursor, q, q.buff
      ensures Valid()
      ensures cursor == Hd44780.PutCustom(cols, rows, x, y, location).0
      ensures q.requested == old(q.requested) + Hd44780.PutCustom(cols, rows, x, y, location).1
    {
      CursorSet(x, y);
      q.Post(Command(Data, location));
    }
  }
}
