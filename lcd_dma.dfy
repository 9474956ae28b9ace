/**
 * The DMA variant of the LCD driver, Modules/hd44780_i2c_DMA.c: every
 * operation after HD44780_Init() starts a transfer with dma_init(), loads
 * the frames of its commands into one 255-byte buffer, and hands the
 * loaded part to the I2C DMA channel in a single transfer. HD44780_Init()
 * sends its first commands in blocking mode, one frame per transfer. The
 * transfers handed to the I2C peripheral are recorded in `transfers`.
 */
module LcdDma {
  import opened Hd44780

  /** HD44780_DMA_BUFF_LEN. */
  const BuffLen: nat := 255
  /** The most commands one transfer holds: the load guard stops at index 252. */
  const MaxLoaded: nat := 63

  /** The frames loadCommandToDMAbuff() lets in: a full buffer drops the rest. */
  function Keep(cmds: seq<Command>): (kept: seq<Command>)
  {
    if |cmds| <= MaxLoaded then cmds else cmds[..MaxLoaded]
  }

  /** The guard `index + 4 >= HD44780_DMA_BUFF_LEN` refuses a frame exactly when MaxLoaded are loaded. */
  lemma GuardIsCapacity(n: nat)
    ensures 4 * n + 4 >= BuffLen <==> n >= MaxLoaded
  {
  }

  /**
   * What the LCD reads from one transfer: the commands requested since
   * dma_init(), all of them when they fit and otherwise the first
   * MaxLoaded, so a long string is cut and never garbled.
   */
  lemma TransferDecodes(cmds: seq<Command>)
    ensures |Frames(Keep(cmds))| <= 4 * MaxLoaded < BuffLen
    ensures DecodeFrames(Frames(Keep(cmds))) <= cmds
    ensures |cmds| <= MaxLoaded ==> DecodeFrames(Frames(Keep(cmds))) == cmds
    ensures |cmds| > MaxLoaded ==> |DecodeFrames(Frames(Keep(cmds)))| == MaxLoaded
  {
    FramesDecode(Keep(cmds));
  }

  /** A frame per command, as the blocking send() transmits them. */
  function Singles(cmds: seq<Command>): (frames: seq<seq<bv8>>)
  {
    seq(|cmds|, k requires 0 <= k < |cmds| => Encode(cmds[k]))
  }

  /** The LCD reads each blocking transfer back as its command. */
  lemma SinglesDecode(cmds: seq<Command>)
    ensures |Singles(cmds)| == |cmds|
    ensures forall k :: 0 <= k < |cmds| ==> |Singles(cmds)[k]| == 4 && Decode(Singles(cmds)[k]) == cmds[k]
  {
  }

  lemma SinglesAppend(a: seq<Command>, b: seq<Command>)
    ensures Singles(a + b) == Singles(a) + Singles(b)
  {
    assert forall k :: 0 <= k < |a| + |b| ==> Singles(a + b)[k] == (Singles(a) + Singles(b))[k];
  }

  /** The commands HD44780_Init() sends in blocking mode: the 4-bit reset twice, Function Set and the entry mode. */
  function BlockingInit(rows: Uint8): (cmds: seq<Command>)
  {
    FourBitReset + FourBitReset
      + [Command(Instruction, FunctionSet | FunctionFlags(rows)), Command(Instruction, EntryModeSet | EntryLeft)]
  }

  /** The I2C peripheral, as the transfers handed to it, oldest first. */
  class Bus {
    var transfers: seq<seq<bv8>>

    constructor ()
      ensures transfers == []
    {
      transfers := [];
    }

    /** send(): one frame in a blocking transfer of its own. */
    method Send(c: Command)
      modifies this
      ensures transfers == old(transfers) + [Encode(c)]
    {
      transfers := transfers + [Encode(c)];
    }

    /** The four send() calls of the reset sequence. */
    method SendAll(cmds: seq<Command>)
      requires |cmds| == 4
      modifies this
      ensures transfers == old(transfers) + Singles(cmds)
    {
      Send(cmds[0]);
      Send(cmds[1]);
      Send(cmds[2]);
      Send(cmds[3]);
    }
  }

  /** HD44780_DMAdata, and the I2C peripheral it hands its transfers to. */
  class DmaData {
    /** HD44780_DMAdata.buff, .index and .busy. */
    const buff: array<bv8>
    var index: nat
    var busy: bool
    const bus: Bus
    /** The commands requested since dma_init(), and those whose frames are in the buffer. */
    ghost var requested: seq<Command>
    ghost var loaded: seq<Command>

    /**
     * The buffer holds the frames of the loaded commands, which are the
     * requested ones up to the capacity.
     */
    ghost predicate Valid()
      reads this, buff
    {
      && buff.Length == BuffLen
      && index == 4 * |loaded| && |loaded| <= MaxLoaded
      && buff[..index] == Frames(loaded) && loaded == Keep(requested)
    }

    /** The memset() of HD44780_Init(): nothing loaded, not busy. */
    constructor ()
      ensures Valid() && !busy && index == 0 && bus.transfers == [] && requested == [] && fresh(buff) && fresh(bus)
    {
      buff := new bv8[BuffLen](_ => 0);
      bus := new Bus();
      index, busy := 0, false;
      requested, loaded := [], [];
    }

    /** HD44780_TransferEndCallback(): the interrupt at the end of a transfer frees the driver. */
    method TransferEnd()
      requires Valid()
      modifies this
      ensures Valid() && !busy && index == old(index) && requested == old(requested)
    {
      busy := false;
    }

    /**
     * dma_init(): the driver is taken for a new transfer and the buffer
     * emptied. The wait for the previous transfer is not part of this model.
     */
    method DmaInit()
      requires Valid()
      modifies this
      ensures Valid() && busy && index == 0 && requested == []
    {
      busy := true;
      index := 0;
      requested, loaded := [], [];
    }

    /**
     * loadCommandToDMAbuff(): the command's frame is written after the
     * loaded ones, unless fewer than five bytes are left.
     */
    method Load(c: Command)
      requires Valid()
      modifies this, buff
      ensures Valid() && requested == old(requested) + [c]
      ensures busy == old(busy)
    {
      GuardIsCapacity(|loaded|);
      requested := requested + [c];
      if index + 4 >= BuffLen {
        assert requested[..MaxLoaded] == old(requested)[..MaxLoaded];
        return;
      }
      var i := index;
      WriteFrame(i, c);
      assert buff[..i + 4] == buff[..i] + buff[i..i + 4];
      assert (loaded + [c])[..|loaded|] == loaded;
      loaded := loaded + [c];
      index := i + 4;
    }

    /** The byte assignments of loadCommandToDMAbuff(): the frame of `c` at `i`, the bytes before it kept. */
    method WriteFrame(i: nat, c: Command)
      requires buff.Length == BuffLen && i + 4 < BuffLen
      modifies buff
      ensures buff[i..i + 4] == Encode(c) && buff[..i] == old(buff[..i])
    {
      var frame := Encode(c);
      buff[i] := frame[0];
      buff[i + 1] := frame[1];
      buff[i + 2] := frame[2];
      buff[i + 3] := frame[3];
    }

    /** i2c_sendDataDMA(buff, index): the loaded frames go out in one transfer. */
    method Transmit()
      requires Valid()
      modifies bus
      ensures bus.transfers == old(bus.transfers) + [Frames(Keep(requested))]
    {
      bus.transfers := bus.transfers + [buff[..index]];
    }
  }

  /** HD44780_State, and the DMA data it sends through. */
  class Lcd {
    const dma: DmaData
    var displayControl: bv8
    var functionSet: bv8
    var entryMode: bv8
    const rows: Uint8
    const cols: Uint8
    var cursor: Cursor

    ghost predicate Valid()
      reads this, dma, dma.buff
    {
      dma.Valid() && rows <= 4
    }

    /**
     * HD44780_Init(cols, rows): state and buffer cleared, the blocking
     * commands sent one by one, then display on twice and a clear through
     * the DMA.
     */
    constructor Init(cols: Uint8, rows: Uint8)
      requires rows <= 4
      ensures Valid() && this.cols == cols && this.rows == rows && cursor == Cursor(0, 0)
      ensures functionSet == FunctionFlags(rows) && displayControl == 0x04 && entryMode == EntryLeft
      ensures dma.bus.transfers == Singles(BlockingInit(rows))
        + [Frames([ControlCommand(0x04)]), Frames([ControlCommand(0x04)]), Frames([Command(Instruction, ClearDisplay)])]
      ensures dma.busy && fresh(dma) && fresh(dma.buff) && fresh(dma.bus)
    {
      dma := new DmaData();
      displayControl, functionSet, entryMode := 0, 0, 0;
      this.rows, this.cols := rows, cols;
      cursor := Cursor(0, 0);
      new;
      Configure();
      Start();
      Clear();
    }

    /** The blocking part of HD44780_Init(): the 4-bit reset twice, Function Set and the entry mode. */
    method Configure()
      requires Valid() && functionSet == 0 && dma.bus.transfers == []
      modifies this, dma.bus
      ensures Valid() && cursor == old(cursor)
      ensures displayControl == old(displayControl)
      ensures functionSet == FunctionFlags(rows) && entryMode == EntryLeft
      ensures dma.bus.transfers == Singles(BlockingInit(rows))
    {
      dma.bus.SendAll(FourBitReset);
      dma.bus.SendAll(FourBitReset);
      functionSet := functionSet | 0x00;
      if rows > 1 {
        functionSet := functionSet | 0x08;
      }
      dma.bus.Send(Command(Instruction, FunctionSet | functionSet));
      entryMode := EntryLeft;
      dma.bus.Send(Command(Instruction, EntryModeSet | entryMode));
      ghost var last := [Command(Instruction, FunctionSet | functionSet), Command(Instruction, EntryModeSet | entryMode)];
      SinglesAppend(FourBitReset, FourBitReset);
      SinglesAppend(FourBitReset + FourBitReset, last);
      assert Singles(last) == [Encode(last[0]), Encode(last[1])];
    }

    /** The dummy first transfer of HD44780_Init() and the one after it. */
    method Start()
      requires Valid() && displayControl == 0
      modifies this, dma, dma.buff, dma.bus
      ensures Valid() && cursor == old(cursor)
      ensures functionSet == old(functionSet) && entryMode == old(entryMode) && displayControl == 0x04
      ensures dma.bus.transfers == old(dma.bus.transfers) + [Frames([ControlCommand(0x04)]), Frames([ControlCommand(0x04)])]
    {
      Control(DisplayOn);
      Control(DisplayOn);
    }

    /** CursorSet(): the clamped cursor, and its Set DDRAM address loaded. */
    method CursorSet(col: Uint8, row: Uint8)
      requires Valid()
      modifies this, dma, dma.buff, dma.bus
      ensures Valid() && displayControl == old(displayControl)
      ensures dma.busy == old(dma.busy) && dma.bus.transfers == old(dma.bus.transfers)
      ensures cursor == Hd44780.CursorSet(cols, rows, col, row).0
      ensures dma.requested == old(dma.requested) + [Hd44780.CursorSet(cols, rows, col, row).1]
    {
      var moved := Hd44780.CursorSet(cols, rows, col, row);
      cursor := moved.0;
      dma.Load(moved.1);
    }

    /** One pass of HD44780_Puts()'s loop. */
    method PutChar(ch: bv8)
      requires Valid()
      modifies this, dma, dma.buff, dma.bus
      ensures Valid() && displayControl == old(displayControl)
      ensures dma.busy == old(dma.busy) && dma.bus.transfers == old(dma.bus.transfers)
      ensures var r := PutsChar(cols, rows, Progress(old(cursor), [], 0), ch);
        cursor == r.cursor && dma.requested == old(dma.requested) + r.cmds
    {
      WrapCursor();
      PlaceChar(ch);
      assert dma.requested == old(dma.requested) + (Wrap(cols, rows, Progress(old(cursor), [], 0)).cmds
        + Place(cols, rows, Progress(Wrap(cols, rows, Progress(old(cursor), [], 0)).cursor, [], 0), ch).cmds);
    }

    /** The start of a pass of HD44780_Puts()'s loop: past the last column, the cursor goes to the next row. */
    method WrapCursor()
      requires Valid()
      modifies this, dma, dma.buff, dma.bus
      ensures Valid() && displayControl == old(displayControl)
      ensures dma.busy == old(dma.busy) && dma.bus.transfers == old(dma.bus.transfers)
      ensures var r := Wrap(cols, rows, Progress(old(cursor), [], 0));
        cursor == r.cursor && dma.requested == old(dma.requested) + r.cmds
    {
      if cursor.x >= cols {
        CursorSet(0, Inc(cursor.y));
      }
    }

    /** The rest of the pass: a cursor move for '\n' and '\r', otherwise the character. */
    method PlaceChar(ch: bv8)
      requires Valid()
      modifies this, dma, dma.buff, dma.bus
      ensures Valid() && displayControl == old(displayControl)
      ensures dma.busy == old(dma.busy) && dma.bus.transfers == old(dma.bus.transfers)
      ensures var r := Place(cols, rows, Progress(old(cursor), [], 0), ch);
        cursor == r.cursor && dma.requested == old(dma.requested) + r.cmds
    {
      if ch == LineFeed {
        CursorSet(cursor.x, Inc(cursor.y));
      } else if ch == CarriageReturn {
        CursorSet(0, cursor.y);
      } else {
        dma.Load(Command(Data, ch));
        cursor := Cursor(Inc(cursor.x), cursor.y);
      }
    }

    /**
     * HD44780_Puts(): one transfer with the commands of Hd44780.Puts, as
     * many of them as fit in the buffer. `str` is the string before its
     * terminating zero, so it holds no zero byte.
     */
    method Puts(x: Uint8, y: Uint8, str: seq<bv8>)
      requires Valid() && forall i :: 0 <= i < |str| ==> str[i] != 0
      modifies this, dma, dma.buff, dma.bus
      ensures Valid() && displayControl == old(displayControl) && dma.busy
      ensures var p := Hd44780.Puts(cols, rows, x, y, str);
        cursor == p.cursor && dma.requested == p.cmds && dma.bus.transfers == old(dma.bus.transfers) + [Frames(Keep(p.cmds))]
    {
      dma.DmaInit();
      CursorSet(x, y);
      ghost var start := Progress(cursor, dma.requested, 0);
      var i := 0;
      while i < |str|
        invariant 0 <= i <= |str| && Valid() && dma.busy && dma.bus.transfers == old(dma.bus.transfers)
        invariant displayControl == old(displayControl)
        invariant var p := PutsFrom(cols, rows, start, str[..i]);
          cursor == p.cursor && dma.requested == p.cmds
      {
        ghost var before := PutsFrom(cols, rows, start, str[..i]);
        assert str[..i + 1][..i] == str[..i];
        PutsCharFrom(cols, rows, before, str[i]);
        PutChar(str[i]);
        i := i + 1;
      }
      assert str[..i] == str;
      dma.Transmit();
    }

    /** HD44780_Clear(): Clear Display in a transfer of its own. */
    method Clear()
      requires Valid()
      modifies dma, dma.buff, dma.bus
      ensures Valid() && dma.busy
      ensures dma.bus.transfers == old(dma.bus.transfers) + [Frames([Command(Instruction, ClearDisplay)])]
    {
      dma.DmaInit();
      dma.Load(Command(Instruction, ClearDisplay));
      dma.Transmit();
    }

    /** HD44780_DisplayOn/Off, BlinkOn/Off, CursorOn/Off: one flag changes, then Display Control is sent. */
    method Control(op: ControlOp)
      requires Valid()
      modifies this, dma, dma.buff, dma.bus
      ensures Valid() && cursor == old(cursor) && dma.busy
      ensures functionSet == old(functionSet) && entryMode == old(entryMode)
      ensures displayControl == ApplyControl(old(displayControl), op)
      ensures dma.bus.transfers == old(dma.bus.transfers) + [Frames([ControlCommand(displayControl)])]
    {
      dma.DmaInit();
      displayControl := ApplyControl(displayControl, op);
      dma.Load(ControlCommand(displayControl));
      dma.Transmit();
    }

    /** HD44780_ScrollLeft() and HD44780_ScrollRight(). */
    method Scroll(d: Direction)
      requires Valid()
      modifies dma, dma.buff, dma.bus
      ensures Valid() && dma.busy
      ensures dma.bus.transfers == old(dma.bus.transfers) + [Frames([ScrollCommand(d)])]
    {
      dma.DmaInit();
      dma.Load(ScrollCommand(d));
      dma.Transmit();
    }
  }
}
