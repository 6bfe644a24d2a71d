/** The screen structure the emulator keeps (kaypro/kaypro_video.c), changed byte by byte in place. */
module DisplayState {
  import opened Video

  class Display {
    const cells: array<Row>
    var row: int
    var col: int
    var attr: bv8
    var visible: bool
    const model: Model
    var preserve: bool
    var savedRow: int
    var savedCol: int
    var videoMode: bool
    var gfxPending: bool
    var gfxFirst: bv8
    var escState: int
    var escLead: bv8
    var escNeed: int
    var escArgs: seq<bv8>
    var dirty: seq<bool>
    var moved: bool

    ghost function Now(): Screen
      reads this, cells
    {
      Screen(cells[..], row, col, attr, visible, model, preserve, savedRow, savedCol, videoMode, gfxPending, gfxFirst,
             escState, escLead, escNeed, escArgs, dirty, moved)
    }

    constructor (model: Model)
      ensures Valid(Now()) && Now() == Init(model) && fresh(cells)
    {
      cells := new Row[KV_ROWS](_ => BlankRow());
      this.model := model;
      row, col, attr, visible, preserve, savedRow, savedCol := 0, 0, 0, true, true, 0, 0;
      videoMode, gfxPending, gfxFirst, escState, escLead, escNeed, escArgs := false, false, 0, 0, 0, 0, [];
      dirty, moved := AllRows(), true;
      new;
      assert cells[..] == Init(model).cells;
    }

    /** What a renderer looks at. */
    method View() returns (rows: seq<Row>, changed: seq<bool>, r: int, c: int, shown: bool, cursorMoved: bool)
      ensures rows == Now().cells && changed == Now().dirty && r == Now().row && c == Now().col
      ensures shown == Now().visible && cursorMoved == Now().moved
    {
      rows, changed, r, c, shown, cursorMoved := cells[..], dirty, row, col, visible, moved;
    }

    /** kaypro_video_clear_dirty. */
    method ClearDirty()
      modifies this`dirty, this`moved
      ensures Now() == Seen(old(Now()))
    {
      dirty, moved := NoRows(), false;
    }

    method RowsToScroll() returns (n: int)
      ensures n == ScrollRows(Now())
    {
      n := if model == Model84 && !preserve then KV_ROWS else KV_TEXT_ROWS;
    }

    /** The row copies of scroll_up and delete_line. */
    method MoveRowsUp(from: int, n: int)
      requires cells.Length == KV_ROWS && 0 <= from < n <= KV_ROWS
      modifies cells
      ensures cells[..] == ShiftUp(old(cells[..]), from, n)
    {
      var i := from;
      while i + 1 < n
        invariant from <= i < n
        invariant forall k :: 0 <= k < KV_ROWS ==> cells[k] == old(cells[if from <= k < i then k + 1 else k])
      {
        cells[i] := cells[i + 1];
        i := i + 1;
      }
      cells[n - 1] := BlankRow();
      assert cells[..] == ShiftUp(old(cells[..]), from, n);
    }

    /** The row copies of insert_line. */
    method MoveRowsDown(from: int, n: int)
      requires cells.Length == KV_ROWS && 0 <= from < n <= KV_ROWS
      modifies cells
      ensures cells[..] == ShiftDown(old(cells[..]), from, n)
    {
      var i := n - 1;
      while i > from
        invariant from <= i < n
        invariant forall k :: 0 <= k < KV_ROWS ==> cells[k] == old(cells[if i < k < n then k - 1 else k])
        decreases i
      {
        cells[i] := cells[i - 1];
        i := i - 1;
      }
      cells[from] := BlankRow();
      assert cells[..] == ShiftDown(old(cells[..]), from, n);
    }

    method DoScrollUp()
      requires Valid(Now())
      modifies this`dirty, cells
      ensures Now() == ScrollUp(old(Now()))
    {
      hide ShiftUp;
      var n := RowsToScroll();
      MoveRowsUp(0, n);
      dirty := AllRows();
    }

    method DoSetCursor(r: int, c: int)
      modifies this`row, this`col, this`moved
      ensures Now() == SetCursor(old(Now()), r, c)
    {
      var max := (if model == Model84 then KV_ROWS else KV_TEXT_ROWS) - 1;
      row := if r < 0 then 0 else if r > max then max else r;
      col := if c < 0 then 0 else if c >= KV_COLS then KV_COLS - 1 else c;
      moved := true;
    }

    method DoCursorDown()
      requires Valid(Now())
      modifies this`row, this`moved, this`dirty, cells
      ensures Now() == CursorDown(old(Now()))
    {
      hide ScrollUp;
      var n := RowsToScroll();
      if row < n - 1 {
        row := row + 1;
      } else if row == n - 1 {
        DoScrollUp();
      }
      moved := true;
    }

    method DoForward()
      requires Valid(Now())
      modifies this`row, this`col, this`moved, this`dirty, cells
      ensures Now() == Forward(old(Now()))
    {
      hide CursorDown;
      if col == KV_COLS - 1 {
        col := 0;
        DoCursorDown();
      } else {
        col := col + 1;
        moved := true;
      }
    }

    method DoPutChar(ch: bv8, a: bv8)
      requires Valid(Now())
      modifies this`row, this`col, this`moved, this`dirty, cells
      ensures Now() == PutChar(old(Now()), ch, a)
    {
      hide Forward;
      ghost var was := cells[..];
      cells[row] := cells[row][col := Cell(ch, a)];
      assert cells[..] == was[row := was[row][col := Cell(ch, a)]];
      dirty := dirty[row := true];
      DoForward();
    }

    method DoEraseToEol()
      requires Valid(Now())
      modifies this`dirty, cells
      ensures Now() == EraseToEol(old(Now()))
    {
      ghost var was := cells[..];
      cells[row] := BlankFrom(cells[row], col);
      assert cells[..] == was[row := BlankFrom(was[row], col)];
      dirty := dirty[row := true];
    }

    /** Blank the rows [from, to). */
    method DoBlankRows(from: int, to: int)
      requires Shaped(Now()) && 0 <= from <= KV_ROWS && to <= KV_ROWS
      modifies cells
      ensures cells[..] == BlankRows(old(cells[..]), from, to)
    {
      var r := from;
      while r < to
        invariant from <= r && (r <= to || r == from) && cells.Length == KV_ROWS
        invariant forall k :: 0 <= k < KV_ROWS ==> cells[k] == if from <= k < r then BlankRow() else old(cells[k])
      {
        cells[r] := BlankRow();
        r := r + 1;
      }
      assert cells[..] == BlankRows(old(cells[..]), from, to);
    }

    method DoEraseToEos()
      requires Valid(Now())
      modifies this`dirty, cells
      ensures Now() == EraseToEos(old(Now()))
    {
      var n := RowsToScroll();
      DoEraseToEol();
      DoBlankRows(row + 1, n);
      dirty := AllRows();
    }

    method DoClearScreen()
      requires Valid(Now())
      modifies this`row, this`col, this`moved, this`dirty, cells
      ensures Now() == ClearScreen(old(Now()))
    {
      var n := RowsToScroll();
      DoBlankRows(0, n);
      DoSetCursor(0, 0);
      dirty := AllRows();
    }

    method DoDeleteLine()
      requires Valid(Now())
      modifies this`dirty, cells
      ensures Now() == DeleteLine(old(Now()))
    {
      hide ShiftUp;
      var n := RowsToScroll();
      if row < n {
        MoveRowsUp(row, n);
        dirty := AllRows();
      }
    }

    method DoInsertLine()
      requires Valid(Now())
      modifies this`dirty, cells
      ensures Now() == InsertLine(old(Now()))
    {
      hide ShiftDown;
      var n := RowsToScroll();
      if row < n {
        MoveRowsDown(row, n);
        dirty := AllRows();
      }
    }

    method DoControl(ch: bv8)
      requires Valid(Now())
      modifies this`row, this`col, this`moved, this`dirty, this`escState, cells
      ensures Now() == Control(old(Now()), ch)
    {
      hide PutChar, CursorDown, Forward, EraseToEos, EraseToEol, ClearScreen, SetCursor;
      if ch == 0x00 {
        DoPutChar(0x60, attr);
      } else if ch == 0x08 {
        if col > 0 {
          col, moved := col - 1, true;
        }
      } else if ch == 0x0A {
        DoCursorDown();
      } else if ch == 0x0B {
        if row > 0 {
          row, moved := row - 1, true;
        }
      } else if ch == 0x0C {
        DoForward();
        moved := true;
      } else if ch == 0x0D {
        col, moved := 0, true;
      } else if ch == 0x17 {
        DoEraseToEos();
      } else if ch == 0x18 {
        DoEraseToEol();
      } else if ch == 0x1A {
        DoClearScreen();
      } else if ch == 0x1B {
        escState := 1;
      } else if ch == 0x1E {
        DoSetCursor(0, 0);
      }
    }

    method DoAttrSet(n: bv8, on: bool)
      requires Valid(Now())
      modifies this
      ensures Now() == AttrSet(old(Now()), n, on)
    {
      hide SetCursor, WithBit, AttrBit, Grid, EscArity;
      if 0x30 <= n <= 0x33 {
        attr := WithBit(attr, AttrBit(n), on);
      } else if n == 0x34 {
        visible, moved := on, true;
      } else if n == 0x35 {
        videoMode, gfxPending := on, false;
      } else if n == 0x36 {
        if on {
          savedRow, savedCol := row, col;
        } else {
          DoSetCursor(savedRow, savedCol);
        }
      } else if n == 0x37 {
        preserve := on;
      }
    }

    method DoEscRun()
      requires Valid(Now()) && |escArgs| == EscArity(model, escLead)
      modifies this, cells
      ensures Now() == EscRun(old(Now()), old(escLead), old(escArgs))
    {
      hide SetCursor, AttrSet, DeleteLine, InsertLine;
      if escLead == 0x3D {
        DoSetCursor(escArgs[0] as int - 0x20, escArgs[1] as int - 0x20);
      } else if escLead == 0x42 {
        DoAttrSet(escArgs[0], true);
      } else if escLead == 0x43 {
        DoAttrSet(escArgs[0], false);
      } else if escLead == 0x52 {
        DoDeleteLine();
      } else if escLead == 0x45 {
        DoInsertLine();
      }
    }

    method DoHighByte(ch: bv8)
      requires Valid(Now())
      modifies this`row, this`col, this`moved, this`dirty, this`gfxPending, this`gfxFirst, cells
      ensures Now() == HighByte(old(Now()), ch)
    {
      hide PutChar, PixelAttr, Grid, EscArity, Low7, Printable, GraphicsChar, WithBit;
      if !videoMode {
        if Printable(Low7(ch)) {
          DoPutChar(Low7(ch), WithBit(attr, ATTR_REVERSE, true));
        } else {
          DoPutChar(ch, attr);
        }
      } else if !gfxPending {
        gfxPending, gfxFirst := true, ch;
      } else {
        gfxPending := false;
        DoPutChar(GraphicsChar(ch), PixelAttr(attr, gfxFirst));
      }
    }

    method DoEscLead(ch: bv8)
      requires Valid(Now()) && escState == 1
      modifies this, cells
      ensures Now() == EscLead(old(Now()), ch)
    {
      hide EscRun, EscArity, Grid;
      var n := EscArity(model, ch);
      if n < 0 {
        escState := 0;
        return;
      }
      escLead, escArgs, escNeed := ch, [], n;
      if n == 0 {
        escState := 0;
        DoEscRun();
      } else {
        escState := 2;
      }
    }

    method DoEscArg(ch: bv8)
      requires Valid(Now()) && escState == 2
      modifies this, cells
      ensures Now() == EscArg(old(Now()), ch)
    {
      hide EscRun, EscArity, Grid;
      escArgs := escArgs + [ch];
      escNeed := escNeed - 1;
      if escNeed == 0 {
        escState := 0;
        DoEscRun();
      }
    }

    /** kaypro_video_putc. */
    method PutByte(ch: bv8)
      requires Valid(Now())
      modifies this, cells
      ensures Now() == Putc(old(Now()), ch) && Keeps(old(Now()), Now())
    {
      hide EscLead, EscArg, HighByte, Control, PutChar, Keeps, Grid, EscArity;
      PutcKeeps(Now(), ch);
      if escState == 1 {
        DoEscLead(ch);
      } else if escState == 2 {
        DoEscArg(ch);
      } else if ch & 0x80 != 0 {
        DoHighByte(ch);
      } else if ch < 0x20 {
        DoControl(ch);
      } else if ch != 0x7F {
        DoPutChar(ch, attr);
      }
    }
  }
}
