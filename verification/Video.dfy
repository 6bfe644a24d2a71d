/** The Kaypro's screen (kaypro/kaypro_video.c): cells, cursor and the control and escape sequence interpreter. */
module Video {

  const KV_ROWS: nat := 25
  const KV_TEXT_ROWS: nat := 24
  const KV_COLS: nat := 80
  const STATUS_ROW: nat := 24

  const ATTR_REVERSE: bv8 := 0x01
  const ATTR_DIM: bv8 := 0x02
  const ATTR_BLINK: bv8 := 0x04
  const ATTR_UNDERLINE: bv8 := 0x08
  const ATTR_PIXEL7: bv8 := 0x10

  datatype Cell = Cell(ch: bv8, attr: bv8)

  type Row = seq<Cell>

  datatype Model = ModelII | Model84

  /** Everything the terminal remembers.  `escState` is 0, 1 after ESC, 2 while collecting arguments; the rows marked
      in `dirty` have changed since the renderer last looked, and `moved` says the cursor has. */
  datatype Screen = Screen(cells: seq<Row>, row: int, col: int, attr: bv8, visible: bool, model: Model, preserve: bool,
                           savedRow: int, savedCol: int, videoMode: bool, gfxPending: bool, gfxFirst: bv8,
                           escState: int, escLead: bv8, escNeed: int, escArgs: seq<bv8>, dirty: seq<bool>, moved: bool)

  function BlankRow(): (r: Row)
    ensures |r| == KV_COLS && forall i :: 0 <= i < KV_COLS ==> r[i] == Cell(0x20, 0)
  {
    seq(KV_COLS, _ => Cell(0x20, 0))
  }

  function AllRows(): (d: seq<bool>)
    ensures |d| == KV_ROWS && forall r :: 0 <= r < KV_ROWS ==> d[r]
  {
    seq(KV_ROWS, _ => true)
  }

  function NoRows(): (d: seq<bool>)
    ensures |d| == KV_ROWS && forall r :: 0 <= r < KV_ROWS ==> !d[r]
  {
    seq(KV_ROWS, _ => false)
  }

  /** The screen once a renderer has taken note of all changes. */
  function Seen(s: Screen): Screen { s.(dirty := NoRows(), moved := false) }

  /** Rows that scrolling and clearing touch. */
  function ScrollRows(s: Screen): (n: int)
    ensures n == KV_ROWS || n == KV_TEXT_ROWS
  {
    if s.model == Model84 && !s.preserve then KV_ROWS else KV_TEXT_ROWS
  }

  /** Highest row the cursor may occupy. */
  function MaxRow(s: Screen): int { (if s.model == Model84 then KV_ROWS else KV_TEXT_ROWS) - 1 }

  ghost predicate Grid(cells: seq<Row>, dirty: seq<bool>) {
    |cells| == KV_ROWS == |dirty| && forall r :: 0 <= r < KV_ROWS ==> |cells[r]| == KV_COLS
  }

  ghost predicate Shaped(s: Screen) { Grid(s.cells, s.dirty) }

  /** Arguments a sequence takes on a model; none if the model does not know it. */
  function EscArity(model: Model, lead: bv8): int {
    if lead == 0x3D then 2
    else if model == ModelII then -1
    else if lead == 0x42 || lead == 0x43 then 1
    else if lead == 0x52 || lead == 0x45 || lead == 0x41 then 0
    else if lead == 0x2A || lead == 0x20 then 2
    else if lead == 0x4C || lead == 0x44 then 4
    else -1
  }

  /** The terminal's invariant: the cursor is on the screen, and while arguments are collected the sequence is known
      and those collected and those still needed add up to what it takes. */
  ghost predicate Valid(s: Screen) {
    Shaped(s) && 0 <= s.row <= MaxRow(s) && 0 <= s.col < KV_COLS && 0 <= s.escState <= 2
    && (s.escState == 2 ==> s.escNeed >= 1 && |s.escArgs| + s.escNeed == EscArity(s.model, s.escLead))
  }

  // ---- screen operations ----

  /** Row `from` goes, the rows below it up to `n` move up, row n - 1 becomes blank. */
  function ShiftUp(cells: seq<Row>, from: int, n: int): (r: seq<Row>)
    requires 0 <= from < n <= |cells| == KV_ROWS
    ensures |r| == KV_ROWS
    ensures forall k :: 0 <= k < KV_ROWS ==> r[k] == if from <= k < n - 1 then cells[k + 1]
            else if k == n - 1 then BlankRow() else cells[k]
  {
    cells[..from] + cells[from + 1..n] + [BlankRow()] + cells[n..]
  }

  /** Row `from` becomes blank, it and the rows below it move down, row n - 1 goes. */
  function ShiftDown(cells: seq<Row>, from: int, n: int): (r: seq<Row>)
    requires 0 <= from < n <= |cells| == KV_ROWS
    ensures |r| == KV_ROWS
    ensures forall k :: 0 <= k < KV_ROWS ==> r[k] == if k == from then BlankRow()
            else if from < k < n then cells[k - 1] else cells[k]
  {
    cells[..from] + [BlankRow()] + cells[from..n - 1] + cells[n..]
  }

  function ScrollUp(s: Screen): Screen
    requires Shaped(s)
  {
    s.(cells := ShiftUp(s.cells, 0, ScrollRows(s)), dirty := AllRows())
  }

  function SetCursor(s: Screen, r: int, c: int): Screen {
    s.(row := if r < 0 then 0 else if r > MaxRow(s) then MaxRow(s) else r,
       col := if c < 0 then 0 else if c >= KV_COLS then KV_COLS - 1 else c, moved := true)
  }

  function CursorDown(s: Screen): Screen
    requires Shaped(s)
  {
    var bottom := ScrollRows(s) - 1;
    (if s.row < bottom then s.(row := s.row + 1) else if s.row == bottom then ScrollUp(s) else s).(moved := true)
  }

  /** Cursor right with wrap, as after a character and for ^L. */
  function Forward(s: Screen): Screen
    requires Shaped(s)
  {
    if s.col == KV_COLS - 1 then CursorDown(s.(col := 0)) else s.(col := s.col + 1, moved := true)
  }

  function PutChar(s: Screen, ch: bv8, attr: bv8): Screen
    requires Valid(s)
  {
    Forward(s.(cells := s.cells[s.row := s.cells[s.row][s.col := Cell(ch, attr)]], dirty := s.dirty[s.row := true]))
  }

  function BlankFrom(r: Row, c: int): (b: Row)
    requires |r| == KV_COLS && 0 <= c < KV_COLS
    ensures |b| == KV_COLS
  {
    r[..c] + BlankRow()[c..]
  }

  function EraseToEol(s: Screen): Screen
    requires Valid(s)
  {
    s.(cells := s.cells[s.row := BlankFrom(s.cells[s.row], s.col)], dirty := s.dirty[s.row := true])
  }

  /** Blank the rows [from, to). */
  function BlankRows(cells: seq<Row>, from: int, to: int): (r: seq<Row>)
    requires |cells| == KV_ROWS && 0 <= from <= KV_ROWS && to <= KV_ROWS
    ensures |r| == KV_ROWS && forall i :: 0 <= i < KV_ROWS ==> r[i] == if from <= i < to then BlankRow() else cells[i]
  {
    seq(KV_ROWS, i requires 0 <= i < KV_ROWS => if from <= i < to then BlankRow() else cells[i])
  }

  function EraseToEos(s: Screen): Screen
    requires Valid(s)
  {
    var s1 := EraseToEol(s);
    s1.(cells := BlankRows(s1.cells, s.row + 1, ScrollRows(s)), dirty := AllRows())
  }

  function ClearScreen(s: Screen): Screen
    requires Shaped(s)
  {
    SetCursor(s.(cells := BlankRows(s.cells, 0, ScrollRows(s))), 0, 0).(dirty := AllRows())
  }

  function DeleteLine(s: Screen): Screen
    requires Valid(s)
  {
    var r, n := s.row, ScrollRows(s);
    if r >= n then s else s.(cells := ShiftUp(s.cells, r, n), dirty := AllRows())
  }

  function InsertLine(s: Screen): Screen
    requires Valid(s)
  {
    var r, n := s.row, ScrollRows(s);
    if r >= n then s else s.(cells := ShiftDown(s.cells, r, n), dirty := AllRows())
  }

  // ---- control characters and escape sequences ----

  function Control(s: Screen, ch: bv8): Screen
    requires Valid(s)
  {
    if ch == 0x00 then PutChar(s, 0x60, s.attr)
    else if ch == 0x08 then (if s.col > 0 then s.(col := s.col - 1, moved := true) else s)
    else if ch == 0x0A then CursorDown(s)
    else if ch == 0x0B then (if s.row > 0 then s.(row := s.row - 1, moved := true) else s)
    else if ch == 0x0C then Forward(s).(moved := true)
    else if ch == 0x0D then s.(col := 0, moved := true)
    else if ch == 0x17 then EraseToEos(s)
    else if ch == 0x18 then EraseToEol(s)
    else if ch == 0x1A then ClearScreen(s)
    else if ch == 0x1B then s.(escState := 1)
    else if ch == 0x1E then SetCursor(s, 0, 0)
    else s
  }

  function AttrBit(n: bv8): bv8 {
    if n == 0x30 then ATTR_REVERSE else if n == 0x31 then ATTR_DIM else if n == 0x32 then ATTR_BLINK
    else if n == 0x33 then ATTR_UNDERLINE else 0
  }

  function WithBit(attr: bv8, bit: bv8, on: bool): bv8 { if on then attr | bit else attr & !bit }

  /** ESC B n and ESC C n. */
  function AttrSet(s: Screen, n: bv8, on: bool): Screen {
    if 0x30 <= n <= 0x33 then s.(attr := WithBit(s.attr, AttrBit(n), on))
    else if n == 0x34 then s.(visible := on, moved := true)
    else if n == 0x35 then s.(videoMode := on, gfxPending := false)
    else if n == 0x36
        then (if on then s.(savedRow := s.row, savedCol := s.col) else SetCursor(s, s.savedRow, s.savedCol))
    else if n == 0x37 then s.(preserve := on)
    else s
  }

  /** Run a complete sequence. */
  function EscRun(s: Screen, lead: bv8, args: seq<bv8>): Screen
    requires Valid(s) && |args| == EscArity(s.model, lead)
  {
    if lead == 0x3D then SetCursor(s, args[0] as int - 0x20, args[1] as int - 0x20)
    else if lead == 0x42 then AttrSet(s, args[0], true)
    else if lead == 0x43 then AttrSet(s, args[0], false)
    else if lead == 0x52 then DeleteLine(s)
    else if lead == 0x45 then InsertLine(s)
    else s
  }

  function Low7(ch: bv8): bv8 { ch & 0x7F }
  predicate Printable(low: bv8) { low >= 0x20 && low != 0x7F }
  function GraphicsChar(ch: bv8): bv8 { 0x80 | Low7(ch) }

  /** A byte with bit 7 set: highlighted text, or half of a graphics pair in video mode. */
  function HighByte(s: Screen, ch: bv8): Screen
    requires Valid(s)
  {
    if !s.videoMode then
      if Printable(Low7(ch)) then PutChar(s, Low7(ch), WithBit(s.attr, ATTR_REVERSE, true)) else PutChar(s, ch, s.attr)
    else if !s.gfxPending then s.(gfxPending := true, gfxFirst := ch)
    else PutChar(s.(gfxPending := false), GraphicsChar(ch), PixelAttr(s.attr, s.gfxFirst))
  }

  /** Pixel 7 of a graphics pair rides in the attribute. */
  function PixelAttr(attr: bv8, first: bv8): bv8 { WithBit(attr, ATTR_PIXEL7, first & 1 != 0) }

  /** The byte after ESC. */
  function EscLead(s: Screen, ch: bv8): Screen
    requires Valid(s)
  {
    var n := EscArity(s.model, ch);
    var s0 := s.(escState := 0);
    if n < 0 then s0
    else if n == 0 then EscRun(s0.(escLead := ch, escNeed := 0, escArgs := []), ch, [])
    else s.(escLead := ch, escNeed := n, escArgs := [], escState := 2)
  }

  /** One more argument byte. */
  function EscArg(s: Screen, ch: bv8): Screen
    requires Valid(s) && s.escState == 2
  {
    var s1 := s.(escArgs := s.escArgs + [ch], escNeed := s.escNeed - 1);
    if s1.escNeed == 0 then EscRun(s1.(escState := 0), s.escLead, s1.escArgs) else s1
  }

  /** kaypro_video_putc. */
  function Putc(s: Screen, ch: bv8): Screen
    requires Valid(s)
  {
    if s.escState == 1 then EscLead(s, ch)
    else if s.escState == 2 then EscArg(s, ch)
    else if ch & 0x80 != 0 then HighByte(s, ch)
    else if ch < 0x20 then Control(s, ch)
    else if ch == 0x7F then s
    else PutChar(s, ch, s.attr)
  }

  /** kaypro_video_init. */
  function Init(model: Model): Screen {
    Screen(seq(KV_ROWS, _ => BlankRow()), 0, 0, 0, true, model, true, 0, 0, false, false, 0, 0, 0, 0, [], AllRows(),
        true)
  }

  // ---- what every byte keeps ----

  /** Nothing changes behind the renderer's back: changed rows are dirty, a changed cursor is marked moved. */
  ghost predicate Marks(s: Screen, t: Screen)
    requires Shaped(s) && Shaped(t)
  {
    (forall r :: 0 <= r < KV_ROWS && (t.cells[r] != s.cells[r] || s.dirty[r]) ==> t.dirty[r])
    && (s.moved ==> t.moved)
    && (t.row != s.row || t.col != s.col || t.visible != s.visible ==> t.moved)
  }

  /** The status line is out of reach of scrolling and clearing. */
  predicate Preserving(s: Screen) { s.model == ModelII || s.preserve }

  /** What one byte does to the screen as a whole. */
  ghost predicate Keeps(s: Screen, t: Screen) {
    Valid(s) && Valid(t) && t.model == s.model && Marks(s, t)
    && (Preserving(s) && s.row != STATUS_ROW ==> t.cells[STATUS_ROW] == s.cells[STATUS_ROW])
  }

  lemma KeepsCursor(s: Screen, t: Screen)
    requires Valid(s) && t == s.(row := t.row, col := t.col, moved := t.moved)
    requires 0 <= t.row <= MaxRow(s) && 0 <= t.col < KV_COLS && (s.moved ==> t.moved)
             && ((t.row, t.col) != (s.row, s.col) ==> t.moved)
    ensures Keeps(s, t)
  {
  }

  lemma ScrollKeeps(s: Screen)
    requires Valid(s)
    ensures Keeps(s, ScrollUp(s))
  {
    var t := ShiftUp(s.cells, 0, ScrollRows(s));
    assert forall r :: 0 <= r < KV_ROWS ==> |t[r]| == KV_COLS;
  }

  lemma CursorDownKeeps(s: Screen)
    requires Valid(s)
    ensures Keeps(s, CursorDown(s))
  {
    hide Grid, ScrollUp;
    if s.row < ScrollRows(s) - 1 {
      KeepsCursor(s, CursorDown(s));
    } else {
      ScrollKeeps(s);
      KeepsCursor(s, s.(moved := true));
      KeepsMoved(s, ScrollUp(s));
    }
  }

  lemma KeepsMoved(s: Screen, t: Screen)
    requires Keeps(s, t)
    ensures Keeps(s, t.(moved := true))
  {
  }

  /** From a state that differs from `s` in the cursor column only. */
  lemma ForwardKeeps(s: Screen)
    requires Valid(s)
    ensures Keeps(s, Forward(s)) && Forward(s).moved
  {
    hide CursorDown;
    if s.col == KV_COLS - 1 {
      CursorDownKeeps(s.(col := 0));
      CursorDownMoves(s.(col := 0));
      KeepsVia(s, s.(col := 0), Forward(s));
    } else {
      KeepsCursor(s, Forward(s));
    }
  }

  lemma CursorDownMoves(s: Screen)
    requires Shaped(s)
    ensures CursorDown(s).moved
  {
  }

  /** Changing cells of the cursor's row, marking it, and the cursor column are all covered by what follows, as long
      as that ends with the cursor marked moved. */
  lemma KeepsVia(s: Screen, m: Screen, t: Screen)
    requires Valid(s) && Keeps(m, t) && t.moved && m.model == s.model && m.preserve == s.preserve && m.row == s.row
    requires forall r :: 0 <= r < KV_ROWS && (m.cells[r] != s.cells[r] || s.dirty[r]) ==> m.dirty[r]
    requires s.row != STATUS_ROW ==> m.cells[STATUS_ROW] == s.cells[STATUS_ROW]
    ensures Keeps(s, t)
  {
  }

  lemma PutCharKeeps(s: Screen, ch: bv8, attr: bv8)
    requires Valid(s)
    ensures Keeps(s, PutChar(s, ch, attr))
  {
    hide Forward;
    var m := s.(cells := s.cells[s.row := s.cells[s.row][s.col := Cell(ch, attr)]], dirty := s.dirty[s.row := true]);
    ForwardKeeps(m);
    KeepsVia(s, m, PutChar(s, ch, attr));
  }

  lemma EraseKeeps(s: Screen)
    requires Valid(s)
    ensures Keeps(s, EraseToEol(s)) && Keeps(s, EraseToEos(s))
  {
  }

  lemma ClearKeeps(s: Screen)
    requires Valid(s)
    ensures Keeps(s, ClearScreen(s))
  {
  }

  lemma DeleteKeeps(s: Screen)
    requires Valid(s)
    ensures Keeps(s, DeleteLine(s))
  {
    if s.row < ScrollRows(s) {
      var t := ShiftUp(s.cells, s.row, ScrollRows(s));
      assert forall r :: 0 <= r < KV_ROWS ==> |t[r]| == KV_COLS;
    }
  }

  lemma InsertKeeps(s: Screen)
    requires Valid(s)
    ensures Keeps(s, InsertLine(s))
  {
    if s.row < ScrollRows(s) {
      var t := ShiftDown(s.cells, s.row, ScrollRows(s));
      assert forall r :: 0 <= r < KV_ROWS ==> |t[r]| == KV_COLS;
    }
  }

  lemma SetCursorKeeps(s: Screen, r: int, c: int)
    requires Valid(s)
    ensures Keeps(s, SetCursor(s, r, c))
  {
  }

  lemma ControlKeeps(s: Screen, ch: bv8)
    requires Valid(s) && s.escState == 0
    ensures Keeps(s, Control(s, ch))
  {
    hide Keeps, Grid, PutChar, CursorDown, Forward, EraseToEos, EraseToEol, ClearScreen, SetCursor;
    if ch == 0x00 {
      PutCharKeeps(s, 0x60, s.attr);
    } else if ch == 0x0A {
      CursorDownKeeps(s);
    } else if ch == 0x0C {
      ForwardKeeps(s);
      KeepsMoved(s, Forward(s));
    } else if ch == 0x17 || ch == 0x18 {
      EraseKeeps(s);
    } else if ch == 0x1A {
      ClearKeeps(s);
    } else if ch == 0x1E {
      SetCursorKeeps(s, 0, 0);
    } else {
      CursorControlKeeps(s, ch);
    }
  }

  lemma CursorControlKeeps(s: Screen, ch: bv8)
    requires Valid(s) && s.escState == 0
    requires ch != 0x00 && ch != 0x0A && ch != 0x0C && ch != 0x17 && ch != 0x18 && ch != 0x1A && ch != 0x1E
    ensures Keeps(s, Control(s, ch))
  {
    hide Keeps, Grid, PutChar, CursorDown, Forward, EraseToEos, EraseToEol, ClearScreen, SetCursor;
    KeepsSelf(s);
    if ch == 0x1B {
      KeepsSelf(s.(escState := 1));
      KeepsFrom(s, s.(escState := 1), s.(escState := 1));
    } else if ch == 0x08 && s.col > 0 {
      KeepsCursor(s, s.(col := s.col - 1, moved := true));
    } else if ch == 0x0B && s.row > 0 {
      KeepsCursor(s, s.(row := s.row - 1, moved := true));
    } else if ch == 0x0D {
      KeepsCursor(s, s.(col := 0, moved := true));
    }
  }

  /** Modes, saved positions and the visibility of the cursor. */
  lemma KeepsModes(s: Screen, t: Screen)
    requires Valid(s) && (s.moved ==> t.moved) && (t.visible != s.visible ==> t.moved)
    requires t == s.(attr := t.attr, visible := t.visible, preserve := t.preserve, savedRow := t.savedRow,
             savedCol := t.savedCol,
                     videoMode := t.videoMode, gfxPending := t.gfxPending, moved := t.moved)
    ensures Keeps(s, t)
  {
  }

  lemma AttrSetKeeps(s: Screen, n: bv8, on: bool)
    requires Valid(s) && s.escState == 0
    ensures Keeps(s, AttrSet(s, n, on))
  {
    hide Keeps, Grid, SetCursor, WithBit, AttrBit;
    if n == 0x36 && !on {
      SetCursorKeeps(s, s.savedRow, s.savedCol);
    } else {
      KeepsModes(s, AttrSet(s, n, on));
    }
  }

  lemma EscRunKeeps(s: Screen, lead: bv8, args: seq<bv8>)
    requires Valid(s) && s.escState == 0 && |args| == EscArity(s.model, lead)
    ensures Keeps(s, EscRun(s, lead, args))
  {
    hide Keeps, SetCursor, AttrSet, DeleteLine, InsertLine;
    if lead == 0x3D {
      SetCursorKeeps(s, args[0] as int - 0x20, args[1] as int - 0x20);
    } else if lead == 0x42 || lead == 0x43 {
      AttrSetKeeps(s, args[0], lead == 0x42);
    } else {
      DeleteKeeps(s);
      InsertKeeps(s);
      KeepsSelf(s);
    }
  }

  /** Only the escape state, or a pending graphics byte, differs between `s` and `m`. */
  lemma KeepsFrom(s: Screen, m: Screen, t: Screen)
    requires Valid(s) && Keeps(m, t)
    requires m == s.(escState := m.escState, escLead := m.escLead, escNeed := m.escNeed, escArgs := m.escArgs,
                     gfxPending := m.gfxPending, gfxFirst := m.gfxFirst)
    ensures Keeps(s, t)
  {
  }

  lemma EscLeadKeeps(s: Screen, ch: bv8)
    requires Valid(s) && s.escState == 1
    ensures Keeps(s, EscLead(s, ch))
  {
    hide Keeps, Grid, EscRun, EscArity;
    var n := EscArity(s.model, ch);
    var m := s.(escState := if n > 0 then 2 else 0, escLead := ch, escNeed := if n < 0 then 0 else n, escArgs := []);
    if n == 0 {
      EscRunKeeps(m, ch, []);
      KeepsFrom(s, m, EscLead(s, ch));
    } else if n > 0 {
      KeepsSelf(m);
      KeepsFrom(s, m, m);
    } else {
      KeepsSelf(s.(escState := 0));
      KeepsFrom(s, s.(escState := 0), s.(escState := 0));
    }
  }

  lemma EscArgKeeps(s: Screen, ch: bv8)
    requires Valid(s) && s.escState == 2
    ensures Keeps(s, EscArg(s, ch))
  {
    hide Keeps, Grid, EscRun, EscArity;
    var m := s.(escArgs := s.escArgs + [ch], escNeed := s.escNeed - 1, escState := if s.escNeed == 1 then 0 else 2);
    if s.escNeed == 1 {
      EscRunKeeps(m, s.escLead, m.escArgs);
      KeepsFrom(s, m, EscArg(s, ch));
    } else {
      KeepsSelf(m);
      KeepsFrom(s, m, m);
    }
  }

  lemma KeepsSelf(s: Screen)
    requires Valid(s)
    ensures Keeps(s, s)
  {
  }

  lemma HighByteKeeps(s: Screen, ch: bv8)
    requires Valid(s)
    ensures Keeps(s, HighByte(s, ch))
  {
    hide Keeps, Valid, PutChar;
    if !s.videoMode {
      PutCharKeeps(s, Low7(ch), WithBit(s.attr, ATTR_REVERSE, true));
      PutCharKeeps(s, ch, s.attr);
    } else {
      GraphicsKeeps(s, ch);
    }
  }

  lemma GraphicsKeeps(s: Screen, ch: bv8)
    requires Valid(s) && s.videoMode
    ensures Keeps(s, HighByte(s, ch))
  {
    hide Keeps, Grid, PutChar, EscArity, PixelAttr;
    var m := s.(gfxPending := !s.gfxPending, gfxFirst := if s.gfxPending then s.gfxFirst else ch);
    if !s.gfxPending {
      KeepsSelf(m);
      KeepsFrom(s, m, m);
    } else {
      PutCharKeeps(m, GraphicsChar(ch), PixelAttr(s.attr, s.gfxFirst));
      KeepsFrom(s, m, HighByte(s, ch));
    }
  }

  /** Every byte keeps the invariant, marks what it changes, and leaves a preserved status line alone unless the
      cursor is on it. */
  lemma PutcKeeps(s: Screen, ch: bv8)
    requires Valid(s)
    ensures Keeps(s, Putc(s, ch))
  {
    hide EscLead, EscArg, HighByte, Control, PutChar, Keeps;
    if s.escState == 1 {
      EscLeadKeeps(s, ch);
    } else if s.escState == 2 {
      EscArgKeeps(s, ch);
    } else if ch & 0x80 != 0 {
      HighByteKeeps(s, ch);
    } else if ch < 0x20 {
      ControlKeeps(s, ch);
    } else if ch == 0x7F {
      KeepsSelf(s);
    } else {
      PutCharKeeps(s, ch, s.attr);
    }
  }

  lemma InitValid(model: Model)
    ensures Valid(Init(model))
  {
  }

  /** A whole stream of guest bytes. */
  function PutAll(s: Screen, bytes: seq<bv8>): (t: Screen)
    requires Valid(s)
    ensures Valid(t)
    decreases |bytes|
  {
    if bytes == [] then s else
      PutcKeeps(s, bytes[0]);
      PutAll(Putc(s, bytes[0]), bytes[1..])
  }

  /** The status line of a preserving terminal changes only in steps that start with the cursor on it: a stream none
      of whose bytes finds it there leaves it as it was. */
  lemma {:induction false} StatusLineKept(s: Screen, bytes: seq<bv8>)
    requires Valid(s)
    requires forall i :: 0 <= i < |bytes| ==>
               Preserving(PutAll(s, bytes[..i])) && PutAll(s, bytes[..i]).row != STATUS_ROW
    ensures PutAll(s, bytes).cells[STATUS_ROW] == s.cells[STATUS_ROW]
    decreases |bytes|
  {
    hide Putc;
    if bytes != [] {
      PutcKeeps(s, bytes[0]);
      var t, rest := Putc(s, bytes[0]), bytes[1..];
      assert bytes[..0] == [];
      assert PutAll(s, bytes[..0]) == s;
      forall i | 0 <= i < |rest| ensures Preserving(PutAll(t, rest[..i])) && PutAll(t, rest[..i]).row != STATUS_ROW {
        assert bytes[..i + 1][0] == bytes[0] && bytes[..i + 1][1..] == rest[..i];
        assert PutAll(s, bytes[..i + 1]) == PutAll(t, rest[..i]);
      }
      StatusLineKept(t, rest);
    }
  }
}
