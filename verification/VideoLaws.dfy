/** What each control byte and escape sequence does to rows and cursor (kaypro/kaypro_video.c), byte by byte fed to the
    terminal and cell by cell on the screen. */
module VideoLaws {
  import opened Video
  import opened VideoText

  const SPACE := Cell(0x20, 0)

  /** Rows that take part in scrolling: all 25 on an 84 that does not preserve its status line, 24 otherwise. */
  function Height(s: Screen): int { if s.model == Model84 && !s.preserve then 25 else 24 }

  ghost predicate Blank(row: Row) { |row| == 80 && forall c :: 0 <= c < 80 ==> row[c] == SPACE }

  /** The cursor went to (row, col) and no cell changed. */
  predicate MovedTo(s: Screen, t: Screen, row: int, col: int) { t.cells == s.cells && t.row == row && t.col == col }

  /** Rows [from, n) of `t` are those of `s` one further down, and row n - 1 is blank; other rows stay. */
  ghost predicate RolledUp(s: seq<Row>, t: seq<Row>, from: int, n: int) {
    && |s| == 25 == |t| && 0 <= from < n <= 25
    && forall r :: 0 <= r < 25 ==>
         if from <= r < n - 1 then t[r] == s[r + 1] else if r == n - 1 then Blank(t[r]) else t[r] == s[r]
  }

  /** Rows from `from` on moved down by one, row `from` is blank, row n - 1 is gone. */
  ghost predicate RolledDown(s: seq<Row>, t: seq<Row>, from: int, n: int) {
    && |s| == 25 == |t| && 0 <= from < n <= 25
    && forall r :: 0 <= r < 25 ==>
         if r == from then Blank(t[r]) else if from < r < n then t[r] == s[r - 1] else t[r] == s[r]
  }

  lemma HeightIs(s: Screen)
    ensures ScrollRows(s) == Height(s) && 24 <= Height(s) <= 25
    ensures Blank(BlankRow())
  {
  }

  lemma OneByte(s: Screen, ch: bv8)
    requires Valid(s)
    ensures PutAll(s, [ch]) == Putc(s, ch)
  {
    hide Putc;
    PutcKeeps(s, ch);
    assert [ch][1..] == [];
    assert PutAll(Putc(s, ch), []) == Putc(s, ch);
  }

  /** Backspace, up, carriage return and home only move the cursor. */
  lemma CursorBytes(s: Screen)
    requires Valid(s) && s.escState == 0
    ensures MovedTo(s, PutAll(s, [0x08]), s.row, if s.col > 0 then s.col - 1 else 0)
    ensures MovedTo(s, PutAll(s, [0x0B]), if s.row > 0 then s.row - 1 else 0, s.col)
    ensures MovedTo(s, PutAll(s, [0x0D]), s.row, 0)
    ensures MovedTo(s, PutAll(s, [0x1E]), 0, 0)
  {
    hide PutAll, PutChar, CursorDown, Forward, EraseToEos, EraseToEol, ClearScreen;
    OneByte(s, 0x08);
    OneByte(s, 0x0B);
    OneByte(s, 0x0D);
    OneByte(s, 0x1E);
  }

  /** Line feed moves down; on the last scrolling row it rolls the screen up; below that it does nothing. */
  lemma LineFeed(s: Screen)
    requires Valid(s) && s.escState == 0
    ensures var t, n := PutAll(s, [0x0A]), Height(s);
            && (s.row < n - 1 ==> MovedTo(s, t, s.row + 1, s.col))
            && (s.row == n - 1 ==> RolledUp(s.cells, t.cells, 0, n) && t.row == s.row && t.col == s.col)
            && (s.row > n - 1 ==> MovedTo(s, t, s.row, s.col))
  {
    hide PutAll, PutChar, Forward, EraseToEos, EraseToEol, ClearScreen, ShiftUp, RolledUp;
    OneByte(s, 0x0A);
    HeightIs(s);
    ShiftUpIs(s.cells, 0, Height(s));
  }

  lemma ShiftUpIs(cells: seq<Row>, from: int, n: int)
    requires 0 <= from < n <= |cells| == 25
    ensures RolledUp(cells, ShiftUp(cells, from, n), from, n)
  {
    hide BlankRow, Blank;
    BlankIs();
  }

  lemma ShiftDownIs(cells: seq<Row>, from: int, n: int)
    requires 0 <= from < n <= |cells| == 25
    ensures RolledDown(cells, ShiftDown(cells, from, n), from, n)
  {
    hide BlankRow, Blank;
    BlankIs();
  }

  lemma BlankIs()
    ensures Blank(BlankRow())
  {
  }

  // ---- erasing ----

  /** In its row everything from the cursor on is blank; rows [below, upTo) are blank; nothing else changed. */
  ghost predicate Erased(s: Screen, t: Screen, below: int, upTo: int) {
    && |s.cells| == 25 == |t.cells| && t.row == s.row && t.col == s.col && 0 <= s.row < 25
       && |s.cells[s.row]| == 80 == |t.cells[s.row]|
    && (forall c :: 0 <= c < 80 ==> t.cells[s.row][c] == if c < s.col then s.cells[s.row][c] else SPACE)
    && forall r :: 0 <= r < 25 && r != s.row ==> if below <= r < upTo then Blank(t.cells[r])
       else t.cells[r] == s.cells[r]
  }

  /** ^X blanks the rest of the line, ^W also the lines below that scroll. */
  lemma Erases(s: Screen)
    requires Valid(s) && s.escState == 0
    ensures Erased(s, PutAll(s, [0x18]), 25, 25) && Erased(s, PutAll(s, [0x17]), s.row + 1, Height(s))
  {
    hide PutAll, PutChar, CursorDown, Forward, ClearScreen;
    OneByte(s, 0x18);
    OneByte(s, 0x17);
    HeightIs(s);
  }

  /** ^Z blanks the lines that scroll and homes the cursor. */
  lemma Clears(s: Screen)
    requires Valid(s) && s.escState == 0
    ensures var t, n := PutAll(s, [0x1A]), Height(s);
            && t.row == 0 && t.col == 0 && |t.cells| == 25
            && forall r :: 0 <= r < 25 ==> if r < n then Blank(t.cells[r]) else t.cells[r] == s.cells[r]
  {
    hide PutAll, PutChar, CursorDown, Forward, EraseToEos, EraseToEol;
    OneByte(s, 0x1A);
    HeightIs(s);
  }

  // ---- printing ----

  /** The cursor moved right, or from the last column to the start of the next line, where it can roll the screen. */
  ghost predicate Advanced(s: Screen, t: Screen)
    requires Valid(s)
  {
    var n := Height(s);
    if s.col < 79 then MovedTo(s, t, s.row, s.col + 1)
    else if s.row == n - 1 then RolledUp(s.cells, t.cells, 0, n) && t.row == s.row && t.col == 0
    else MovedTo(s, t, if s.row < n - 1 then s.row + 1 else s.row, 0)
  }

  /** `s` with one cell replaced, under the cursor. */
  function Typed(s: Screen, ch: bv8, attr: bv8): (t: Screen)
    requires Valid(s)
    ensures Valid(t)
  {
    s.(cells := s.cells[s.row := s.cells[s.row][s.col := Cell(ch, attr)]], dirty := s.dirty[s.row := true])
  }

  lemma ForwardIs(s: Screen)
    requires Valid(s)
    ensures Advanced(s, Forward(s)) && Forward(s).attr == s.attr
  {
    hide RolledUp, Grid, CursorDown;
    HeightIs(s);
    if s.col == 79 {
      DownIs(s.(col := 0));
    }
  }

  /** Down by a line. */
  lemma DownIs(s: Screen)
    requires Valid(s)
    ensures var t, n := CursorDown(s), Height(s);
            && t.attr == s.attr
            && if s.row == n - 1 then RolledUp(s.cells, t.cells, 0, n) && t.row == s.row && t.col == s.col
               else MovedTo(s, t, if s.row < n - 1 then s.row + 1 else s.row, s.col)
  {
    hide ScrollUp, RolledUp, Blank;
    HeightIs(s);
    ScrollIs(s);
  }

  lemma ScrollIs(s: Screen)
    requires Valid(s)
    ensures var t := ScrollUp(s);
            RolledUp(s.cells, t.cells, 0, Height(s)) && t.attr == s.attr && t.row == s.row && t.col == s.col
  {
    hide ShiftUp, RolledUp, Blank;
    HeightIs(s);
    ShiftUpIs(s.cells, 0, Height(s));
  }

  lemma PutCharIs(s: Screen, ch: bv8, attr: bv8)
    requires Valid(s)
    ensures var t := PutChar(s, ch, attr);
            Advanced(Typed(s, ch, attr), t) && t.attr == s.attr
  {
    hide Forward, Advanced;
    ForwardIs(Typed(s, ch, attr));
  }

  lemma PlainIs(s: Screen, ch: bv8)
    requires Valid(s) && s.escState == 0 && 0x20 <= ch <= 0x7E
    ensures Putc(s, ch) == PutChar(s, ch, s.attr)
  {
    hide PutChar, Control, HighByte, EscLead, EscArg, Valid;
    PlainByte(ch);
  }

  /** A printable byte goes into the cursor's cell with the current attribute and the cursor moves on; NUL goes there
      as 0x60, and ^L only moves. */
  lemma Prints(s: Screen, ch: bv8)
    requires Valid(s) && s.escState == 0 && 0x20 <= ch <= 0x7E
    ensures Advanced(Typed(s, ch, s.attr), PutAll(s, [ch])) && PutAll(s, [ch]).attr == s.attr
  {
    hide PutAll, Putc, PutChar, Advanced, Typed, Valid;
    OneByte(s, ch);
    PlainIs(s, ch);
    PutCharIs(s, ch, s.attr);
  }

  lemma NulAndForward(s: Screen)
    requires Valid(s) && s.escState == 0
    ensures Advanced(Typed(s, 0x60, s.attr), PutAll(s, [0x00]))
    ensures Advanced(s, PutAll(s, [0x0C]))
  {
    hide PutAll, PutChar, Typed, Forward;
    OneByte(s, 0x00);
    OneByte(s, 0x0C);
    PutCharIs(s, 0x60, s.attr);
    ForwardIs(s);
    assert Putc(s, 0x0C) == Forward(s).(moved := true);
  }

  predicate Inert(ch: bv8) {
    ch == 0x7F || 0x01 <= ch <= 0x07 || ch == 0x09 || 0x0E <= ch <= 0x16 || ch == 0x19 || ch == 0x1C || ch == 0x1D
    || ch == 0x1F
  }

  /** The other control bytes, tab and DEL among them, do nothing. */
  lemma Ignores(s: Screen, ch: bv8)
    requires Valid(s) && s.escState == 0 && Inert(ch)
    ensures PutAll(s, [ch]) == s
  {
    hide PutAll, PutChar, Forward, CursorDown, EraseToEos, EraseToEol, ClearScreen, SetCursor, HighByte;
    OneByte(s, ch);
    NotHigh(ch);
  }

  lemma NotHigh(ch: bv8)
    requires ch <= 0x7F
    ensures ch & 0x80 == 0
  {
  }

  function High(low: bv8): bv8 { 0x80 | low }

  /** Outside graphics mode a printable byte with bit 7 set is printed in reverse. */
  lemma PrintsReversed(s: Screen, low: bv8)
    requires Valid(s) && s.escState == 0 && !s.videoMode && 0x20 <= low <= 0x7E
    ensures Advanced(Typed(s, low, s.attr | 0x01), PutAll(s, [High(low)]))
  {
    hide PutAll, PutChar, Advanced, Typed, Valid, EscLead, EscArg, Control;
    OneByte(s, High(low));
    HighIs(low, s.attr);
    PutCharIs(s, low, s.attr | 0x01);
  }

  lemma HighIs(low: bv8, attr: bv8)
    requires low <= 0x7F
    ensures High(low) & 0x80 != 0 && Low7(High(low)) == low && GraphicsChar(High(low)) == High(low)
    ensures WithBit(attr, ATTR_REVERSE, true) == attr | 0x01
  {
  }

  /** In graphics mode two bytes with bit 7 set make one cell: seven pixels in the second, the eighth, bit 0 of the
      first, in bit 4 of the attribute. */
  lemma DrawsPair(s: Screen, a: bv8, b: bv8)
    requires Valid(s) && s.escState == 0 && s.videoMode && !s.gfxPending && a <= 0x7F && b <= 0x7F
    ensures Advanced(Typed(s.(gfxFirst := High(a)), High(b), if a % 2 == 1 then s.attr | 0x10 else s.attr & 0xEF),
                     PutAll(s, [High(a), High(b)]))
  {
    hide PutAll, PutChar, Advanced, Typed, Grid, EscLead, EscArg, Control;
    TwoBytes(s, High(a), High(b));
    HighIs(a, s.attr);
    HighIs(b, s.attr);
    PixelIs(s.attr, a);
    var s1 := s.(gfxPending := true, gfxFirst := High(a));
    assert Putc(s, High(a)) == s1;
    PutCharIs(s.(gfxFirst := High(a)), High(b), PixelAttr(s.attr, High(a)));
  }

  lemma PixelIs(attr: bv8, a: bv8)
    requires a <= 0x7F
    ensures PixelAttr(attr, High(a)) == if a % 2 == 1 then attr | 0x10 else attr & 0xEF
  {
  }

  // ---- escape sequences ----

  lemma TwoBytes(s: Screen, a: bv8, b: bv8)
    requires Valid(s)
    ensures Valid(Putc(s, a)) && PutAll(s, [a, b]) == Putc(Putc(s, a), b)
  {
    hide Putc;
    PutcKeeps(s, a);
    PutcKeeps(Putc(s, a), b);
    assert [a, b][1..] == [b] && [b][1..] == [];
    assert PutAll(Putc(Putc(s, a), b), []) == Putc(Putc(s, a), b);
    assert PutAll(Putc(s, a), [b]) == Putc(Putc(s, a), b);
  }

  lemma Escaped(s: Screen)
    requires Valid(s) && s.escState == 0
    ensures Putc(s, 0x1B) == s.(escState := 1)
  {
    hide PutChar, HighByte, CursorDown, Forward, EraseToEos, EraseToEol, ClearScreen, SetCursor, EscLead, EscArg;
  }

  lemma LineRuns(s: Screen)
    requires Valid(s) && s.escState == 0 && s.model == Model84
    ensures Valid(s.(escState := 1))
    ensures var s1 := s.(escState := 1);
            && Putc(s1, 0x52) == DeleteLine(s.(escLead := 0x52, escNeed := 0, escArgs := []))
            && Putc(s1, 0x45) == InsertLine(s.(escLead := 0x45, escNeed := 0, escArgs := []))
  {
    hide PutChar, HighByte, EscArg, Control, SetCursor, AttrSet, DeleteLine, InsertLine;
  }

  lemma DeletesLine(s: Screen)
    requires Valid(s)
    ensures var t, n := DeleteLine(s), Height(s);
            if s.row < n then RolledUp(s.cells, t.cells, s.row, n) && t.row == s.row && t.col == s.col else t == s
  {
    hide ShiftUp, RolledUp;
    HeightIs(s);
    if s.row < Height(s) {
      ShiftUpIs(s.cells, s.row, Height(s));
    }
  }

  lemma InsertsLine(s: Screen)
    requires Valid(s)
    ensures var t, n := InsertLine(s), Height(s);
            if s.row < n then RolledDown(s.cells, t.cells, s.row, n) && t.row == s.row && t.col == s.col else t == s
  {
    hide ShiftDown, RolledDown;
    HeightIs(s);
    if s.row < Height(s) {
      ShiftDownIs(s.cells, s.row, Height(s));
    }
  }

  /** ESC R deletes the cursor's line and ESC E inserts one there, on the lines that scroll. */
  lemma Lines(s: Screen)
    requires Valid(s) && s.escState == 0 && s.model == Model84
    ensures var d, i, n := PutAll(s, [0x1B, 0x52]), PutAll(s, [0x1B, 0x45]), Height(s);
            if s.row < n then
              RolledUp(s.cells, d.cells, s.row, n) && d.row == s.row && d.col == s.col
              && RolledDown(s.cells, i.cells, s.row, n) && i.row == s.row && i.col == s.col
            else MovedTo(s, d, s.row, s.col) && MovedTo(s, i, s.row, s.col)
  {
    hide PutAll, Putc, DeleteLine, InsertLine, RolledUp, RolledDown;
    TwoBytes(s, 0x1B, 0x52);
    TwoBytes(s, 0x1B, 0x45);
    Escaped(s);
    LineRuns(s);
    HeightIs(s);
    DeletesLine(s.(escLead := 0x52, escNeed := 0, escArgs := []));
    InsertsLine(s.(escLead := 0x45, escNeed := 0, escArgs := []));
  }

  predicate Known(model: Model, lead: bv8) {
    lead == 0x3D
    || (model == Model84
       && (lead == 0x42 || lead == 0x43 || lead == 0x52 || lead == 0x45 || lead == 0x41 || lead == 0x2A
                             || lead == 0x20 || lead == 0x4C || lead == 0x44))
  }

  /** ESC and a byte that starts no sequence on this model leave no trace. */
  lemma Drops(s: Screen, lead: bv8)
    requires Valid(s) && s.escState == 0 && !Known(s.model, lead)
    ensures PutAll(s, [0x1B, lead]) == s
  {
    hide PutAll, Control, PutChar, HighByte, EscArg, EscRun;
    TwoBytes(s, 0x1B, lead);
    Escaped(s);
  }

  /** Arguments of the graphics sequences: ESC A takes none, ESC * and ESC space two, ESC L and ESC D four. */
  function Drawn(lead: bv8): int {
    if lead == 0x41 then 0 else if lead == 0x2A || lead == 0x20 then 2 else if lead == 0x4C || lead == 0x44 then 4
        else -1
  }

  /** The graphics sequences are read to their last argument, whatever the bytes are, and draw nothing. */
  lemma Swallows(s: Screen, lead: bv8, args: seq<bv8>)
    requires Valid(s) && s.escState == 0 && s.model == Model84 && |args| == Drawn(lead)
    ensures var t := PutAll(s, [0x1B, lead] + args);
            MovedTo(s, t, s.row, s.col) && t.escState == 0 && t.attr == s.attr
  {
    hide PutAll, Putc;
    TwoBytes(s, 0x1B, lead);
    Escaped(s);
    var t := Putc(s.(escState := 1), lead);
    DrawLead(s.(escState := 1), lead);
    PutAllAppend(s, [0x1B, lead], args);
    if args == [] {
      assert PutAll(t, args) == t by { PutNone(t); }
    } else {
      ArgsSwallowed(t, args);
    }
  }

  lemma {:induction false} PutAllAppend(s: Screen, a: seq<bv8>, b: seq<bv8>)
    requires Valid(s)
    ensures PutAll(s, a + b) == PutAll(PutAll(s, a), b)
    decreases |a|
  {
    hide Putc;
    if a == [] {
      assert a + b == b;
    } else {
      PutcKeeps(s, a[0]);
      assert (a + b)[0] == a[0] && (a + b)[1..] == a[1..] + b;
      PutAllAppend(Putc(s, a[0]), a[1..], b);
    }
  }

  lemma PutNone(s: Screen)
    requires Valid(s)
    ensures PutAll(s, []) == s
  {
  }

  lemma DrawLead(s: Screen, lead: bv8)
    requires Valid(s) && s.escState == 1 && s.model == Model84 && Drawn(lead) >= 0
    ensures var n := Drawn(lead);
            Putc(s, lead) == s.(escLead := lead, escNeed := n, escArgs := [], escState := if n == 0 then 0 else 2)
  {
    hide Control, PutChar, HighByte, EscArg, SetCursor, AttrSet, DeleteLine, InsertLine;
  }

  lemma DrawArg(s: Screen, ch: bv8)
    requires Valid(s) && s.escState == 2 && s.model == Model84 && Drawn(s.escLead) >= 0
    ensures Putc(s, ch) == s.(escNeed := s.escNeed - 1, escArgs := s.escArgs + [ch],
                              escState := if s.escNeed == 1 then 0 else 2)
  {
    hide Control, PutChar, HighByte, EscLead, SetCursor, AttrSet, DeleteLine, InsertLine;
  }

  lemma {:induction false} ArgsSwallowed(s: Screen, args: seq<bv8>)
    requires Valid(s) && s.escState == 2 && s.model == Model84 && Drawn(s.escLead) >= 0 && |args| == s.escNeed
    ensures var t := PutAll(s, args);
            MovedTo(s, t, s.row, s.col) && t.escState == 0 && t.attr == s.attr
    decreases |args|
  {
    hide Putc;
    DrawArg(s, args[0]);
    PutcKeeps(s, args[0]);
    var t := Putc(s, args[0]);
    if |args| == 1 {
      assert args[1..] == [];
    } else {
      ArgsSwallowed(t, args[1..]);
    }
  }

  /** ESC B n switches something on and ESC C n off: 0 reverse, 1 dim, 2 blink, 3 underline, 4 the cursor, 5 graphics, 7
      keeping the status line; no cell changes and the cursor stays. */
  lemma Switches(s: Screen, on: bool, n: bv8)
    requires Valid(s) && s.escState == 0 && s.model == Model84 && 0x30 <= n <= 0x37 && n != 0x36
    ensures Switched(s, PutAll(s, [0x1B, if on then 0x42 else 0x43, n]), n, on)
  {
    hide PutAll, Putc, AttrSet, Switched;
    var lead: bv8 := if on then 0x42 else 0x43;
    ThreeBytes(s, 0x1B, lead, n);
    Escaped(s);
    var s1 := s.(escState := 1);
    LeadRuns(s1, lead);
    var s2 := s1.(escLead := lead, escNeed := 1, escArgs := [], escState := 2);
    var s3 := s2.(escArgs := [n], escNeed := 0, escState := 0);
    ArgRuns(s2, n, on);
    SwitchIs(s3, n, on);
    SwitchedFrom(s, s3, AttrSet(s3, n, on), n, on);
  }

  lemma LeadRuns(s: Screen, lead: bv8)
    requires Valid(s) && s.escState == 1 && s.model == Model84 && (lead == 0x42 || lead == 0x43)
    ensures Putc(s, lead) == s.(escLead := lead, escNeed := 1, escArgs := [], escState := 2)
  {
    hide Control, PutChar, HighByte, EscArg, EscRun;
  }

  lemma ArgRuns(s: Screen, n: bv8, on: bool)
    requires Valid(s) && s.escState == 2 && s.model == Model84 && s.escNeed == 1 && s.escArgs == []
    requires s.escLead == if on then 0x42 else 0x43
    ensures Putc(s, n) == AttrSet(s.(escArgs := [n], escNeed := 0, escState := 0), n, on)
  {
    hide Control, PutChar, HighByte, EscLead, SetCursor, AttrSet, DeleteLine, InsertLine;
    assert s.escArgs + [n] == [n];
  }

  predicate Bit8(v: bv8, mask: bv8) { v & mask != 0 }

  predicate Switched(s: Screen, t: Screen, n: bv8, on: bool) {
    && MovedTo(s, t, s.row, s.col) && t.escState == 0
    && t.visible == (if n == 0x34 then on else s.visible)
    && t.videoMode == (if n == 0x35 then on else s.videoMode)
    && t.preserve == (if n == 0x37 then on else s.preserve)
    && BitsAre(t.attr, s.attr, n, on)
  }

  lemma SwitchedFrom(s: Screen, m: Screen, t: Screen, n: bv8, on: bool)
    requires Switched(m, t, n, on)
    requires m == s.(escLead := m.escLead, escNeed := m.escNeed, escArgs := m.escArgs, escState := m.escState)
    ensures Switched(s, t, n, on)
  {
    hide BitsAre;
  }

  lemma SwitchIs(s: Screen, n: bv8, on: bool)
    requires 0x30 <= n <= 0x37 && n != 0x36 && s.escState == 0
    ensures Switched(s, AttrSet(s, n, on), n, on)
  {
    hide WithBit, AttrBit, BitsAre;
    if n <= 0x33 {
      BitEffect(s.attr, n, on);
    } else {
      SameBits(s.attr, n, on);
      assert n == 0x34 || n == 0x35 || n == 0x37;
    }
  }

  predicate BitsAre(t: bv8, s: bv8, n: bv8, on: bool) {
    && Bit8(t, 0x01) == (if n == 0x30 then on else Bit8(s, 0x01))
    && Bit8(t, 0x02) == (if n == 0x31 then on else Bit8(s, 0x02))
    && Bit8(t, 0x04) == (if n == 0x32 then on else Bit8(s, 0x04))
    && Bit8(t, 0x08) == (if n == 0x33 then on else Bit8(s, 0x08))
  }

  lemma BitEffect(attr: bv8, n: bv8, on: bool)
    requires 0x30 <= n <= 0x33
    ensures BitsAre(WithBit(attr, AttrBit(n), on), attr, n, on)
  {
  }

  lemma SameBits(attr: bv8, n: bv8, on: bool)
    requires n > 0x33
    ensures BitsAre(attr, attr, n, on)
  {
  }
}
