/** What guests rely on the screen for (kaypro/kaypro_video.c): text lands where the cursor is, cursor addressing,
    wrapping and scrolling, line insertion and deletion. */
module VideoText {
  import opened Bits
  import opened Video

  predicate PlainText(text: seq<bv8>) { forall i :: 0 <= i < |text| ==> 0x20 <= text[i] < 0x7F }

  /** A row with `text` written over it from column `col`. */
  function Typed(row: Row, col: int, text: seq<bv8>, attr: bv8): (r: Row)
    requires |row| == KV_COLS && 0 <= col && col + |text| <= KV_COLS
    ensures |r| == KV_COLS
  {
    seq(KV_COLS, c requires 0 <= c < KV_COLS => if col <= c < col + |text| then Cell(text[c - col], attr) else row[c])
  }

  lemma PlainByte(ch: bv8)
    requires 0x20 <= ch < 0x7F
    ensures ch & 0x80 == 0 && !(ch < 0x20) && ch != 0x7F
  {
  }

  lemma TypeOne(s: Screen, ch: bv8)
    requires Valid(s) && s.escState == 0 && 0x20 <= ch < 0x7F && s.col < KV_COLS - 1
    ensures var t := Putc(s, ch);
            t == s.(cells := s.cells[s.row := s.cells[s.row][s.col := Cell(ch, s.attr)]],
                dirty := s.dirty[s.row := true], col := s.col + 1, moved := true)
  {
    hide EscLead, EscArg, HighByte, Control;
    PlainByte(ch);
  }

  lemma TypedCons(row: Row, col: int, text: seq<bv8>, attr: bv8)
    requires |row| == KV_COLS && 0 <= col && text != [] && col + |text| <= KV_COLS
    ensures Typed(row[col := Cell(text[0], attr)], col + 1, text[1..], attr) == Typed(row, col, text, attr)
  {
  }

  /** Plain text that fits the line goes into consecutive cells with the current attribute, and nothing else changes. */
  lemma {:induction false} TextLands(s: Screen, text: seq<bv8>)
    requires Valid(s) && s.escState == 0 && PlainText(text) && s.col + |text| < KV_COLS
    ensures var t := PutAll(s, text);
            && t.cells == s.cells[s.row := Typed(s.cells[s.row], s.col, text, s.attr)]
            && t.row == s.row && t.col == s.col + |text| && t.attr == s.attr
    decreases |text|
  {
    hide Putc;
    if text == [] {
      assert Typed(s.cells[s.row], s.col, text, s.attr) == s.cells[s.row];
    } else {
      TypeOne(s, text[0]);
      PutcKeeps(s, text[0]);
      var t := Putc(s, text[0]);
      TextLands(t, text[1..]);
      TypedCons(s.cells[s.row], s.col, text, s.attr);
      var row := s.cells[s.row][s.col := Cell(text[0], s.attr)];
      assert t.cells[s.row] == row;
      assert t.cells[s.row := Typed(row, s.col + 1, text[1..], s.attr)]
          == s.cells[s.row := Typed(s.cells[s.row], s.col, text, s.attr)];
    }
  }

  /** A character in the last cell of the scrolling region ends up one row higher, with a blank line below it and the
      cursor at its start. */
  lemma LastCellScrolls(s: Screen, ch: bv8)
    requires Valid(s) && s.escState == 0 && 0x20 <= ch < 0x7F && s.col == KV_COLS - 1 && s.row == ScrollRows(s) - 1
    ensures var t := Putc(s, ch);
            && t.row == s.row && t.col == 0 && t.cells[s.row] == BlankRow()
            && t.cells[s.row - 1] == s.cells[s.row][s.col := Cell(ch, s.attr)]
            && (forall r :: 0 <= r < s.row - 1 ==> t.cells[r] == s.cells[r + 1])
            && forall r :: s.row < r < KV_ROWS ==> t.cells[r] == s.cells[r]
  {
    hide Putc, Grid;
    LastCellIs(s, ch);
    var cells := s.cells[s.row := s.cells[s.row][s.col := Cell(ch, s.attr)]];
    var up := ShiftUp(cells, 0, s.row + 1);
    assert up[s.row - 1] == cells[s.row] && up[s.row] == BlankRow();
    forall r | 0 <= r < s.row - 1 ensures up[r] == s.cells[r + 1] {
      assert up[r] == cells[r + 1];
    }
  }

  lemma LastCellIs(s: Screen, ch: bv8)
    requires Valid(s) && s.escState == 0 && 0x20 <= ch < 0x7F && s.col == KV_COLS - 1 && s.row == ScrollRows(s) - 1
    ensures |s.cells| == KV_ROWS && |s.cells[s.row]| == KV_COLS && 23 <= s.row <= 24
    ensures var t := Putc(s, ch);
            t.cells == ShiftUp(s.cells[s.row := s.cells[s.row][s.col := Cell(ch, s.attr)]], 0, s.row + 1)
                && t.row == s.row && t.col == 0
  {
    hide EscLead, EscArg, HighByte, Control, ShiftUp;
    PlainByte(ch);
  }

  /** ESC = row col puts the cursor at any cell the model can address. */
  lemma CursorAddressed(s: Screen, r: int, c: int)
    requires Valid(s) && s.escState == 0 && 0 <= r <= MaxRow(s) && 0 <= c < KV_COLS
    ensures var t := PutAll(s, [0x1B, 0x3D, (r + 0x20) as bv8, (c + 0x20) as bv8]);
            t.row == r && t.col == c && t.cells == s.cells && t.escState == 0
  {
    hide HighByte, PutChar;
    var y, x := (r + 0x20) as bv8, (c + 0x20) as bv8;
    ByteOf(r + 0x20);
    ByteOf(c + 0x20);
    var s1 := Putc(s, 0x1B);
    assert s1 == s.(escState := 1);
    var s2 := Putc(s1, 0x3D);
    assert s2 == s1.(escLead := 0x3D, escNeed := 2, escArgs := [], escState := 2);
    var s3 := Putc(s2, y);
    assert s3 == s2.(escArgs := [] + [y], escNeed := 1);
    var s4 := Putc(s3, x);
    assert s3.escArgs + [x] == [y, x];
    assert s4.row == r && s4.col == c && s4.cells == s.cells && s4.escState == 0;
    FourBytes(s, 0x1B, 0x3D, y, x);
  }

  lemma FourBytes(s: Screen, a: bv8, b: bv8, c: bv8, d: bv8)
    requires Valid(s)
    ensures Valid(Putc(s, a)) && Valid(Putc(Putc(s, a), b)) && Valid(Putc(Putc(Putc(s, a), b), c))
    ensures PutAll(s, [a, b, c, d]) == Putc(Putc(Putc(Putc(s, a), b), c), d)
  {
    hide Putc;
    PutcKeeps(s, a);
    PutcKeeps(Putc(s, a), b);
    PutcKeeps(Putc(Putc(s, a), b), c);
    PutcKeeps(Putc(Putc(Putc(s, a), b), c), d);
    assert [a, b, c, d][1..] == [b, c, d] && [b, c, d][1..] == [c, d] && [c, d][1..] == [d] && [d][1..] == [];
    assert PutAll(Putc(Putc(Putc(Putc(s, a), b), c), d), []) == Putc(Putc(Putc(Putc(s, a), b), c), d);
    assert PutAll(Putc(Putc(Putc(s, a), b), c), [d]) == Putc(Putc(Putc(Putc(s, a), b), c), d);
    assert PutAll(Putc(Putc(s, a), b), [c, d]) == Putc(Putc(Putc(Putc(s, a), b), c), d);
    assert PutAll(Putc(s, a), [b, c, d]) == Putc(Putc(Putc(Putc(s, a), b), c), d);
  }

  lemma ShiftsUndo(cells: seq<Row>, from: int, n: int, r: int)
    requires 0 <= from < n <= |cells| == KV_ROWS && 0 <= r < KV_ROWS
    ensures ShiftUp(ShiftDown(cells, from, n), from, n)[r] == if r == n - 1 then BlankRow() else cells[r]
  {
    hide BlankRow;
    var down := ShiftDown(cells, from, n);
    var up := ShiftUp(down, from, n);
    if from <= r < n - 1 {
      assert up[r] == down[r + 1];
    }
  }

  /** Deleting the line just inserted restores every row but the one pushed off the bottom. */
  lemma DeleteUndoesInsert(s: Screen, r: int)
    requires Valid(s) && s.row < ScrollRows(s) && 0 <= r < KV_ROWS
    ensures Valid(InsertLine(s))
    ensures DeleteLine(InsertLine(s)).cells[r] == if r == ScrollRows(s) - 1 then BlankRow() else s.cells[r]
  {
    hide ShiftUp, ShiftDown;
    InsertKeeps(s);
    ShiftsUndo(s.cells, s.row, ScrollRows(s), r);
  }

  // ---- saving the cursor ----

  /** This byte completes ESC B 6. */
  predicate Saves(s: Screen, ch: bv8) { s.escState == 2 && s.escLead == 0x42 && ch == 0x36 }

  predicate SameSaved(s: Screen, t: Screen) { t.savedRow == s.savedRow && t.savedCol == s.savedCol
                      && t.model == s.model }

  /** Only the saved cursor and the escape state matter here. */
  predicate SameEsc(s: Screen, t: Screen) { SameSaved(s, t) && t.escState == s.escState }

  lemma DownKeepsSaved(s: Screen)
    requires Shaped(s)
    ensures SameEsc(s, CursorDown(s))
  {
    hide ShiftUp;
  }

  lemma ForwardKeepsSaved(s: Screen)
    requires Shaped(s)
    ensures SameEsc(s, Forward(s))
  {
    hide CursorDown, Grid;
    DownKeepsSaved(s.(col := 0));
  }

  lemma PutCharKeepsSaved(s: Screen, ch: bv8, attr: bv8)
    requires Valid(s)
    ensures SameEsc(s, PutChar(s, ch, attr))
  {
    hide Forward;
    var row := s.cells[s.row][s.col := Cell(ch, attr)];
    ForwardKeepsSaved(s.(cells := s.cells[s.row := row], dirty := s.dirty[s.row := true]));
  }

  lemma ErasesKeepSaved(s: Screen)
    requires Valid(s)
    ensures SameEsc(s, EraseToEol(s)) && SameEsc(s, EraseToEos(s)) && SameEsc(s, ClearScreen(s))
  {
    hide BlankFrom, BlankRows;
  }

  /** Controls that only move the cursor or start a sequence. */
  lemma MoveKeepsSaved(s: Screen, ch: bv8)
    requires Valid(s) && s.escState == 0 && ch < 0x20 && ch !in {0x00, 0x0A, 0x0C, 0x17, 0x18, 0x1A}
    ensures SameSaved(s, Control(s, ch)) && (Control(s, ch).escState == if ch == 0x1B then 1 else 0)
  {
    hide PutChar, CursorDown, Forward, EraseToEol, EraseToEos, ClearScreen, Grid, EscArity, MaxRow;
  }

  lemma ControlKeepsSaved(s: Screen, ch: bv8)
    requires Valid(s) && s.escState == 0 && ch < 0x20
    ensures SameSaved(s, Control(s, ch)) && (Control(s, ch).escState == if ch == 0x1B then 1 else 0)
  {
    hide PutChar, CursorDown, Forward, EraseToEol, EraseToEos, ClearScreen, Grid, EscArity, MaxRow, SetCursor;
    if ch == 0x00 {
      PutCharKeepsSaved(s, 0x60, s.attr);
    } else if ch == 0x0A {
      DownKeepsSaved(s);
    } else if ch == 0x0C {
      ForwardKeepsSaved(s);
    } else if ch == 0x17 || ch == 0x18 || ch == 0x1A {
      ErasesKeepSaved(s);
    } else {
      MoveKeepsSaved(s, ch);
    }
  }

  lemma HighByteKeepsSaved(s: Screen, ch: bv8)
    requires Valid(s)
    ensures SameEsc(s, HighByte(s, ch))
  {
    hide PutChar, Grid, EscArity, WithBit, PixelAttr;
    PutCharKeepsSaved(s, Low7(ch), WithBit(s.attr, ATTR_REVERSE, true));
    PutCharKeepsSaved(s, ch, s.attr);
    PutCharKeepsSaved(s.(gfxPending := false), GraphicsChar(ch), PixelAttr(s.attr, s.gfxFirst));
  }

  lemma LinesKeepSaved(s: Screen)
    requires Valid(s)
    ensures SameEsc(s, DeleteLine(s)) && SameEsc(s, InsertLine(s))
  {
    hide ShiftUp, ShiftDown;
  }

  lemma AttrKeepsSaved(s: Screen, n: bv8, on: bool)
    requires !(n == 0x36 && on)
    ensures SameEsc(s, AttrSet(s, n, on))
  {
    hide WithBit, AttrBit;
  }

  lemma RunKeepsSaved(s: Screen, lead: bv8, args: seq<bv8>)
    requires Valid(s) && |args| == EscArity(s.model, lead) && !(lead == 0x42 && args[0] == 0x36)
    ensures SameEsc(s, EscRun(s, lead, args))
  {
    hide DeleteLine, InsertLine, AttrSet, Grid, MaxRow;
    LinesKeepSaved(s);
    if lead == 0x42 || lead == 0x43 {
      AttrKeepsSaved(s, args[0], lead == 0x42);
    }
  }

  /** What a byte does to the saved cursor, and what the escape state then says about the byte. */
  predicate Tracks(s: Screen, ch: bv8, t: Screen) {
    && (!Saves(s, ch) ==> SameSaved(s, t))
    && (t.escState == 1 ==> ch == 0x1B)
    && (t.escState == 2 && t.escLead == 0x42 ==> s.escState == 1 && ch == 0x42)
  }

  lemma LeadTracks(s: Screen, ch: bv8)
    requires Valid(s) && s.escState == 1
    ensures Tracks(s, ch, EscLead(s, ch))
  {
    hide EscRun, Grid;
    if EscArity(s.model, ch) == 0 {
      RunKeepsSaved(s.(escState := 0, escLead := ch, escNeed := 0, escArgs := []), ch, []);
    }
  }

  lemma ArgTracks(s: Screen, ch: bv8)
    requires Valid(s) && s.escState == 2
    ensures Tracks(s, ch, EscArg(s, ch))
  {
    hide EscRun, Grid;
    var s1 := s.(escArgs := s.escArgs + [ch], escNeed := s.escNeed - 1, escState := 0);
    if s.escNeed == 1 {
      if Saves(s, ch) {
        SaveRuns(s1);
      } else {
        RunKeepsSaved(s1, s.escLead, s1.escArgs);
      }
    }
  }

  lemma ByteTracks(s: Screen, ch: bv8)
    requires Valid(s)
    ensures Tracks(s, ch, Putc(s, ch))
  {
    hide PutChar, Control, HighByte, EscLead, EscArg, Grid;
    if s.escState == 1 {
      LeadTracks(s, ch);
    } else if s.escState == 2 {
      ArgTracks(s, ch);
    } else if ch & 0x80 != 0 {
      HighByteKeepsSaved(s, ch);
    } else if ch < 0x20 {
      ControlKeepsSaved(s, ch);
    } else {
      PutCharKeepsSaved(s, ch, s.attr);
    }
  }

  lemma SaveRuns(s: Screen)
    requires Valid(s) && s.model == Model84 && s.escArgs == [0x36]
    ensures EscRun(s, 0x42, s.escArgs) == s.(savedRow := s.row, savedCol := s.col)
  {
  }

  /** No ESC B 6 anywhere. */
  predicate NoSave(bytes: seq<bv8>) {
    forall i :: 0 <= i < |bytes| - 2 ==> !(bytes[i] == 0x1B && bytes[i + 1] == 0x42 && bytes[i + 2] == 0x36)
  }

  /** The bytes of a sequence under way that may still become ESC B 6. */
  function Begun(s: Screen): seq<bv8> {
    if s.escState == 1 then [0x1B] else if s.escState == 2 && s.escLead == 0x42 then [0x1B, 0x42] else []
  }

  lemma NoSaveRest(a: seq<bv8>, b: seq<bv8>)
    requires NoSave(a + b)
    ensures NoSave(b)
  {
    forall i | 0 <= i < |b| - 2 ensures !(b[i] == 0x1B && b[i + 1] == 0x42 && b[i + 2] == 0x36) {
      assert (a + b)[|a| + i] == b[i] && (a + b)[|a| + i + 1] == b[i + 1] && (a + b)[|a| + i + 2] == b[i + 2];
    }
  }

  lemma {:induction false} StreamKeepsSaved(s: Screen, bytes: seq<bv8>)
    requires Valid(s) && NoSave(Begun(s) + bytes)
    ensures SameSaved(s, PutAll(s, bytes))
    decreases |bytes|
  {
    hide Putc, Valid, NoSave;
    if bytes != [] {
      var ch, rest := bytes[0], bytes[1..];
      PutcKeeps(s, ch);
      ByteTracks(s, ch);
      var t := Putc(s, ch);
      var all := Begun(s) + bytes;
      if Saves(s, ch) {
        SaveFound(all);
      }
      if t.escState == 2 && t.escLead == 0x42 {
        assert all == [] + (Begun(t) + rest);
        NoSaveRest([], Begun(t) + rest);
      } else if t.escState == 1 {
        assert all == Begun(s) + (Begun(t) + rest);
        NoSaveRest(Begun(s), Begun(t) + rest);
      } else {
        assert all == (Begun(s) + [ch]) + (Begun(t) + rest);
        NoSaveRest(Begun(s) + [ch], Begun(t) + rest);
      }
      StreamKeepsSaved(t, rest);
    }
  }

  lemma SaveFound(bytes: seq<bv8>)
    requires |bytes| >= 3 && bytes[0] == 0x1B && bytes[1] == 0x42 && bytes[2] == 0x36
    ensures !NoSave(bytes)
  {
  }

  lemma ThreeBytes(s: Screen, a: bv8, b: bv8, c: bv8)
    requires Valid(s)
    ensures Valid(Putc(s, a)) && Valid(Putc(Putc(s, a), b))
    ensures PutAll(s, [a, b, c]) == Putc(Putc(Putc(s, a), b), c)
  {
    hide Putc;
    PutcKeeps(s, a);
    PutcKeeps(Putc(s, a), b);
    PutcKeeps(Putc(Putc(s, a), b), c);
    assert [a, b, c][1..] == [b, c] && [b, c][1..] == [c] && [c][1..] == [];
    assert PutAll(Putc(Putc(Putc(s, a), b), c), []) == Putc(Putc(Putc(s, a), b), c);
    assert PutAll(Putc(Putc(s, a), b), [c]) == Putc(Putc(Putc(s, a), b), c);
    assert PutAll(Putc(s, a), [b, c]) == Putc(Putc(Putc(s, a), b), c);
  }

  /** ESC B 6 remembers the cursor, and ESC C 6 goes back to it. */
  lemma SaveAndRestore(s: Screen, lead: bv8)
    requires Valid(s) && s.escState == 0 && s.model == Model84 && (lead == 0x42 || lead == 0x43)
    ensures var t := PutAll(s, [0x1B, lead, 0x36]);
            && t.escState == 0 && t.cells == s.cells && t.model == s.model
            && (lead == 0x42 ==> t.savedRow == s.row && t.savedCol == s.col)
            && (lead == 0x43 && 0 <= s.savedRow <= MaxRow(s) && 0 <= s.savedCol < KV_COLS ==>
                  t.row == s.savedRow && t.col == s.savedCol)
  {
    hide HighByte, PutChar, WithBit, AttrBit, PutAll;
    ThreeBytes(s, 0x1B, lead, 0x36);
    var s1 := Putc(s, 0x1B);
    assert s1 == s.(escState := 1);
    var s2 := Putc(s1, lead);
    assert s2 == s1.(escLead := lead, escNeed := 1, escArgs := [], escState := 2);
    assert s2.escArgs + [0x36] == [0x36];
  }

  /** ESC C 6 returns to where ESC B 6 was given, whatever the guest sent in between, so long as that holds no other
      ESC B 6 and does not end inside a sequence. */
  lemma CursorReturns(s: Screen, text: seq<bv8>, there: Screen)
    requires Valid(s) && s.escState == 0 && s.model == Model84 && NoSave(text)
    requires there == PutAll(PutAll(s, [0x1B, 0x42, 0x36]), text) && there.escState == 0
    ensures var t := PutAll(there, [0x1B, 0x43, 0x36]);
            t.row == s.row && t.col == s.col && t.cells == there.cells
  {
    hide PutAll, NoSave;
    SaveAndRestore(s, 0x42);
    var saved := PutAll(s, [0x1B, 0x42, 0x36]);
    assert Begun(saved) + text == text;
    PutAllValid(s, [0x1B, 0x42, 0x36]);
    PutAllValid(saved, text);
    StreamKeepsSaved(saved, text);
    SaveAndRestore(there, 0x43);
  }

  lemma PutAllValid(s: Screen, bytes: seq<bv8>)
    requires Valid(s)
    ensures Valid(PutAll(s, bytes))
  {
  }
}
