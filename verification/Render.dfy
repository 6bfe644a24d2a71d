/** The diffing terminal painter (kaypro/kaypro_render_tty.c) against an abstract terminal: after a flush the
    terminal shows exactly the screen. */
module Render {
  import opened Video
  import opened DisplayState

  // ---- what a cell looks like ----

  /** A character as the terminal shows it: a code point, and the style it was drawn in. */
  datatype Look = Look(glyph: int, style: Style)

  datatype Style = Style(dim: bool, underline: bool, blink: bool, reverse: bool)

  const PLAIN := Style(false, false, false, false)

  /** Braille dots of a graphics character. */
  function Dots(g: bv8, pixel7: bool): bv8 {
    (if pixel7 then 0x40 else 0) | (if g & 0x02 != 0 then 0x01 else 0) | (if g & 0x08 != 0 then 0x02 else 0)
    | (if g & 0x20 != 0 then 0x04 else 0) | (if g & 0x01 != 0 then 0x08 else 0) | (if g & 0x04 != 0 then 0x10 else 0)
    | (if g & 0x10 != 0 then 0x20 else 0) | (if g & 0x40 != 0 then 0x80 else 0)
  }

  /** put_cell_char. */
  function Glyph(ch: bv8, attr: bv8): int {
    if ch & 0x80 != 0 then 0x2800 + Dots(ch, attr & ATTR_PIXEL7 != 0) as int
    else if 0x20 <= ch < 0x7F then ch as int
    else 0x3F
  }

  /** The attribute bits that are a style: pixel 7 is not. */
  function StyleBits(attr: bv8): bv8 { attr & !ATTR_PIXEL7 }

  /** The style of attribute bits. */
  function Sgr(bits: bv8): Style {
    Style(bits & ATTR_DIM != 0, bits & ATTR_UNDERLINE != 0, bits & ATTR_BLINK != 0, bits & ATTR_REVERSE != 0)
  }

  /** emit_attr: the parameters of the escape sequence, a reset first. */
  function SgrCodes(bits: bv8): seq<int> {
    [0] + (if bits & ATTR_DIM != 0 then [2] else []) + (if bits & ATTR_UNDERLINE != 0 then [4] else [])
    + (if bits & ATTR_BLINK != 0 then [5] else []) + (if bits & ATTR_REVERSE != 0 then [7] else [])
  }

  /** What a terminal makes of such parameters: 0 resets, 2, 4, 5 and 7 switch something on (ECMA-48, section
      8.3.117). */
  function StyleOf(codes: seq<int>): Style {
    if codes == [] then PLAIN
    else
      var s, c := StyleOf(codes[..|codes| - 1]), codes[|codes| - 1];
      if c == 0 then PLAIN else if c == 2 then s.(dim := true) else if c == 4 then s.(underline := true)
      else if c == 5 then s.(blink := true) else if c == 7 then s.(reverse := true) else s
  }

  lemma OneCode(codes: seq<int>, c: int)
    ensures var s := StyleOf(codes);
            StyleOf(codes + [c])
            == if c == 0 then PLAIN else if c == 2 then s.(dim := true) else if c == 4 then s.(underline := true)
               else if c == 5 then s.(blink := true) else if c == 7 then s.(reverse := true) else s
  {
    assert (codes + [c])[..|codes|] == codes;
  }

  /** The sequence for an attribute switches on exactly its bits. */
  lemma CodesMean(bits: bv8)
    ensures StyleOf(SgrCodes(bits)) == Sgr(bits) && SgrCodes(0) == [0]
  {
    hide StyleOf;
    var dim, line, blink, back := bits & ATTR_DIM != 0, bits & ATTR_UNDERLINE != 0, bits & ATTR_BLINK != 0,
        bits & ATTR_REVERSE != 0;
    var a: seq<int> := [0];
    OneCode([], 0);
    assert [] + a == a;
    var b := if dim then a + [2] else a;
    OneCode(a, 2);
    var c := if line then b + [4] else b;
    OneCode(b, 4);
    var d := if blink then c + [5] else c;
    OneCode(c, 5);
    var e := if back then d + [7] else d;
    OneCode(d, 7);
    assert SgrCodes(bits) == e;
    NoCodes();
  }

  lemma NoCodes()
    ensures SgrCodes(0) == [0]
  {
    assert [0] + [] + [] + [] + [] == [0];
  }

  function Shown(c: Cell): Look { Look(Glyph(c.ch, c.attr), Sgr(StyleBits(c.attr))) }

  const BLANK := Look(0x20, PLAIN)

  lemma BlankShown()
    ensures Shown(Cell(0x20, 0)) == BLANK && Sgr(0) == PLAIN
  {
  }

  /** What the user sees of a cell, by its bytes: a printable character as itself, a graphics character as a braille
      pattern with a dot for each pixel, anything else as a question mark; and each of the four attributes. */
  ghost predicate Depicts(l: Look, c: Cell) {
    && (0x20 <= c.ch <= 0x7E ==> l.glyph == c.ch as int)
    && (c.ch >= 0x80 ==> 0x2800 <= l.glyph <= 0x28FF && Braille((l.glyph - 0x2800) as bv8, c.ch, c.attr & 0x10 != 0))
    && (c.ch < 0x20 || c.ch == 0x7F ==> l.glyph == '?' as int)
    && (l.style.reverse <==> c.attr & 0x01 != 0) && (l.style.dim <==> c.attr & 0x02 != 0)
    && (l.style.blink <==> c.attr & 0x04 != 0) && (l.style.underline <==> c.attr & 0x08 != 0)
  }

  /** Dots 1 2 3 7 down the left are pixels 1 3 5 7, dots 4 5 6 8 down the right pixels 0 2 4 6. */
  predicate Braille(dots: bv8, g: bv8, pixel7: bool) {
    && (dots & 0x01 != 0 <==> g & 0x02 != 0) && (dots & 0x08 != 0 <==> g & 0x01 != 0)
    && (dots & 0x02 != 0 <==> g & 0x08 != 0) && (dots & 0x10 != 0 <==> g & 0x04 != 0)
    && (dots & 0x04 != 0 <==> g & 0x20 != 0) && (dots & 0x20 != 0 <==> g & 0x10 != 0)
    && (dots & 0x40 != 0 <==> pixel7) && (dots & 0x80 != 0 <==> g & 0x40 != 0)
  }

  lemma DotsAreBraille(g: bv8, pixel7: bool)
    ensures Braille(Dots(g, pixel7), g, pixel7)
  {
  }

  lemma CodePointBack(d: bv8)
    ensures 0 <= d as int <= 0xFF && (d as int) as bv8 == d
  {
  }

  lemma StyleKept(attr: bv8)
    ensures var s := Sgr(StyleBits(attr));
            && (s.reverse <==> attr & 0x01 != 0) && (s.dim <==> attr & 0x02 != 0)
            && (s.blink <==> attr & 0x04 != 0) && (s.underline <==> attr & 0x08 != 0)
  {
  }

  lemma GraphicsGlyph(ch: bv8, attr: bv8)
    requires ch & 0x80 != 0
    ensures var g := Glyph(ch, attr);
            0x2800 <= g <= 0x28FF && (g - 0x2800) as bv8 == Dots(ch, attr & 0x10 != 0)
  {
    hide Dots;
    CodePointBack(Dots(ch, attr & ATTR_PIXEL7 != 0));
  }

  lemma PlainGlyph(ch: bv8, attr: bv8)
    requires ch & 0x80 == 0
    ensures Glyph(ch, attr) == if 0x20 <= ch <= 0x7E then ch as int else '?' as int
  {
    hide Dots;
  }

  lemma ShownDepicts(c: Cell)
    ensures Depicts(Shown(c), c)
  {
    hide Dots, Braille, Sgr, StyleBits, Glyph;
    StyleKept(c.attr);
    HighBit(c.ch);
    if c.ch & 0x80 != 0 {
      DotsAreBraille(c.ch, c.attr & 0x10 != 0);
      GraphicsGlyph(c.ch, c.attr);
    } else {
      PlainGlyph(c.ch, c.attr);
    }
  }

  lemma HighBit(ch: bv8)
    ensures ch & 0x80 != 0 <==> ch >= 0x80
  {
  }

  // ---- graphics ----

  /** Pixel `p` of a graphics character is on: pixels 0 to 6 are the character's low bits, pixel 7 is separate. */
  predicate PixelOn(g: bv8, pixel7: bool, p: nat)
    requires p < 8
  {
    if p == 7 then pixel7
    else g & (if p == 0 then 1 else if p == 1 then 2 else if p == 2 then 4 else if p == 3 then 8
        else if p == 4 then 16 else if p == 5 then 32 else 64) != 0
  }

  /** The Unicode braille bit of a dot, by row and column: three rows down the left, three down the right, then the
      bottom row. */
  function BrailleBit(row: nat, left: bool): bv8
    requires row < 4
  {
    if row == 3 then (if left then 0x40 else 0x80)
    else if left then (if row == 0 then 0x01 else if row == 1 then 0x02 else 0x04)
    else if row == 0 then 0x08 else if row == 1 then 0x10 else 0x20
  }

  /** Two pixels to a row, the odd one on the left: each shows as the braille dot in its place. */
  lemma PixelsInPlace(g: bv8, pixel7: bool, p: nat)
    requires p < 8
    ensures PixelOn(g, pixel7, p) <==> Dots(g, pixel7) & BrailleBit(p / 2, p % 2 == 1) != 0
  {
    if p == 0 {
    } else if p == 1 {
    } else if p == 2 {
    } else if p == 3 {
    } else if p == 4 {
    } else if p == 5 {
    } else if p == 6 {
    }
  }

  // ---- the terminal ----

  datatype Cmd = HideCursor | ShowCursor | ClearAll | SetStyle(codes: seq<int>) | Goto(r: int,
      c: int) | Put(glyph: int) | ClearToEol

  /** A terminal of `rows` by `cols`; a cursor column of `cols` means a wrap is pending. */
  datatype Terminal = Terminal(rows: nat, cols: nat, screen: seq<seq<Look>>, row: int, col: int, style: Style,
      visible: bool)

  ghost predicate Wide(t: Terminal) {
    t.rows >= KV_ROWS && t.cols >= KV_COLS && |t.screen| == t.rows
        && (forall r :: 0 <= r < t.rows ==> |t.screen[r]| == t.cols)
    && 0 <= t.row < t.rows && 0 <= t.col <= t.cols
  }

  function BlankLine(cols: nat): (s: seq<Look>)
    ensures |s| == cols && forall i :: 0 <= i < cols ==> s[i] == BLANK
  {
    seq(cols, _ => BLANK)
  }

  /** A pending wrap moves to the next line, and scrolls at the bottom. */
  function Wrapped(t: Terminal): (r: Terminal)
    requires Wide(t)
    ensures Wide(r) && r.col < r.cols
  {
    if t.col < t.cols then t
    else if t.row + 1 < t.rows then t.(row := t.row + 1, col := 0)
    else t.(screen := t.screen[1..] + [BlankLine(t.cols)], col := 0)
  }

  function Do(t: Terminal, cmd: Cmd): (r: Terminal)
    requires Wide(t)
    ensures Wide(r) && r.rows == t.rows && r.cols == t.cols
  {
    match cmd
    case HideCursor => t.(visible := false)
    case ShowCursor => t.(visible := true)
    case ClearAll => t.(screen := seq(t.rows, _ => BlankLine(t.cols)))
    case SetStyle(codes) => t.(style := StyleOf(codes))
    case Goto(r, c) => t.(row := if r < 0 then 0 else if r >= t.rows then t.rows - 1 else r,
                          col := if c < 0 then 0 else if c >= t.cols then t.cols - 1 else c)
    case Put(glyph) =>
      var u := Wrapped(t);
      u.(screen := u.screen[u.row := u.screen[u.row][u.col := Look(glyph, u.style)]], col := u.col + 1)
    case ClearToEol =>
      t.(screen := t.screen[t.row := t.screen[t.row][..t.col] + BlankLine(t.cols - t.col)])
  }

  /** A whole stretch of output. */
  function DoAll(t: Terminal, cmds: seq<Cmd>): (r: Terminal)
    requires Wide(t)
    ensures Wide(r)
    decreases |cmds|
  {
    if cmds == [] then t else Do(DoAll(t, cmds[..|cmds| - 1]), cmds[|cmds| - 1])
  }

  lemma DoOneMore(t: Terminal, cmds: seq<Cmd>, cmd: Cmd)
    requires Wide(t)
    ensures DoAll(t, cmds + [cmd]) == Do(DoAll(t, cmds), cmd)
  {
    hide Do;
    assert (cmds + [cmd])[..|cmds|] == cmds;
  }

  /** What kaypro_render_tty_init writes. */
  lemma FirstCommands(t: Terminal)
    requires Wide(t)
    ensures var u := DoAll(t, [SetStyle([0]), ClearAll, Goto(0, 0), HideCursor]);
            Wide(u) && u.style == PLAIN && u.rows == t.rows
  {
    hide DoAll, Wide, StyleOf;
    BlankShown();
    CodesMean(0);
    assert DoAll(t, []) == t by { DoNothing(t); }
    DoOneMore(t, [], SetStyle([0]));
    DoOneMore(t, [SetStyle([0])], ClearAll);
    DoOneMore(t, [SetStyle([0]), ClearAll], Goto(0, 0));
    DoOneMore(t, [SetStyle([0]), ClearAll, Goto(0, 0)], HideCursor);
    assert [] + [SetStyle([0])] == [SetStyle([0])] && [SetStyle([0])] + [ClearAll] == [SetStyle([0]), ClearAll];
    assert [SetStyle([0]), ClearAll] + [Goto(0, 0)] == [SetStyle([0]), ClearAll, Goto(0, 0)];
    assert [SetStyle([0]), ClearAll, Goto(0, 0)] + [HideCursor] == [SetStyle([0]), ClearAll, Goto(0, 0), HideCursor];
  }

  lemma DoNothing(t: Terminal)
    requires Wide(t)
    ensures DoAll(t, []) == t
  {
  }

  /** Row `r` of the terminal shows `looks` in its first 80 columns. */
  ghost predicate RowShows(t: Terminal, r: nat, looks: seq<Look>)
    requires Wide(t) && r < KV_ROWS && |looks| == KV_COLS
  {
    forall c :: 0 <= c < KV_COLS ==> t.screen[r][c] == looks[c]
  }

  /** `t` and `u` agree on all rows but `r`, and on whether the cursor shows. */
  ghost predicate OtherRows(t: Terminal, u: Terminal, r: int) {
    t.rows == u.rows && t.cols == u.cols && t.visible == u.visible && |t.screen| == |u.screen|
        && forall k :: 0 <= k < |t.screen| && k != r ==> u.screen[k] == t.screen[k]
  }

  function Looks(row: Row): (s: seq<Look>)
    ensures |s| == |row| && forall c :: 0 <= c < |row| ==> s[c] == Shown(row[c])
  {
    seq(|row|, c requires 0 <= c < |row| => Shown(row[c]))
  }

  const GAP_MAX: nat := 6

  /** Does cell `c` need painting? */
  predicate Differs(full: bool, cell: Cell, was: Cell) { if full then cell != Cell(0x20, 0) else cell != was }

  class Renderer {
    var shadow: seq<Row>
    var shadowValid: bool
    var hudText: seq<int>
    var hudPainted: bool
    var hudDirty: bool
    var termRows: int
    /** Everything written to the terminal so far. */
    var out: seq<Cmd>
    /** The terminal as it was before, and what it has made of that. */
    ghost var start: Terminal
    ghost var term: Terminal

    /** The terminal is what the commands written so far make of it. */
    ghost predicate Wired()
      reads this
    {
      Wide(start) && term == DoAll(start, out)
    }

    constructor (rows: int, t: Terminal)
      requires Wide(t) && rows <= t.rows
      ensures !shadowValid && Wired() && Wide(term) && term.style == PLAIN && termRows == rows <= term.rows
              && |hudText| <= KV_COLS
    {
      shadow, shadowValid, hudText, hudPainted, hudDirty, termRows := [], false, [], false, true, rows;
      out, start := [SetStyle([0]), ClearAll, Goto(0, 0), HideCursor], t;
      term := DoAll(t, [SetStyle([0]), ClearAll, Goto(0, 0), HideCursor]);
      new;
      FirstCommands(t);
    }

    /** Write one command. */
    method Emit(cmd: Cmd)
      requires Wired() && Wide(term)
      modifies this`out, this`term
      ensures Wired() && Wide(term) && term == Do(old(term), cmd) && out == old(out) + [cmd]
    {
      hide Do, DoAll;
      DoOneMore(start, out, cmd);
      out := out + [cmd];
      term := Do(term, cmd);
    }

    /** Back to plain text. */
    method EmitReset()
      requires Wired() && Wide(term)
      modifies this`out, this`term
      ensures Wired() && Wide(term) && term == old(term).(style := PLAIN)
    {
      hide DoAll, StyleOf;
      CodesMean(0);
      BlankShown();
      Emit(SetStyle([0]));
    }

    /** One cell of a run: its style if that changed, then the character. */
    method PaintCell(r: nat, c: nat, cell: Cell, attr: bv8) returns (now: bv8)
      requires Wired() && Wide(term) && r < KV_ROWS && c < KV_COLS && term.row == r && term.col == c
               && term.style == Sgr(attr)
      modifies this`out, this`term
      ensures Wired() && Wide(term) && term.style == Sgr(now) && term.row == r && term.col == c + 1
      ensures OtherRows(old(term), term, r) && term.screen[r] == old(term).screen[r][c := Shown(cell)]
    {
      hide DoAll, Sgr, SgrCodes, StyleOf, Glyph, StyleBits;
      now := StyleBits(cell.attr);
      if now != attr {
        CodesMean(now);
        Emit(SetStyle(SgrCodes(now)));
      }
      Emit(Put(Glyph(cell.ch, cell.attr)));
    }

    /** Paint the cells of one row that differ, in runs; short gaps are written through. */
    method PaintRow(r: nat, row: Row, was: Row, full: bool, attr: bv8) returns (now: bv8)
      requires Wired() && Wide(term) && r < KV_ROWS && |row| == KV_COLS && (!full ==> |was| == KV_COLS)
               && term.style == Sgr(attr)
      requires RowShows(term, r, if full then Looks(BlankRow()) else Looks(was))
      modifies this`out, this`term
      ensures Wired() && Wide(term) && term.style == Sgr(now) && OtherRows(old(term), term, r)
              && RowShows(term, r, Looks(row))
    {
      hide DoAll, Sgr, Shown;
      now := attr;
      ghost var before := if full then Looks(BlankRow()) else Looks(was);
      var diff, last := FindDiffs(row, was, full);
      ghost var d := diff[..];
      assert forall k :: 0 <= k < KV_COLS && !d[k] ==> before[k] == Looks(row)[k];
      var c := 0;
      while c <= last
        invariant 0 <= c <= last + 1 <= KV_COLS && Wired() && Wide(term) && term.style == Sgr(now)
                  && OtherRows(old(term), term, r)
        invariant Half(term, r, Looks(row), before, c) && diff[..] == d
        decreases last + 1 - c
      {
        if !diff[c] {
          assert !d[c] && before[c] == Looks(row)[c];
          c := c + 1;
        } else {
          Emit(Goto(r, c));
          now, c := PaintRun(r, row, diff, before, last, c, now);
        }
      }
      forall k | c <= k < KV_COLS ensures before[k] == Looks(row)[k] {
        assert d[k] == diff[k];
      }
    }

    /** Which cells need painting, and the last of them. */
    method FindDiffs(row: Row, was: Row, full: bool) returns (diff: array<bool>, last: int)
      requires |row| == KV_COLS && (!full ==> |was| == KV_COLS)
      ensures fresh(diff) && diff.Length == KV_COLS && -1 <= last < KV_COLS
      ensures forall k :: 0 <= k < KV_COLS ==> diff[k] == Differs(full, row[k], if full then row[k] else was[k])
      ensures forall k :: last < k < KV_COLS ==> !diff[k]
    {
      diff := new bool[KV_COLS];
      last := -1;
      var c := 0;
      while c < KV_COLS
        invariant c <= KV_COLS && -1 <= last < c
        invariant forall k :: 0 <= k < c ==> diff[k] == Differs(full, row[k], if full then row[k] else was[k])
        invariant forall k :: last < k < c ==> !diff[k]
      {
        diff[c] := Differs(full, row[c], if full then row[c] else was[c]);
        if diff[c] {
          last := c;
        }
        c := c + 1;
      }
    }

    /** From a differing cell to the end of the row or to a gap worth a cursor move. */
    method PaintRun(r: nat, row: Row, diff: array<bool>, ghost before: seq<Look>, last: nat, from: nat, attr: bv8)
      returns (now: bv8, c: nat)
      requires Wired() && Wide(term) && r < KV_ROWS && |row| == KV_COLS == diff.Length == |before|
               && from <= last < KV_COLS
      requires diff[from] && term.row == r && term.col == from && term.style == Sgr(attr)
      requires Half(term, r, Looks(row), before, from)
      modifies this`out, this`term
      ensures Wired() && Wide(term) && term.style == Sgr(now) && OtherRows(old(term), term, r)
      ensures from < c <= last + 1 && Half(term, r, Looks(row), before, c)
    {
      hide DoAll, Sgr, Shown;
      now, c := attr, from;
      while c <= last
        invariant from <= c <= last + 1 && (c == from ==> diff[c]) && Wired() && Wide(term) && term.style == Sgr(now)
                  && term.row == r && term.col == c
        invariant OtherRows(old(term), term, r) && Half(term, r, Looks(row), before, c)
        decreases last + 1 - c
      {
        if !diff[c] {
          var k := 0;
          while c + k <= last && !diff[c + k]
            invariant c + k <= last + 1
            decreases last + 1 - (c + k)
          {
            k := k + 1;
          }
          if k > GAP_MAX {
            break;
          }
        }
        now := PaintCell(r, c, row[c], now);
        c := c + 1;
      }
    }
  
    /** The shadow is what the terminal shows; rows that differ from it are marked; so is a cursor that differs. */
    ghost predicate Synced(v: Screen)
      reads this
    {
      Wired() && Wide(term) && term.style == PLAIN && termRows <= term.rows && |hudText| <= KV_COLS
      && (shadowValid ==> InSync(term, shadow, v))
    }

    /** Rows [0, upTo) of a flush: those to paint are painted, and the shadow follows. */
    method PaintRows(cells: seq<Row>, rows: seq<bool>, full: bool)
      requires Wired() && Wide(term) && term.style == PLAIN && |rows| == KV_ROWS && Cells(cells)
      requires full ==> forall r :: 0 <= r < KV_ROWS ==> rows[r] && RowShows(term, r, Looks(BlankRow()))
      requires !full ==> Cells(shadow)
      requires !full ==> forall r :: 0 <= r < KV_ROWS ==>
                 RowShows(term, r, Looks(shadow[r])) && (!rows[r] ==> cells[r] == shadow[r])
      modifies this`out, this`term, this`shadow
      ensures Wired() && Wide(term) && term.style == PLAIN && Cells(shadow) && shadow == cells
              && term.rows == old(term).rows && term.visible == old(term).visible
      ensures forall r :: 0 <= r < KV_ROWS ==> RowShows(term, r, Looks(cells[r]))
    {
      hide DoAll, Shown, Sgr, Looks;
      var attr: bv8 := 0;
      assert Sgr(0) == PLAIN by { BlankShown(); }
      if full {
        shadow := seq(KV_ROWS, _ => BlankRow());
      }
      var r := 0;
      while r < KV_ROWS
        invariant r <= KV_ROWS && Wired() && Wide(term) && term.style == Sgr(attr) && Cells(shadow)
                  && term.rows == old(term).rows && term.visible == old(term).visible
        invariant forall k :: 0 <= k < r ==> shadow[k] == cells[k]
        invariant forall k :: 0 <= k < KV_ROWS ==> RowShows(term, k, Looks(shadow[k]))
        invariant forall k :: r <= k < KV_ROWS ==> shadow[k] == if full then BlankRow() else old(shadow)[k]
      {
        if rows[r] {
          ghost var t := term;
          attr := PaintRow(r, cells[r], shadow[r], full, attr);
          shadow := shadow[r := cells[r]];
        }
        r := r + 1;
      }
      if attr != 0 {
        EmitReset();
        assert Sgr(0) == PLAIN by { BlankShown(); }
      }
      assert shadow == cells;
    }
  
    /** The status display of the host on its line 26, if there is one. */
    method PaintHud()
      requires Wired() && Wide(term) && term.style == PLAIN && termRows <= term.rows && |hudText| <= KV_COLS
      modifies this`out, this`term, this`hudPainted, this`hudDirty
      ensures Wired() && Wide(term) && term.style == PLAIN && term.rows == old(term).rows
              && term.visible == old(term).visible
      ensures SameRows(old(term), term) && !hudDirty
    {
      hide DoAll, Sgr;
      assert Sgr(0) == PLAIN by { BlankShown(); }
      if termRows > KV_ROWS {
        if hudText != [] {
          Emit(Goto(KV_ROWS, 0));
          Emit(SetStyle([0, 2]));
          var i := 0;
          while i < |hudText|
            invariant i <= |hudText| && Wired() && Wide(term) && term.row == KV_ROWS && term.col == i
                      && SameRows(old(term), term)
              && term.rows == old(term).rows && term.cols == old(term).cols && term.visible == old(term).visible
          {
            Emit(Put(hudText[i]));
            i := i + 1;
          }
          EmitReset();
        } else if hudPainted {
          Emit(Goto(KV_ROWS, 0));
          Emit(ClearToEol);
        }
        hudPainted := hudText != [];
      }
      hudDirty := false;
    }

    /** kaypro_render_tty_set_hud. */
    method SetHud(text: seq<int>)
      requires |text| == 0 || |text| == KV_COLS
      modifies this`hudText, this`hudDirty
      ensures hudText == text
    {
      if text != hudText {
        hudText, hudDirty := text, true;
      }
    }

    /** kaypro_render_tty_invalidate: the host terminal has another size, and may show anything. */
    method Invalidate(rows: int, ghost now: Terminal)
      requires Wide(now) && now.style == PLAIN && rows <= now.rows
      modifies this`shadowValid, this`hudDirty, this`termRows, this`out, this`start, this`term
      ensures Wired() && term == now && termRows == rows && !shadowValid && hudDirty && out == []
    {
      shadowValid, hudDirty, termRows := false, true, rows;
      out, start, term := [], now, now;
    }

    /** Hide the cursor, clear if everything is to be painted, paint the marked rows. */
    method PaintFrame(cells: seq<Row>, dirty: seq<bool>, full: bool)
      requires Wired() && Wide(term) && term.style == PLAIN && Grid(cells, dirty)
      requires !full ==> Marked(term, shadow, cells, dirty)
      modifies this`out, this`term, this`shadow
      ensures Wired() && Wide(term) && term.style == PLAIN && term.rows == old(term).rows && !term.visible
              && RowsShown(term, cells) && shadow == cells
    {
      hide DoAll, Looks, Sgr;
      Emit(HideCursor);
      if full {
        EmitReset();
        assert Sgr(0) == PLAIN by { BlankShown(); }
        Emit(ClearAll);
        BlankRows25(term);
      }
      PaintRows(cells, if full then AllRows() else dirty, full);
    }

    /** Put the cursor where the screen's is, and show it if it is shown there. */
    method PlaceCursor(row: int, col: int, visible: bool)
      requires Wired() && Wide(term) && !term.visible && 0 <= row < KV_ROWS && 0 <= col < KV_COLS
      modifies this`out, this`term
      ensures Wired() && Wide(term) && term == old(term).(row := row, col := col, visible := visible)
              && SameRows(old(term), term)
    {
      Emit(Goto(row, col));
      if visible {
        Emit(ShowCursor);
      }
    }

    /** Paint the cells that need it, the host's own line, and the cursor. */
    method PaintAll(cells: seq<Row>, dirty: seq<bool>, row: int, col: int, visible: bool, full: bool)
      requires Wired() && Wide(term) && term.style == PLAIN && Grid(cells, dirty) && 0 <= row < KV_ROWS
               && 0 <= col < KV_COLS
      requires termRows <= term.rows && |hudText| <= KV_COLS
      requires !full ==> Marked(term, shadow, cells, dirty)
      modifies this`out, this`term, this`shadow, this`shadowValid, this`hudPainted, this`hudDirty
      ensures Wired() && Wide(term) && term.style == PLAIN && termRows <= term.rows && shadowValid && shadow == cells
      ensures RowsShown(term, cells) && term.row == row && term.col == col && term.visible == visible
    {
      hide DoAll, RowsShown, Wide, Marked, SameRows, Grid;
      PaintFrame(cells, dirty, full);
      if hudDirty || full {
        ghost var t := term;
        PaintHud();
        ShownKept(t, term, cells);
      }
      ghost var t := term;
      PlaceCursor(row, col, visible);
      ShownKept(t, term, cells);
      shadowValid := true;
    }

    /** kaypro_render_tty_flush: whatever was painted, skipped or coalesced, the terminal ends up showing the screen. */
    method Flush(v: Display, force: bool)
      requires Valid(v.Now()) && Synced(v.Now())
      modifies this`out, this`term, this`shadow, this`shadowValid, this`hudPainted, this`hudDirty, v`dirty, v`moved
      ensures v.Now() == Seen(old(v.Now()))
      ensures Synced(v.Now()) && shadowValid && Shows(term, v.Now()) && Seeable(term, v.Now())
    {
      hide DoAll, RowsShown, Wide, InSync, Shows, Seeable, Marked, Grid, EscArity, AnyDirty, Seen, Display.Now;
      var cells, dirty, row, col, visible, moved := v.View();
      ghost var s := v.Now();
      if !force && shadowValid && !AnyDirty(dirty) && !moved && !hudDirty {
        NothingToDo(term, shadow, s);
        ShowsIsSeeable(term, s);
        return;
      }
      if shadowValid {
        MarkedRows(term, shadow, s);
      }
      PaintAll(cells, dirty, row, col, visible, force || !shadowValid);
      FrameDone(term, s);
      ShowsIsSeeable(term, Seen(s));
      v.ClearDirty();
    }
  }

  /** Every row of the screen is on the terminal. */
  ghost predicate RowsShown(t: Terminal, cells: seq<Row>) {
    Wide(t) && Cells(cells) && forall r :: 0 <= r < KV_ROWS ==> RowShows(t, r, Looks(cells[r]))
  }

  lemma ShownKept(t: Terminal, u: Terminal, cells: seq<Row>)
    requires RowsShown(t, cells) && Wide(u) && SameRows(t, u)
    ensures RowsShown(u, cells)
  {
    hide Looks;
  }

  lemma NothingToDo(t: Terminal, shadow: seq<Row>, v: Screen)
    requires Wide(t) && InSync(t, shadow, v) && !AnyDirty(v.dirty) && !v.moved
    ensures Shows(t, v) && v == Seen(v)
  {
    hide Looks;
  }

  lemma FrameDone(t: Terminal, v: Screen)
    requires RowsShown(t, v.cells) && Shaped(v) && t.row == v.row && t.col == v.col && t.visible == v.visible
    ensures Wide(t) && InSync(t, v.cells, Seen(v)) && Shows(t, Seen(v))
  {
    hide Looks;
  }

  predicate AnyDirty(d: seq<bool>) { exists r :: 0 <= r < |d| && d[r] }

  /** The rows of the emulated screen are untouched. */
  ghost predicate SameRows(t: Terminal, u: Terminal) {
    |t.screen| >= KV_ROWS && |u.screen| >= KV_ROWS && forall r :: 0 <= r < KV_ROWS ==> u.screen[r] == t.screen[r]
  }

  /** The terminal shows the shadow, and rows that are not marked have not changed since. */
  ghost predicate Marked(t: Terminal, shadow: seq<Row>, cells: seq<Row>, dirty: seq<bool>) {
    Wide(t) && Cells(shadow) && Grid(cells, dirty)
    && forall r :: 0 <= r < KV_ROWS ==> RowShows(t, r, Looks(shadow[r])) && (!dirty[r] ==> cells[r] == shadow[r])
  }

  lemma MarkedRows(t: Terminal, shadow: seq<Row>, v: Screen)
    requires Wide(t) && InSync(t, shadow, v)
    ensures Marked(t, shadow, v.cells, v.dirty)
  {
    hide Looks;
  }

  lemma BlankRows25(t: Terminal)
    requires Wide(t) && forall r :: 0 <= r < t.rows ==> t.screen[r] == BlankLine(t.cols)
    ensures forall r :: 0 <= r < KV_ROWS ==> RowShows(t, r, Looks(BlankRow()))
  {
    BlankShown();
  }

  /** Bytes written since the last flush keep renderer and screen in step: what they changed is marked. */
  lemma SyncKept(t: Terminal, shadow: seq<Row>, v: Screen, w: Screen)
    requires Wide(t) && InSync(t, shadow, v) && Keeps(v, w)
    ensures InSync(t, shadow, w)
  {
    hide Looks;
  }

  datatype Act = Byte(ch: bv8) | Paint(force: bool) | Hud(text: seq<int>) | Resize(rows: int, now: Terminal)

  /** A status text fills the line or is empty; a resized terminal still has room for the screen. */
  ghost predicate GoodAct(a: Act) {
    match a
    case Hud(text) => |text| == 0 || |text| == KV_COLS
    case Resize(rows, now) => Wide(now) && now.style == PLAIN && rows <= now.rows
    case _ => true
  }

  /** Any interleaving of guest bytes, flushes, status texts and resizes: right after a flush, what was written makes
      the terminal show the screen. */
  method Session(v: Display, r: Renderer, acts: seq<Act>)
    requires Valid(v.Now()) && r.Synced(v.Now()) && forall i :: 0 <= i < |acts| ==> GoodAct(acts[i])
    modifies v, v.cells, r
    ensures Valid(v.Now()) && r.Synced(v.Now())
    ensures acts != [] && acts[|acts| - 1].Paint? ==> Wide(r.start) && Seeable(DoAll(r.start, r.out), v.Now())
  {
    hide Putc, Looks, Keeps, Do, DoAll, InSync, Seeable;
    var i := 0;
    while i < |acts|
      invariant i <= |acts| && Valid(v.Now()) && r.Synced(v.Now())
      invariant i > 0 && acts[i - 1].Paint? ==> Seeable(r.term, v.Now())
    {
      match acts[i] {
        case Byte(ch) =>
          ghost var was := v.Now();
          v.PutByte(ch);
          KeepsValid(was, v.Now());
          if r.shadowValid {
            SyncKept(r.term, r.shadow, was, v.Now());
          }
        case Paint(force) => r.Flush(v, force);
        case Hud(text) => r.SetHud(text);
        case Resize(rows, now) => r.Invalidate(rows, now);
      }
      i := i + 1;
    }
  }

  /** The terminal in the user's terms: every cell is depicted, the cursor is where the screen's is and shows if that
      does. */
  ghost predicate Seeable(t: Terminal, v: Screen) {
    && Wide(t) && Shaped(v) && t.row == v.row && t.col == v.col && t.visible == v.visible
    && forall r, c :: 0 <= r < 25 && 0 <= c < 80 ==> Depicts(t.screen[r][c], v.cells[r][c])
  }

  lemma ShowsIsSeeable(t: Terminal, v: Screen)
    requires Shows(t, v)
    ensures Seeable(t, v)
  {
    hide Depicts, Shown;
    forall r, c | 0 <= r < 25 && 0 <= c < 80 ensures Depicts(t.screen[r][c], v.cells[r][c]) {
      assert RowShows(t, r, Looks(v.cells[r]));
      ShownDepicts(v.cells[r][c]);
    }
  }

  lemma KeepsValid(s: Screen, t: Screen)
    requires Keeps(s, t)
    ensures Valid(t)
  {
  }

  /** The first `c` cells of row `r` are painted, the others still look as before. */
  ghost predicate Half(t: Terminal, r: nat, looks: seq<Look>, before: seq<Look>, c: nat) {
    Wide(t) && r < KV_ROWS && |looks| == KV_COLS == |before| && c <= KV_COLS
    && (forall k :: 0 <= k < c ==> t.screen[r][k] == looks[k])
    && forall k :: c <= k < KV_COLS ==> t.screen[r][k] == before[k]
  }

  /** A full screen of cells. */
  ghost predicate Cells(cells: seq<Row>) { |cells| == KV_ROWS && forall r :: 0 <= r < KV_ROWS ==>
                        |cells[r]| == KV_COLS }

  ghost predicate InSync(t: Terminal, shadow: seq<Row>, v: Screen)
    requires Wide(t)
  {
    Cells(shadow) && Shaped(v)
    && (forall r :: 0 <= r < KV_ROWS ==> RowShows(t, r, Looks(shadow[r])) && (!v.dirty[r] ==> v.cells[r] == shadow[r]))
    && (!v.moved ==> t.row == v.row && t.col == v.col && t.visible == v.visible)
  }

  /** The terminal shows exactly the screen: glyph and style of every cell, cursor and its visibility. */
  ghost predicate Shows(t: Terminal, v: Screen) {
    Wide(t) && Shaped(v) && (forall r :: 0 <= r < KV_ROWS ==> RowShows(t, r, Looks(v.cells[r])))
    && t.row == v.row && t.col == v.col && t.visible == v.visible
  }
}
