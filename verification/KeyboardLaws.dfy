/** What typed and piped input means to the guest, byte by byte and key by key (kaypro/kaypro_kbd.c). */
module KeyboardLaws {
  import opened Keyboard

  /** Neither backspace nor delete, the two single bytes that are keys of their own. */
  predicate Ordinary(c: Byte) { c != 0x7F && c != 0x08 }

  ghost predicate AllOrdinary(s: seq<Byte>) { forall i :: 0 <= i < |s| ==> Ordinary(s[i]) }

  lemma {:induction false} EachUnchanged(k: Keymap, s: seq<Byte>)
    requires AllOrdinary(s)
    ensures Each(k, s) == s
    decreases |s|
  {
    if s != [] {
      EachUnchanged(k, s[1..]);
      assert [s[0]] + s[1..] == s;
    }
  }

  /** Text typed at a terminal, in however many reads, reaches the guest byte for byte, whatever the keymap. */
  lemma TypedUnchanged(k: Keymap, chunks: seq<seq<Byte>>, cr: bool)
    requires AllOrdinary(Joined(chunks)) && !HasLead(Joined(chunks))
    ensures Stream(k, false, chunks, cr).bytes == Joined(chunks)
  {
    NoLeadStream(k, false, chunks, cr);
    EachUnchanged(k, Joined(chunks));
  }

  /** A byte that starts no sequence comes out as itself, or, for backspace and delete, as the bytes of that key. */
  lemma ByteTyped(k: Keymap, c: Byte, rest: seq<Byte>)
    requires c != 0x1B
    ensures TranslateAll(k, [c] + rest) ==
            (if Ordinary(c) then [c] else if 22 in k then k[22] else []) + TranslateAll(k, rest)
  {
    FirstKey(k, [c] + rest);
    assert ([c] + rest)[1..] == rest;
  }

  // ---- sequences ----

  ghost predicate Final(s: seq<Byte>, n: int) {
    && 2 < n <= |s| && s[0] == 0x1B && s[1] == 0x5B && 0x40 <= s[n - 1] <= 0x7E
    && forall i :: 2 <= i < n - 1 ==> !(0x40 <= s[i] <= 0x7E)
  }

  lemma {:induction false} CsiEnds(s: seq<Byte>, n: int, i: int)
    requires Final(s, n) && 2 <= i < n
    ensures CsiLength(s, i) == n
    decreases n - i
  {
    if i < n - 1 {
      CsiEnds(s, n, i + 1);
    }
  }

  /** ESC [ up to its final byte is one key, taken whole, as is ESC O with the byte after it. */
  lemma WholeSequence(k: Keymap, s: seq<Byte>, rest: seq<Byte>)
    requires Final(s, |s|) || (|s| == 3 && s[0] == 0x1B && s[1] == 0x4F)
    ensures TranslateAll(k, s + rest) == TranslateKey(k, s) + TranslateAll(k, rest)
  {
    var all := s + rest;
    if s[1] == 0x5B {
      assert Final(all, |s|);
      CsiEnds(all, |s|, 2);
    }
    FirstKey(k, all);
    assert all[..|s|] == s && all[|s|..] == rest;
  }

  /** A key pressed at the terminal sends the bytes the keymap has for it, and nothing if it has none. */
  lemma KeyPressed(k: Keymap, key: int, rest: seq<Byte>)
    requires 0 <= key < 22
    ensures TranslateAll(k, XtermSequence(key) + rest) == (if key in k then k[key] else []) + TranslateAll(k, rest)
  {
    KeySequences(key);
    WholeSequence(k, XtermSequence(key), rest);
  }

  /** An arrow, Home or End with a modifier is that key; a function key with one is none. */
  lemma Modified(m: Byte, last: Byte)
    ensures KeyForSequence([0x1B, 0x5B, 0x31, 0x3B, m, last]) ==
            if 0x50 <= last <= 0x53 then -1 else KeyForSequence([0x1B, 0x5B, last])
    ensures KeyForSequence([0x1B, 0x4F, last]) == KeyForSequence([0x1B, 0x5B, last])
  {
  }

  /** Numbers that other terminals send: Home is 1 or 7, End is 4 or 8, and 11 to 14 are F1 to F4. */
  lemma OtherNumbers(d: Byte)
    ensures d == 0x31 || d == 0x37 ==> KeyForSequence([0x1B, 0x5B, d, 0x7E]) == KEY_HOME
    ensures d == 0x34 || d == 0x38 ==> KeyForSequence([0x1B, 0x5B, d, 0x7E]) == KEY_END
    ensures 0x31 <= d <= 0x34 ==> KeyForSequence([0x1B, 0x5B, 0x31, d, 0x7E]) == KEY_F1 + (d - 0x31) as int
  {
    if 0x30 <= d <= 0x39 {
      OneDigit([0x1B, 0x5B, d, 0x7E]);
      TwoDigits([0x1B, 0x5B, 0x31, d, 0x7E]);
    }
  }

  // ---- line ends ----

  datatype End = Unix | Mac | Dos

  datatype Line = Line(text: seq<Byte>, end: End)

  function EndBytes(e: End): seq<Byte> {
    match e case Unix => [0x0A] case Mac => [0x0D] case Dos => [0x0D, 0x0A]
  }

  /** The lines as they stand in a file. */
  function Filed(lines: seq<Line>): seq<Byte> {
    if lines == [] then [] else lines[0].text + EndBytes(lines[0].end) + Filed(lines[1..])
  }

  /** The lines as someone at the keyboard would type them, each ended with return. */
  function AsTyped(lines: seq<Line>): seq<Byte> {
    if lines == [] then [] else lines[0].text + [0x0D] + AsTyped(lines[1..])
  }

  /** No line holds a line end, and no empty line ended by LF follows a bare CR, which would read as one CR LF. */
  ghost predicate Readable(lines: seq<Line>, cr: bool)
    decreases |lines|
  {
    lines == []
    || (Without(lines[0].text, 0x0A) && Without(lines[0].text, 0x0D)
        && !(cr && lines[0].text == [] && lines[0].end == Unix)
        && Readable(lines[1..], lines[0].end == Mac))
  }

  lemma {:induction false} TextNormal(text: seq<Byte>, cr: bool)
    requires Without(text, 0x0A) && Without(text, 0x0D)
    ensures Normalise(text, cr) == Lines(text, if text == [] then cr else false)
    decreases |text|
  {
    if text != [] {
      TextNormal(text[1..], false);
      assert [text[0]] + text[1..] == text;
    }
  }

  lemma EndNormal(e: End, cr: bool)
    requires !(cr && e == Unix)
    ensures Normalise(EndBytes(e), cr) == Lines([0x0D], e == Mac)
  {
    var b := EndBytes(e);
    assert b[1..] == if e == Dos then [0x0A] else [];
    if e == Dos {
      assert [0x0A as Byte][1..] == [];
      assert Normalise([0x0A], true) == Lines([], false);
    }
  }

  /** Piped lines, whichever way each is ended, are what typing them would give. */
  lemma {:induction false} LinesNormal(lines: seq<Line>, cr: bool)
    requires Readable(lines, cr)
    ensures Normalise(Filed(lines), cr).bytes == AsTyped(lines)
    decreases |lines|
  {
    hide Normalise;
    if lines == [] {
      TextNormal([], cr);
    } else {
      var l, rest := lines[0], lines[1..];
      TextNormal(l.text, cr);
      var c := if l.text == [] then cr else false;
      EndNormal(l.end, c);
      LinesNormal(rest, l.end == Mac);
      NormaliseAppend(l.text, EndBytes(l.end), cr);
      NormaliseAppend(l.text + EndBytes(l.end), Filed(rest), cr);
    }
  }

  /** A piped file of text lines reaches the guest as the same lines typed, in however many reads it comes. */
  lemma PipedAsTyped(k: Keymap, lines: seq<Line>, chunks: seq<seq<Byte>>)
    requires Readable(lines, false) && Joined(chunks) == Filed(lines)
    requires AllOrdinary(AsTyped(lines)) && !HasLead(Filed(lines))
    ensures Stream(k, true, chunks, false).bytes == AsTyped(lines)
  {
    NoLeadStream(k, true, chunks, false);
    LinesNormal(lines, false);
    EachUnchanged(k, AsTyped(lines));
  }
}
