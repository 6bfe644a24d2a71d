/** Console input (kaypro/kaypro_kbd.c): what the guest reads is the translated input, in order, with nothing lost. */
module Keyboard {

  type Byte = bv8

  const ESC: Byte := 0x1B
  const CR: Byte := 0x0D
  const LF: Byte := 0x0A
  const EXIT_KEY: Byte := 0x1D

  // ---- key translation ----

  /** Bytes each key sends, at most 8. */
  type Keymap = k: map<int, seq<Byte>> | forall i <- k :: |k[i]| <= 8 witness map[]

  const KEY_UP := 0
  const KEY_DOWN := 1
  const KEY_LEFT := 2
  const KEY_RIGHT := 3
  const KEY_HOME := 4
  const KEY_END := 5
  const KEY_INS := 6
  const KEY_DEL := 7
  const KEY_PGUP := 8
  const KEY_PGDN := 9
  const KEY_F1 := 10
  const KEY_BS := 22

  function KeyBytes(k: Keymap, key: int): (r: seq<Byte>)
    ensures |r| <= 8
  {
    if key in k then k[key] else []
  }

  function LetterKey(last: Byte, plain: bool): int {
    if last == 0x41 then KEY_UP else if last == 0x42 then KEY_DOWN else if last == 0x43 then KEY_RIGHT
    else if last == 0x44 then KEY_LEFT else if last == 0x48 then KEY_HOME else if last == 0x46 then KEY_END
    else if plain && last == 0x50 then KEY_F1 else if plain && last == 0x51 then KEY_F1 + 1
    else if plain && last == 0x52 then KEY_F1 + 2 else if plain && last == 0x53 then KEY_F1 + 3
    else -1
  }

  function NumberKey(num: int): int {
    if num == 1 || num == 7 then KEY_HOME else if num == 4 || num == 8 then KEY_END
    else if num == 2 then KEY_INS else if num == 3 then KEY_DEL else if num == 5 then KEY_PGUP
        else if num == 6 then KEY_PGDN
    else if 11 <= num <= 15 then KEY_F1 + (num - 11) else if 17 <= num <= 21 then KEY_F1 + (num - 12)
    else if 23 <= num <= 24 then KEY_F1 + (num - 13) else -1
  }

  /** The decimal number at position `i` of a sequence, up to its last byte. */
  function NumberAt(s: seq<Byte>, i: nat, num: int): int
    decreases |s| - i
  {
    if i + 1 < |s| && 0x30 <= s[i] <= 0x39 then NumberAt(s, i + 1, num * 10 + (s[i] - 0x30) as int) else num
  }

  /** key_for_sequence. */
  function KeyForSequence(s: seq<Byte>): int {
    if |s| < 3 || s[0] != ESC || (s[1] != 0x5B && s[1] != 0x4F) then -1
    else
      var last := s[|s| - 1];
      if |s| == 3 || (s[1] == 0x5B && |s| >= 6 && s[2] == 0x31 && s[3] == 0x3B) then LetterKey(last, |s| == 3)
      else if s[1] == 0x5B && last == 0x7E then NumberKey(NumberAt(s, 2, 0))
      else -1
  }

  /** What a terminal sends for a key: a letter after ESC [, or a number and a tilde. */
  function XtermSequence(key: int): seq<Byte> {
    if key == KEY_UP then [ESC, 0x5B, 0x41] else if key == KEY_DOWN then [ESC, 0x5B, 0x42]
    else if key == KEY_RIGHT then [ESC, 0x5B, 0x43] else if key == KEY_LEFT then [ESC, 0x5B, 0x44]
    else if key == KEY_HOME then [ESC, 0x5B, 0x48] else if key == KEY_END then [ESC, 0x5B, 0x46]
    else if key == KEY_INS then [ESC, 0x5B, 0x32, 0x7E] else if key == KEY_DEL then [ESC, 0x5B, 0x33, 0x7E]
    else if key == KEY_PGUP then [ESC, 0x5B, 0x35, 0x7E] else if key == KEY_PGDN then [ESC, 0x5B, 0x36, 0x7E]
    else if key == KEY_F1 then [ESC, 0x4F, 0x50] else if key == KEY_F1 + 1 then [ESC, 0x4F, 0x51]
    else if key == KEY_F1 + 2 then [ESC, 0x4F, 0x52] else if key == KEY_F1 + 3 then [ESC, 0x4F, 0x53]
    else if key == KEY_F1 + 4 then [ESC, 0x5B, 0x31, 0x35, 0x7E]
        else if key == KEY_F1 + 5 then [ESC, 0x5B, 0x31, 0x37, 0x7E]
    else if key == KEY_F1 + 6 then [ESC, 0x5B, 0x31, 0x38, 0x7E]
        else if key == KEY_F1 + 7 then [ESC, 0x5B, 0x31, 0x39, 0x7E]
    else if key == KEY_F1 + 8 then [ESC, 0x5B, 0x32, 0x30, 0x7E]
        else if key == KEY_F1 + 9 then [ESC, 0x5B, 0x32, 0x31, 0x7E]
    else if key == KEY_F1 + 10 then [ESC, 0x5B, 0x32, 0x33, 0x7E] else [ESC, 0x5B, 0x32, 0x34, 0x7E]
  }

  lemma TwoDigits(s: seq<Byte>)
    requires |s| == 5 && 0x30 <= s[2] <= 0x39 && 0x30 <= s[3] <= 0x39 && s[4] == 0x7E
    ensures NumberAt(s, 2, 0) == ((s[2] - 0x30) as int) * 10 + (s[3] - 0x30) as int
  {
    assert NumberAt(s, 4, ((s[2] - 0x30) as int) * 10 + (s[3] - 0x30) as int)
        == ((s[2] - 0x30) as int) * 10 + (s[3] - 0x30) as int;
    assert NumberAt(s, 3, (s[2] - 0x30) as int) == ((s[2] - 0x30) as int) * 10 + (s[3] - 0x30) as int;
  }

  lemma OneDigit(s: seq<Byte>)
    requires |s| == 4 && 0x30 <= s[2] <= 0x39 && s[3] == 0x7E
    ensures NumberAt(s, 2, 0) == (s[2] - 0x30) as int
  {
    assert NumberAt(s, 3, (s[2] - 0x30) as int) == (s[2] - 0x30) as int;
  }

  /** Each key's sequence names that key. */
  lemma KeySequences(key: int)
    requires KEY_UP <= key < KEY_BS
    ensures KeyForSequence(XtermSequence(key)) == key
  {
    var s := XtermSequence(key);
    if |s| == 5 {
      TwoDigits(s);
    } else if |s| == 4 {
      OneDigit(s);
    }
  }

  /** kaypro_kbd_translate with room for eight bytes. */
  function TranslateKey(k: Keymap, s: seq<Byte>): (r: seq<Byte>)
    ensures |r| <= 8
  {
    if s == [] then []
    else if |s| == 1 then (if s[0] == 0x7F || s[0] == 0x08 then KeyBytes(k, KEY_BS) else [s[0]])
    else if KeyForSequence(s) < 0 then [] else KeyBytes(k, KeyForSequence(s))
  }

  /** Length of a CSI sequence scanned so far to `i`: up to and including its final byte. */
  function CsiLength(s: seq<Byte>, i: nat): (n: nat)
    requires i <= |s|
    ensures i <= n <= |s|
    decreases |s| - i
  {
    if i == |s| then i else if 0x40 <= s[i] <= 0x7E then i + 1 else CsiLength(s, i + 1)
  }

  /** How many bytes the key at the front takes. */
  function KeyLength(s: seq<Byte>): (n: nat)
    requires s != []
    ensures 1 <= n <= |s|
  {
    if s[0] == ESC && |s| > 1 && s[1] == 0x4F then (if |s| > 2 then 3 else 2)
    else if s[0] == ESC && |s| > 1 && s[1] == 0x5B then CsiLength(s, 2)
    else 1
  }

  /** All the keys of a buffer. */
  function TranslateAll(k: Keymap, s: seq<Byte>): seq<Byte>
    decreases |s|
  {
    if s == [] then [] else TranslateKey(k, s[..KeyLength(s)]) + TranslateAll(k, s[KeyLength(s)..])
  }

  // ---- line ends of piped input ----

  datatype Lines = Lines(bytes: seq<Byte>, cr: bool)

  /** CR LF and LF become CR; `cr` says that the byte before was a CR. */
  function Normalise(s: seq<Byte>, cr: bool): Lines
    decreases |s|
  {
    if s == [] then Lines([], cr)
    else if s[0] == LF && cr then Normalise(s[1..], false)
    else
      var c := if s[0] == LF then CR else s[0];
      var rest := Normalise(s[1..], s[0] == CR);
      Lines([c] + rest.bytes, rest.cr)
  }

  /** One read's text: a terminal's bytes are taken as they are. */
  function Text(piped: bool, chunk: seq<Byte>, cr: bool): Lines { if piped then Normalise(chunk, cr)
                else Lines(chunk, cr) }

  /** What a run of reads means to the guest: each chunk normalised if piped, then translated. */
  function Stream(k: Keymap, piped: bool, chunks: seq<seq<Byte>>, cr: bool): Lines
    decreases |chunks|
  {
    if chunks == [] then Lines([], cr)
    else
      var n := Text(piped, chunks[0], cr);
      var rest := Stream(k, piped, chunks[1..], n.cr);
      Lines(TranslateAll(k, n.bytes) + rest.bytes, rest.cr)
  }

  function Joined(chunks: seq<seq<Byte>>): seq<Byte> { if chunks == [] then [] else chunks[0] + Joined(chunks[1..]) }

  predicate Without(s: seq<Byte>, c: Byte) { forall i :: 0 <= i < |s| ==> s[i] != c }

  lemma {:induction false} NormaliseAppend(a: seq<Byte>, b: seq<Byte>, cr: bool)
    ensures var x := Normalise(a, cr);
            var y := Normalise(b, x.cr);
            Normalise(a + b, cr) == Lines(x.bytes + y.bytes, y.cr)
    decreases |a|
  {
    if a == [] {
      assert a + b == b;
    } else {
      assert (a + b)[0] == a[0] && (a + b)[1..] == a[1..] + b;
      if a[0] == LF && cr {
        NormaliseAppend(a[1..], b, false);
      } else {
        NormaliseAppend(a[1..], b, a[0] == CR);
        var c := if a[0] == LF then CR else a[0];
        var x := Normalise(a[1..], a[0] == CR);
        assert [c] + (x.bytes + Normalise(b, x.cr).bytes) == ([c] + x.bytes) + Normalise(b, x.cr).bytes;
      }
    }
  }

  // ---- where reads may cut the input ----

  /** An ESC directly followed by `[` or `O`. */
  predicate LeadAt(s: seq<Byte>, i: int) {
    0 <= i < |s| - 1 && s[i] == ESC && (s[i + 1] == 0x5B || s[i + 1] == 0x4F)
  }

  ghost predicate HasLead(s: seq<Byte>) { exists i :: LeadAt(s, i) }

  /** Every byte as a key of its own. */
  function Each(k: Keymap, s: seq<Byte>): seq<Byte> {
    if s == [] then [] else TranslateKey(k, [s[0]]) + Each(k, s[1..])
  }

  lemma {:induction false} EachAppend(k: Keymap, a: seq<Byte>, b: seq<Byte>)
    ensures Each(k, a + b) == Each(k, a) + Each(k, b)
    decreases |a|
  {
    hide TranslateKey;
    if a == [] {
      assert a + b == b;
    } else {
      assert (a + b)[0] == a[0] && (a + b)[1..] == a[1..] + b;
      EachAppend(k, a[1..], b);
    }
  }

  lemma LeadShifts(s: seq<Byte>)
    requires s != []
    ensures HasLead(s) <==> LeadAt(s, 0) || HasLead(s[1..])
  {
    if HasLead(s) && !LeadAt(s, 0) {
      var i :| LeadAt(s, i);
      assert LeadAt(s[1..], i - 1);
    }
    if HasLead(s[1..]) {
      var i :| LeadAt(s[1..], i);
      assert LeadAt(s, i + 1);
    }
  }

  lemma LeadInPart(a: seq<Byte>, b: seq<Byte>)
    ensures HasLead(a) || HasLead(b) ==> HasLead(a + b)
  {
    if HasLead(a) {
      var i :| LeadAt(a, i);
      assert LeadAt(a + b, i);
    }
    if HasLead(b) {
      var i :| LeadAt(b, i);
      assert LeadAt(a + b, |a| + i);
    }
  }

  /** A byte that starts no sequence is a key of its own; one that does takes the next byte with it. */
  lemma FirstKey(k: Keymap, s: seq<Byte>)
    requires s != []
    ensures !LeadAt(s, 0) ==> TranslateAll(k, s) == TranslateKey(k, [s[0]]) + TranslateAll(k, s[1..])
    ensures LeadAt(s, 0) ==>
              var n := KeyLength(s);
              n >= 2 && TranslateAll(k, s) == TranslateKey(k, s[..n]) + TranslateAll(k, s[n..])
  {
    hide TranslateKey;
    assert s[..1] == [s[0]];
  }

  lemma {:induction false} NoLeadIsEach(k: Keymap, s: seq<Byte>)
    requires !HasLead(s)
    ensures TranslateAll(k, s) == Each(k, s)
    decreases |s|
  {
    hide TranslateKey;
    if s != [] {
      LeadShifts(s);
      FirstKey(k, s);
      NoLeadIsEach(k, s[1..]);
    }
  }

  lemma NormaliseHead(s: seq<Byte>)
    ensures var n := Normalise(s, false).bytes;
            if s == [] then n == [] else n != [] && n[0] == if s[0] == LF then CR else s[0]
  {
  }

  /** Normalising line ends neither makes nor breaks a lead. */
  lemma {:induction false} NormaliseLeads(s: seq<Byte>, cr: bool)
    ensures HasLead(Normalise(s, cr).bytes) <==> HasLead(s)
    decreases |s|
  {
    if s == [] {
    } else if s[0] == LF && cr {
      LeadShifts(s);
      NormaliseLeads(s[1..], false);
    } else {
      var n, rest := Normalise(s, cr).bytes, Normalise(s[1..], s[0] == CR).bytes;
      assert n[1..] == rest;
      LeadShifts(s);
      LeadShifts(n);
      NormaliseHead(s[1..]);
      NormaliseLeads(s[1..], s[0] == CR);
    }
  }

  lemma TextAppend(piped: bool, a: seq<Byte>, b: seq<Byte>, cr: bool)
    ensures var x := Text(piped, a, cr);
            var y := Text(piped, b, x.cr);
            Text(piped, a + b, cr) == Lines(x.bytes + y.bytes, y.cr)
  {
    NormaliseAppend(a, b, cr);
  }

  lemma TextLeads(piped: bool, s: seq<Byte>, cr: bool)
    ensures HasLead(Text(piped, s, cr).bytes) <==> HasLead(s)
  {
    NormaliseLeads(s, cr);
  }

  lemma {:induction false} NoLeadStream(k: Keymap, piped: bool, chunks: seq<seq<Byte>>, cr: bool)
    requires !HasLead(Joined(chunks))
    ensures Stream(k, piped, chunks, cr).bytes == Each(k, Text(piped, Joined(chunks), cr).bytes)
    decreases |chunks|
  {
    hide Normalise, TranslateAll, TranslateKey, HasLead;
    if chunks == [] {
      NoText(piped, cr);
    } else {
      var a, rest := chunks[0], Joined(chunks[1..]);
      LeadInPart(a, rest);
      var n := Text(piped, a, cr);
      TextAppend(piped, a, rest, cr);
      NoLeadStream(k, piped, chunks[1..], n.cr);
      TextLeads(piped, a, cr);
      NoLeadIsEach(k, n.bytes);
      EachAppend(k, n.bytes, Text(piped, rest, n.cr).bytes);
    }
  }

  lemma NoText(piped: bool, cr: bool)
    ensures Text(piped, [], cr) == Lines([], cr)
  {
  }

  // ---- the other direction ----

  /** The input read a byte at a time. */
  function Singly(s: seq<Byte>): seq<seq<Byte>> { if s == [] then [] else [[s[0]]] + Singly(s[1..]) }

  lemma {:induction false} JoinSingly(s: seq<Byte>)
    ensures Joined(Singly(s)) == s
    decreases |s|
  {
    if s != [] {
      JoinSingly(s[1..]);
      assert Singly(s)[1..] == Singly(s[1..]);
    }
  }

  /** Read a byte at a time, no sequence is ever seen. */
  lemma {:induction false} SinglyIsEach(k: Keymap, piped: bool, s: seq<Byte>, cr: bool)
    ensures Stream(k, piped, Singly(s), cr).bytes == Each(k, Text(piped, s, cr).bytes)
    decreases |s|
  {
    hide TranslateKey, Normalise, TranslateAll, HasLead;
    if s == [] {
      NoText(piped, cr);
    } else {
      var a, rest, chunks := [s[0]], s[1..], Singly(s);
      assert chunks[0] == a && chunks[1..] == Singly(rest) && a + rest == s;
      var n := Text(piped, a, cr);
      TextAppend(piped, a, rest, cr);
      SinglyIsEach(k, piped, rest, n.cr);
      NoLeadInOne(a);
      TextLeads(piped, a, cr);
      NoLeadIsEach(k, n.bytes);
      EachAppend(k, n.bytes, Text(piped, rest, n.cr).bytes);
    }
  }

  lemma NoLeadInOne(a: seq<Byte>)
    requires |a| == 1
    ensures !HasLead(a)
  {
  }

  /** Only the backspace key sends something. */
  function OnlyBackspace(): Keymap { map[KEY_BS := [0x08]] }

  lemma {:induction false} EachKeepsLength(s: seq<Byte>)
    ensures |Each(OnlyBackspace(), s)| == |s|
    decreases |s|
  {
    if s != [] {
      EachKeepsLength(s[1..]);
    }
  }

  /** A sequence never names the backspace key. */
  lemma SequenceSilent(s: seq<Byte>)
    requires |s| >= 2
    ensures TranslateKey(OnlyBackspace(), s) == []
  {
    hide NumberAt;
    assert KeyForSequence(s) < KEY_BS;
  }

  lemma {:induction false} LeadShortens(s: seq<Byte>)
    ensures var n := |TranslateAll(OnlyBackspace(), s)|;
            n <= |s| && (HasLead(s) ==> n < |s|)
    decreases |s|
  {
    hide TranslateKey, TranslateAll, KeyLength, HasLead;
    var k := OnlyBackspace();
    if s == [] {
      NothingToTranslate(k);
    } else {
      LeadShifts(s);
      FirstKey(k, s);
      if LeadAt(s, 0) {
        var n := KeyLength(s);
        SequenceSilent(s[..n]);
        LeadShortens(s[n..]);
      } else {
        OneByteKey(s[0]);
        LeadShortens(s[1..]);
      }
    }
  }

  lemma NothingToTranslate(k: Keymap)
    ensures TranslateAll(k, []) == [] && !HasLead([])
  {
  }

  lemma OneByteKey(c: Byte)
    ensures |TranslateKey(OnlyBackspace(), [c])| == 1
  {
  }

  /** However the reads cut the input, and whatever the keys send, the guest is given the translation of the whole,
      with line ends normalised across the cuts. */
  ghost predicate CutsInvisible(piped: bool, s: seq<Byte>, cr: bool) {
    forall k: Keymap, chunks: seq<seq<Byte>> ::
      Joined(chunks) == s ==> Stream(k, piped, chunks, cr).bytes == TranslateAll(k, Text(piped, s, cr).bytes)
  }

  /** Where reads cut the input does not matter exactly when no ESC in it is directly followed by `[` or `O`. */
  lemma CutsInvisibleUnlessLead(piped: bool, s: seq<Byte>, cr: bool)
    ensures CutsInvisible(piped, s, cr) <==> !HasLead(s)
  {
    hide HasLead, TranslateAll, Stream, Text, Joined;
    if HasLead(s) {
      var k, chunks, w := OnlyBackspace(), Singly(s), Text(piped, s, cr).bytes;
      JoinSingly(s);
      SinglyIsEach(k, piped, s, cr);
      TextLeads(piped, s, cr);
      EachKeepsLength(w);
      LeadShortens(w);
      assert Stream(k, piped, chunks, cr).bytes != TranslateAll(k, w);
    } else {
      forall k: Keymap, chunks: seq<seq<Byte>> | Joined(chunks) == s
        ensures Stream(k, piped, chunks, cr).bytes == TranslateAll(k, Text(piped, s, cr).bytes)
      {
        NoLeadStream(k, piped, chunks, cr);
        TextLeads(piped, s, cr);
        NoLeadIsEach(k, Text(piped, s, cr).bytes);
      }
    }
  }

  /** Input without ESC in particular can be cut anywhere. */
  lemma ChunkingInvisible(k: Keymap, piped: bool, chunks: seq<seq<Byte>>, cr: bool)
    requires Without(Joined(chunks), ESC)
    ensures Stream(k, piped, chunks, cr).bytes == TranslateAll(k, Text(piped, Joined(chunks), cr).bytes)
  {
    hide TranslateAll, Stream, Text;
    var s := Joined(chunks);
    assert !HasLead(s);
    CutsInvisibleUnlessLead(piped, s, cr);
  }

  /** With an escape sequence cut by a read boundary it does matter. */
  lemma CutSequenceDiffers()
    ensures var k: Keymap := map[KEY_UP := [0x0B]];
            Stream(k, false, [[ESC, 0x5B, 0x41]], false).bytes == [0x0B]
            && Stream(k, false, [[ESC], [0x5B, 0x41]], false).bytes == [ESC, 0x5B, 0x41]
  {
    var k: Keymap := map[KEY_UP := [0x0B]];
    var s: seq<Byte> := [ESC, 0x5B, 0x41];
    assert CsiLength(s, 2) == 3;
    assert s[..3] == s && s[3..] == [];
    assert TranslateKey(k, s) == [0x0B];
    assert TranslateAll(k, s) == [0x0B];
    var t: seq<Byte> := [0x5B, 0x41];
    assert t[..1] == [0x5B] && t[1..] == [0x41] && t[1..][..1] == [0x41] && t[1..][1..] == [];
    var e: seq<Byte> := [ESC];
    assert e[..1] == e && e[1..] == [];
    assert TranslateAll(k, e) == [ESC] && TranslateAll(k, t) == [0x5B, 0x41];
    assert [e, t][1..] == [t] && [t][1..] == [] && [s][1..] == [];
    assert Stream(k, false, [t], false).bytes == [0x5B, 0x41];
    assert Stream(k, false, [s], false).bytes == [0x0B];
  }

  /** What more reads add comes after what was there. */
  lemma {:induction false} StreamAppend(k: Keymap, piped: bool, a: seq<seq<Byte>>, b: seq<seq<Byte>>, cr: bool)
    ensures var x := Stream(k, piped, a, cr);
            var y := Stream(k, piped, b, x.cr);
            Stream(k, piped, a + b, cr) == Lines(x.bytes + y.bytes, y.cr)
    decreases |a|
  {
    hide Text, TranslateAll;
    if a == [] {
      assert a + b == b;
    } else {
      assert (a + b)[0] == a[0] && (a + b)[1..] == a[1..] + b;
      var n := Text(piped, a[0], cr);
      StreamAppend(k, piped, a[1..], b, n.cr);
      var x := Stream(k, piped, a[1..], n.cr);
      var y := Stream(k, piped, b, x.cr);
      assert TranslateAll(k, n.bytes) + (x.bytes + y.bytes) == (TranslateAll(k, n.bytes) + x.bytes) + y.bytes;
    }
  }

  // ---- the ring queue ----

  const QSIZE: nat := 256

  /** Bytes in a ring whose next free cell is `head` and whose oldest byte is at `tail`. */
  function RingCount(head: nat, tail: nat): nat
    requires head < QSIZE && tail < QSIZE
  {
    (head + QSIZE - tail) % QSIZE
  }

  /** The queued bytes, oldest first. */
  function RingBytes(cells: seq<Byte>, head: nat, tail: nat): (s: seq<Byte>)
    requires |cells| == QSIZE && head < QSIZE && tail < QSIZE
    ensures |s| == RingCount(head, tail)
  {
    seq(RingCount(head, tail), i requires 0 <= i < RingCount(head, tail) => cells[(tail + i) % QSIZE])
  }

  lemma RingPush(cells: seq<Byte>, head: nat, tail: nat, c: Byte)
    requires |cells| == QSIZE && head < QSIZE && tail < QSIZE && (head + 1) % QSIZE != tail
    ensures RingBytes(cells[head := c], (head + 1) % QSIZE, tail) == RingBytes(cells, head, tail) + [c]
  {
    var n := RingCount(head, tail);
    OneCellMore(head, tail);
    var x, y := RingBytes(cells[head := c], (head + 1) % QSIZE, tail), RingBytes(cells, head, tail) + [c];
    forall i | 0 <= i < n + 1 ensures x[i] == y[i] {
      hide RingCount;
      CellAt(head, tail, i);
    }
  }

  lemma OneCellMore(head: nat, tail: nat)
    requires head < QSIZE && tail < QSIZE && (head + 1) % QSIZE != tail
    ensures RingCount((head + 1) % QSIZE, tail) == RingCount(head, tail) + 1
  {
    var next := if head + 1 == QSIZE then 0 else head + 1;
    Around(head + 1);
    Around(head + QSIZE - tail);
    Around(next + QSIZE - tail);
  }

  lemma Around(x: nat)
    requires x < 2 * QSIZE
    ensures x % QSIZE == if x < QSIZE then x else x - QSIZE
  {
  }

  /** The head is the cell after the last queued byte. */
  lemma CellAt(head: nat, tail: nat, i: nat)
    requires head < QSIZE && tail < QSIZE && i <= RingCount(head, tail)
    ensures (tail + i) % QSIZE == head <==> i == RingCount(head, tail)
  {
    Around(head + QSIZE - tail);
    Around(tail + i);
  }

  lemma RingPop(cells: seq<Byte>, head: nat, tail: nat)
    requires |cells| == QSIZE && head < QSIZE && tail < QSIZE && head != tail
    ensures RingBytes(cells, head, tail) == [cells[tail]] + RingBytes(cells, head, (tail + 1) % QSIZE)
  {
    var n := RingCount(head, tail);
    assert RingCount(head, (tail + 1) % QSIZE) == n - 1;
    var x, y := RingBytes(cells, head, tail), [cells[tail]] + RingBytes(cells, head, (tail + 1) % QSIZE);
    forall i | 0 <= i < n ensures x[i] == y[i] {
      NextCell(tail, i);
    }
  }

  lemma NextCell(tail: nat, i: nat)
    requires tail < QSIZE && i < QSIZE
    ensures i == 0 ==> (tail + i) % QSIZE == tail
    ensures i > 0 ==> ((tail + 1) % QSIZE + (i - 1)) % QSIZE == (tail + i) % QSIZE
  {
    if tail + 1 < QSIZE {
      assert (tail + 1) % QSIZE == tail + 1;
    } else {
      assert (tail + 1) % QSIZE == 0;
    }
  }

  /** Push at the head, pop at the tail; one cell stays free. */
  class Ring {
    const cells: array<Byte>
    var head: nat
    var tail: nat

    ghost predicate Valid()
      reads this, cells
    {
      cells.Length == QSIZE && head < QSIZE && tail < QSIZE
    }

    ghost function Contents(): (s: seq<Byte>)
      requires Valid()
      reads this, cells
      ensures |s| == RingCount(head, tail)
    {
      RingBytes(cells[..], head, tail)
    }

    constructor ()
      ensures Valid() && Contents() == [] && fresh(cells)
    {
      cells := new Byte[QSIZE];
      head, tail := 0, 0;
    }

    method IsEmpty() returns (b: bool)
      requires Valid()
      ensures b <==> Contents() == []
    {
      b := head == tail;
    }

    /** q_room. */
    method Room() returns (n: nat)
      requires Valid()
      ensures n == QSIZE - 1 - |Contents()|
    {
      n := (tail + QSIZE - head - 1) % QSIZE;
    }

    /** q_push: a byte that does not fit is dropped. */
    method Push(c: Byte)
      requires Valid()
      modifies this`head, cells
      ensures Valid() && Contents() == if |old(Contents())| < QSIZE - 1 then old(Contents()) + [c] else old(Contents())
    {
      hide RingBytes;
      var n := (head + 1) % QSIZE;
      ghost var was := cells[..];
      if n != tail {
        RingPush(was, head, tail, c);
        cells[head] := c;
        assert cells[..] == was[head := c];
        head := n;
      }
    }

    /** q_pop. */
    method Pop() returns (c: Byte)
      requires Valid() && Contents() != []
      modifies this`tail
      ensures Valid() && old(Contents()) == [c] + Contents()
    {
      hide RingBytes;
      RingPop(cells[..], head, tail);
      c := cells[tail];
      tail := (tail + 1) % QSIZE;
    }
  }

  // ---- host input ----

  /** What kaypro_kbd_read hands the guest: a byte of input, or ^Z at its end, unless ^] left the emulator. */
  datatype Key = Typed(c: Byte) | EndOfInput | Left

  const KBD_IDLE_POLLS: nat := 20000

  /** ^] is among the bytes read. */
  ghost predicate ExitPressed(chunks: seq<seq<Byte>>) { exists i :: 0 <= i < |chunks| && 0x1D in chunks[i] }

  lemma MoreRead(taken: seq<seq<Byte>>, chunk: seq<Byte>)
    ensures ExitPressed(taken) || EXIT_KEY in chunk ==> ExitPressed(taken + [chunk])
  {
    var all := taken + [chunk];
    if EXIT_KEY in chunk {
      assert EXIT_KEY in all[|taken|];
    } else if ExitPressed(taken) {
      var i :| 0 <= i < |taken| && EXIT_KEY in taken[i];
      assert EXIT_KEY in all[i];
    }
  }

  lemma EarlierExit(taken: seq<seq<Byte>>, input: seq<seq<Byte>>)
    ensures ExitPressed(taken) ==> ExitPressed(taken + input)
  {
    if ExitPressed(taken) {
      var i :| 0 <= i < |taken| && EXIT_KEY in taken[i];
      assert EXIT_KEY in (taken + input)[i];
    }
  }

  /** The host source: reads that are still to come, the last read's bytes not yet queued, and the queue. */
  class Console {
    const ring: Ring
    const keys: Keymap
    const piped: bool
    /** Bytes each coming read will return, at most 256; the input ends after them. */
    var input: seq<seq<Byte>>
    var hbuf: seq<Byte>
    var hoff: nat
    var lastCr: bool
    var gateOpen: bool
    var gatePolls: nat
    var eof: bool
    /** ^] was pressed: the emulator exits. */
    var exited: bool
    ghost var taken: seq<seq<Byte>>
    ghost var delivered: seq<Byte>

    /** Conservation: what the guest was given, what is queued and what is pending make up exactly the translation
        of what was read. */
    ghost predicate Valid()
      reads this, ring, ring.cells
    {
      ring.Valid() && hoff <= |hbuf| && (hbuf != [] ==> hoff < |hbuf|)
      && Lines(delivered + ring.Contents() + TranslateAll(keys, hbuf[hoff..]), lastCr)
         == Stream(keys, piped, taken, false)
      && ((exited || EXIT_KEY in hbuf) ==> ExitPressed(taken))
    }

    constructor (keys: Keymap, piped: bool, input: seq<seq<Byte>>)
      ensures Valid() && taken == [] && delivered == [] && this.input == input && this.keys == keys
              && this.piped == piped
      ensures fresh(ring) && fresh(ring.cells)
    {
      ring := new Ring();
      this.keys, this.piped, this.input := keys, piped, input;
      hbuf, hoff, lastCr, gateOpen, gatePolls, eof, exited := [], 0, false, false, 0, false, false;
      taken, delivered := [], [];
    }

    /** Queue one key's bytes. */
    method PushAll(bytes: seq<Byte>)
      requires ring.Valid() && |ring.Contents()| + |bytes| <= QSIZE - 1
      modifies ring`head, ring.cells
      ensures ring.Valid() && ring.Contents() == old(ring.Contents()) + bytes
    {
      var j := 0;
      assert bytes[..0] == [];
      while j < |bytes|
        invariant j <= |bytes| && ring.Valid() && ring.Contents() == old(ring.Contents()) + bytes[..j]
      {
        ring.Push(bytes[j]);
        assert bytes[..j + 1] == bytes[..j] + [bytes[j]];
        j := j + 1;
      }
      assert bytes[..j] == bytes;
    }

    /** host_drain: translate pending bytes while a whole key still fits; the rest waits. */
    method Drain() returns (queued: bool)
      requires Valid() && !exited
      modifies this`hbuf, this`hoff, this`exited, ring`head, ring.cells
      ensures Valid()
      ensures queued <==> |ring.Contents()| > |old(ring.Contents())|
      ensures old(ring.Contents()) <= ring.Contents()
      ensures old(ring.Contents()) == [] && !queued && !exited ==> hbuf == []
      ensures hbuf == old(hbuf) || hbuf == []
    {
      hide TranslateKey, KeyLength, Stream, RingBytes, ExitPressed;
      queued := false;
      ghost var all := delivered + ring.Contents() + TranslateAll(keys, hbuf[hoff..]);
      var room := ring.Room();
      while hoff < |hbuf| && room >= 8
        invariant !exited && ring.Valid() && hoff <= |hbuf| && hbuf == old(hbuf)
                  && room == QSIZE - 1 - |ring.Contents()|
        invariant delivered + ring.Contents() + TranslateAll(keys, hbuf[hoff..]) == all
        invariant old(ring.Contents()) <= ring.Contents() && (queued <==> |ring.Contents()| > |old(ring.Contents())|)
        decreases |hbuf| - hoff
      {
        if hbuf[hoff] == EXIT_KEY {
          exited := true;
          break;
        }
        var rest := hbuf[hoff..];
        var n := KeyLength(rest);
        var out := TranslateKey(keys, rest[..n]);
        Requeue(delivered, ring.Contents(), out, TranslateAll(keys, rest[n..]));
        PushAll(out);
        if out != [] {
          queued := true;
        }
        hoff := hoff + n;
        assert rest[n..] == hbuf[hoff..];
        room := ring.Room();
      }
      if hoff == |hbuf| {
        ghost var none := hbuf[hoff..];
        hbuf, hoff := [], 0;
        assert hbuf[hoff..] == none;
      }
    }

    /** The normalising loop of host_fetch, in place on the bytes just read. */
    method NormaliseRead(chunk: seq<Byte>) returns (bytes: seq<Byte>)
      modifies this`lastCr
      ensures Lines(bytes, lastCr) == Normalise(chunk, old(lastCr))
      ensures EXIT_KEY in bytes ==> EXIT_KEY in chunk
    {
      hide Normalise;
      bytes := [];
      var i := 0;
      assert chunk[0..] == chunk;
      assert [] + Normalise(chunk, lastCr).bytes == Normalise(chunk, lastCr).bytes;
      while i < |chunk|
        invariant i <= |chunk| && After(bytes, Normalise(chunk[i..], lastCr)) == Normalise(chunk, old(lastCr))
        invariant EXIT_KEY in bytes ==> EXIT_KEY in chunk
      {
        NormaliseAt(chunk, i, lastCr, bytes);
        var c := chunk[i];
        if c == LF && lastCr {
          lastCr := false;
        } else {
          lastCr := c == CR;
          bytes := bytes + [if c == LF then CR else c];
        }
        i := i + 1;
      }
      NormaliseAt(chunk, i, lastCr, bytes);
    }

    /** host_fetch; `ready` says whether a read would return at once.  1 if something was queued, 0 if not, -1 at
        the end of the input. */
    method Fetch(ready: bool) returns (r: int)
      requires Valid() && ring.Contents() == [] && !exited
      modifies this`input, this`hbuf, this`hoff, this`lastCr, this`exited, this`taken, ring`head, ring.cells
      ensures Valid() && old(taken) + old(input) == taken + input
      ensures r == 1 <==> ring.Contents() != []
      ensures r == -1 ==> input == [] && hbuf == [] && !exited
      ensures |input| == |old(input)| ==> |hbuf| <= |old(hbuf)|
      ensures |input| <= |old(input)|
              && (ready && r == 0 && !exited ==> hbuf == [] && (|input| < |old(input)| || old(hbuf) != []))
      ensures r == 1 || r == 0 || r == -1
    {
      hide TranslateAll, Stream, RingBytes, Normalise;
      if hbuf != [] {
        var queued := Drain();
        return if queued then 1 else 0;
      }
      if !ready {
        return 0;
      }
      if input == [] {
        return -1;
      }
      var chunk := input[0];
      StreamNext(keys, piped, taken, chunk);
      MoreRead(taken, chunk);
      ghost var text := Text(piped, chunk, lastCr);
      input := input[1..];
      taken := taken + [chunk];
      var bytes := chunk;
      if piped {
        bytes := NormaliseRead(chunk);
      }
      NothingPending(keys, delivered + ring.Contents(), hbuf[hoff..], bytes);
      hbuf, hoff := bytes, 0;
      assert hbuf[hoff..] == bytes;
      if hbuf == [] {
        return 0;
      }
      var queued := Drain();
      r := if queued then 1 else 0;
    }

    /** kaypro_kbd_poll on the host source: is there a byte for the guest?  `look` says that the host is asked,
        which happens at most once a millisecond. */
    method Poll(look: bool, ready: bool) returns (r: bool)
      requires Valid() && !exited
      modifies this`input, this`hbuf, this`hoff, this`lastCr, this`exited, this`taken, this`gateOpen, this`gatePolls,
          this`eof, ring`head, ring.cells
      ensures Valid() && old(taken) + old(input) == taken + input
      ensures r ==> ring.Contents() != []
      ensures !r && ring.Contents() != [] ==> piped && !gateOpen && gatePolls > 0
      ensures old(ring.Contents()) != [] ==> ring.Contents() == old(ring.Contents()) && (!piped || old(gateOpen) ==> r)
    {
      hide TranslateAll, Stream, RingBytes;
      var empty := ring.IsEmpty();
      if !empty {
        var g := Gated();
        return !g;
      }
      if !eof && (look || hbuf != []) {
        var got := Fetch(ready);
        if got == 1 {
          var g := Gated();
          return !g;
        }
        if got < 0 && piped {
          eof := true;
        }
      }
      r := false;
    }

    /** The line gate of piped input. */
    method Gated() returns (g: bool)
      modifies this`gateOpen, this`gatePolls
      ensures g <==> piped && !gateOpen
      ensures gateOpen <==> old(gateOpen) || (piped && old(gatePolls) + 1 >= KBD_IDLE_POLLS)
      ensures gatePolls == old(gatePolls) + (if piped && !old(gateOpen) then 1 else 0)
    {
      if !piped || gateOpen {
        return false;
      }
      gatePolls := gatePolls + 1;
      if gatePolls >= KBD_IDLE_POLLS {
        gateOpen := true;
        return false;
      }
      g := true;
    }

    /** Console output: the guest is not idle. */
    method NoteActivity()
      requires Valid()
      modifies this`gatePolls
      ensures Valid() && gatePolls == 0
    {
      gatePolls := 0;
    }

    /** kaypro_kbd_read on the host source: wait for a byte and take it. */
    method Read() returns (k: Key)
      requires Valid() && !exited
      modifies this`input, this`hbuf, this`hoff, this`lastCr, this`exited, this`taken, this`gateOpen, this`gatePolls,
          this`delivered,
        ring, ring.cells
      ensures Valid() && old(taken) + old(input) == taken + input
      ensures delivered == if k.Typed? then old(delivered) + [k.c] else old(delivered)
      ensures k.Left? <==> exited
      ensures k.EndOfInput? ==> input == [] && delivered == Stream(keys, piped, taken, false).bytes
    {
      hide TranslateAll, Stream, RingBytes, Normalise;
      gateOpen := true;
      var empty := ring.IsEmpty();
      while empty
        invariant Valid() && !exited && old(taken) + old(input) == taken + input && delivered == old(delivered)
        invariant empty <==> ring.Contents() == []
        decreases |input|, |hbuf|, empty
      {
        var r := Fetch(true);
        if r < 0 {
          AllDelivered(keys, delivered, ring.Contents(), hbuf[hoff..]);
          return EndOfInput;
        }
        if exited {
          return Left;
        }
        empty := r == 0;
      }
      ghost var was := ring.Contents();
      var c := ring.Pop();
      TakeOne(delivered, was, c, ring.Contents(), TranslateAll(keys, hbuf[hoff..]));
      delivered := delivered + [c];
      if piped && c == CR {
        gateOpen, gatePolls := false, 0;
      }
      k := Typed(c);
    }
  }

  /** What a guest does with its console. */
  datatype Action = DoPoll(look: bool, ready: bool) | DoRead | DoOutput

  /** Reads among the actions. */
  function Reads(acts: seq<Action>): nat { if acts == [] then 0
                 else (if acts[0].DoRead? then 1 else 0) + Reads(acts[1..]) }

  lemma NextAction(acts: seq<Action>, i: nat)
    requires i < |acts|
    ensures Reads(acts[i..]) == (if acts[i].DoRead? then 1 else 0) + Reads(acts[i + 1..])
  {
  }

  lemma NoActions(acts: seq<Action>)
    ensures acts == [] ==> Reads(acts) == 0
  {
  }

  /** Any interleaving of polls, reads and output.  The bytes the guest was given are an in-order prefix of the
      translated input, one for each read, and all of it once a read reports the end of the input; the session is cut
      short only if ^] is in the input. */
  method Session(con: Console, acts: seq<Action>) returns (ended: bool)
    requires con.Valid() && !con.exited
    modifies con, con.ring, con.ring.cells
    ensures con.Valid()
    ensures con.delivered <= Stream(con.keys, con.piped, old(con.taken) + old(con.input), false).bytes
    ensures ended ==> con.delivered == Stream(con.keys, con.piped, old(con.taken) + old(con.input), false).bytes
    ensures con.exited ==> ExitPressed(old(con.taken) + old(con.input))
    ensures !ended && !con.exited ==> |con.delivered| == |old(con.delivered)| + Reads(acts)
  {
    hide Stream, TranslateAll, RingBytes, Reads;
    assert acts[0..] == acts;
    ended := false;
    var i := 0;
    while i < |acts| && !con.exited && !ended
      invariant i <= |acts| && con.Valid() && con.taken + con.input == old(con.taken) + old(con.input)
      invariant ended ==> con.input == [] && con.delivered == Stream(con.keys, con.piped, con.taken, false).bytes
      invariant !ended && !con.exited ==> |con.delivered| + Reads(acts[i..]) == |old(con.delivered)| + Reads(acts)
    {
      NextAction(acts, i);
      match acts[i] {
        case DoPoll(look, ready) =>
          var _ := con.Poll(look, ready);
        case DoOutput => con.NoteActivity();
        case DoRead =>
          var k := con.Read();
          ended := k.EndOfInput?;
      }
      i := i + 1;
    }
    NoActions(acts[i..]);
    assert con.taken + [] == con.taken;
    EarlierExit(con.taken, con.input);
    Assoc(con.delivered, con.ring.Contents(), TranslateAll(con.keys, con.hbuf[con.hoff..]));
    DeliveredPrefix(con.keys, con.piped, con.taken, con.input, con.delivered,
                    con.ring.Contents() + TranslateAll(con.keys, con.hbuf[con.hoff..]));
  }

  lemma Requeue(a: seq<Byte>, b: seq<Byte>, c: seq<Byte>, d: seq<Byte>)
    ensures a + (b + c) + d == a + b + (c + d)
  {
  }

  lemma Assoc(a: seq<Byte>, b: seq<Byte>, c: seq<Byte>)
    ensures a + b + c == a + (b + c)
  {
  }

  // ---- scripted input ----

  datatype Step = Bytes(bytes: seq<Byte>) | WaitIdle(polls: int) | Other

  /** All the bytes of the steps. */
  function ScriptBytes(steps: seq<Step>): seq<Byte> {
    if steps == [] then [] else (if steps[0].Bytes? then steps[0].bytes else []) + ScriptBytes(steps[1..])
  }

  /** Every byte step has a byte. */
  ghost predicate NoEmptySteps(steps: seq<Step>) { forall i :: 0 <= i < |steps| && steps[i].Bytes? ==>
                               steps[i].bytes != [] }

  lemma NoSteps(steps: seq<Step>)
    ensures steps == [] ==> ScriptBytes(steps) == []
  {
  }

  /** The steps from `cur` on, without the first `off` bytes of that step. */
  ghost function RestFrom(steps: seq<Step>, cur: nat, off: nat): seq<Byte>
    requires cur <= |steps| && (off > 0 ==> cur < |steps| && steps[cur].Bytes? && off <= |steps[cur].bytes|)
  {
    if off == 0 then ScriptBytes(steps[cur..]) else steps[cur].bytes[off..] + ScriptBytes(steps[cur + 1..])
  }

  /** Taken, queued and to come. */
  ghost function InOrder(taken: seq<Byte>, queue: seq<Byte>, rest: seq<Byte>): seq<Byte> { taken + queue + rest }

  /** The script source: the queue is refilled a step at a time, in pieces that fit. */
  class Script {
    const ring: Ring
    const steps: seq<Step>
    var cur: nat
    var off: nat
    var idleArmed: bool
    var idleTarget: int
    ghost var delivered: seq<Byte>

    ghost predicate Valid()
      reads this, ring, ring.cells
    {
      ring.Valid() && cur <= |steps| && (off > 0 ==> cur < |steps| && steps[cur].Bytes? && off < |steps[cur].bytes|)
      && InOrder(delivered, ring.Contents(), Rest()) == ScriptBytes(steps)
    }

    /** Bytes not yet queued. */
    ghost function Rest(): seq<Byte>
      requires cur <= |steps| && (off > 0 ==> cur < |steps| && steps[cur].Bytes? && off <= |steps[cur].bytes|)
      reads this`cur, this`off
    {
      RestFrom(steps, cur, off)
    }

    constructor (steps: seq<Step>)
      ensures Valid() && delivered == [] && this.steps == steps && fresh(ring) && fresh(ring.cells)
    {
      ring := new Ring();
      this.steps := steps;
      cur, off, idleArmed, idleTarget, delivered := 0, 0, false, 0, [];
      new;
      assert steps[0..] == steps;
      assert [] + [] + ScriptBytes(steps) == ScriptBytes(steps);
    }

    /** The push loop of a byte step: as much of it as fits. */
    method PushFitting(bytes: seq<Byte>, from: nat) returns (o: nat)
      requires ring.Valid() && from <= |bytes|
      modifies ring`head, ring.cells
      ensures ring.Valid() && from <= o <= |bytes| && ring.Contents() == old(ring.Contents()) + bytes[from..o]
      ensures o == |bytes| || |ring.Contents()| == QSIZE - 1
    {
      hide RingBytes;
      o := from;
      var room := ring.Room();
      while o < |bytes| && room > 0
        invariant ring.Valid() && from <= o <= |bytes| && room == QSIZE - 1 - |ring.Contents()|
        invariant ring.Contents() == old(ring.Contents()) + bytes[from..o]
        decreases |bytes| - o
      {
        ring.Push(bytes[o]);
        assert bytes[from..o + 1] == bytes[from..o] + [bytes[o]];
        o := o + 1;
        room := ring.Room();
      }
    }

    /** A byte step of the script. */
    method Feed()
      requires Valid() && cur < |steps| && steps[cur].Bytes?
      modifies this`cur, this`off, ring`head, ring.cells
      ensures Valid() && old(cur) <= cur
      ensures old(off) < |steps[old(cur)].bytes| ==> ring.Contents() != []
    {
      hide ScriptBytes, RingBytes, InOrder;
      var bytes, from := steps[cur].bytes, off;
      ghost var was := ring.Contents();
      Pending(steps, cur, from);
      var o := PushFitting(bytes, from);
      Queued(delivered, was, steps, cur, from, o);
      Pending(steps, cur, o);
      if o == |bytes| {
        off, cur := 0, cur + 1;
      } else {
        off := o;
      }
    }

    /** script_advance: 1 if bytes are queued, 0 while waiting for the guest to go idle, -1 at the end. */
    method Advance(reading: bool) returns (r: int)
      requires Valid()
      modifies this`cur, this`off, this`idleArmed, this`idleTarget, ring`head, ring.cells
      ensures Valid() && -1 <= r <= 1
      ensures r == 1 && NoEmptySteps(steps) ==> ring.Contents() != []
      ensures r == 0 ==> ring.Contents() == [] && !reading && cur < |steps| && steps[cur].WaitIdle? && idleTarget > 0
      ensures r == -1 ==> ring.Contents() == [] && delivered == ScriptBytes(steps)
    {
      hide ScriptBytes, RingBytes;
      while true
        invariant Valid() && old(cur) <= cur
        decreases |steps| - cur
      {
        var empty := ring.IsEmpty();
        if !empty {
          return 1;
        }
        if cur == |steps| {
          NoSteps(steps[cur..]);
          return -1;
        }
        FirstStep(steps, cur);
        match steps[cur] {
          case Bytes(_) =>
            Feed();
            return 1;
          case WaitIdle(polls) =>
            if !idleArmed {
              idleArmed, idleTarget := true, polls;
            }
            if !(reading || idleTarget <= 0) {
              return 0;
            }
            idleArmed, cur := false, cur + 1;
          case Other => cur := cur + 1;
        }
      }
    }

    /** Take a byte of the script. */
    method Take() returns (c: Byte)
      requires Valid() && ring.Contents() != []
      modifies this`delivered, ring`tail
      ensures Valid() && delivered == old(delivered) + [c] && delivered <= ScriptBytes(steps)
    {
      hide ScriptBytes, RingBytes;
      ghost var was := ring.Contents();
      c := ring.Pop();
      TakeOne(delivered, was, c, ring.Contents(), Rest());
      delivered := delivered + [c];
      Assoc(delivered, ring.Contents(), Rest());
    }
  }

  lemma FirstStep(steps: seq<Step>, cur: nat)
    requires cur < |steps|
    ensures ScriptBytes(steps[cur..]) == (if steps[cur].Bytes? then steps[cur].bytes + ScriptBytes(steps[cur + 1..])
            else ScriptBytes(steps[cur + 1..]))
  {
    assert steps[cur..][1..] == steps[cur + 1..];
  }

  /** What is left of a byte step comes before the steps after it. */
  lemma Pending(steps: seq<Step>, cur: nat, off: nat)
    requires cur < |steps| && steps[cur].Bytes? && off <= |steps[cur].bytes|
    ensures RestFrom(steps, cur, off) == steps[cur].bytes[off..] + ScriptBytes(steps[cur + 1..])
    ensures off == |steps[cur].bytes| ==> RestFrom(steps, cur, off) == RestFrom(steps, cur + 1, 0)
  {
    hide ScriptBytes;
    FirstStep(steps, cur);
    assert steps[cur].bytes[0..] == steps[cur].bytes;
  }

  /** Bytes that move from a step to the queue stay in their place in the whole. */
  lemma Queued(a: seq<Byte>, queue: seq<Byte>, steps: seq<Step>, cur: nat, from: nat, o: nat)
    requires cur < |steps| && steps[cur].Bytes? && from <= o <= |steps[cur].bytes|
    ensures InOrder(a, queue, RestFrom(steps, cur, from))
            == InOrder(a, queue + steps[cur].bytes[from..o], RestFrom(steps, cur, o))
  {
    hide ScriptBytes, RestFrom;
    var bytes := steps[cur].bytes;
    Pending(steps, cur, from);
    Pending(steps, cur, o);
    assert bytes[from..] == bytes[from..o] + bytes[o..];
  }

  /** The text so far, and the rest. */
  function After(bytes: seq<Byte>, rest: Lines): Lines { Lines(bytes + rest.bytes, rest.cr) }

  lemma NormaliseAt(s: seq<Byte>, i: nat, cr: bool, bytes: seq<Byte>)
    requires i <= |s|
    ensures After(bytes, Normalise(s[i..], cr))
         == if i == |s| then Lines(bytes, cr)
            else if s[i] == LF && cr then After(bytes, Normalise(s[i + 1..], false))
            else After(bytes + [if s[i] == LF then CR else s[i]], Normalise(s[i + 1..], s[i] == CR))
  {
    if i < |s| {
      assert s[i..][1..] == s[i + 1..];
      if !(s[i] == LF && cr) {
        var c := if s[i] == LF then CR else s[i];
        assert bytes + ([c] + Normalise(s[i + 1..], s[i] == CR).bytes)
            == (bytes + [c]) + Normalise(s[i + 1..], s[i] == CR).bytes;
      }
    } else {
      assert s[i..] == [] && bytes + [] == bytes;
    }
  }

  lemma StreamNext(k: Keymap, piped: bool, taken: seq<seq<Byte>>, chunk: seq<Byte>)
    ensures var x := Stream(k, piped, taken, false);
            var n := Text(piped, chunk, x.cr);
            Stream(k, piped, taken + [chunk], false) == Lines(x.bytes + TranslateAll(k, n.bytes), n.cr)
  {
    hide Text, TranslateAll;
    var x := Stream(k, piped, taken, false);
    StreamAppend(k, piped, taken, [chunk], false);
    assert [chunk][1..] == [];
    var n := Text(piped, chunk, x.cr);
    assert Stream(k, piped, [], n.cr) == Lines([], n.cr);
    assert TranslateAll(k, n.bytes) + [] == TranslateAll(k, n.bytes);
  }

  lemma NothingPending(k: Keymap, before: seq<Byte>, pending: seq<Byte>, bytes: seq<Byte>)
    requires pending == []
    ensures before + TranslateAll(k, pending) + TranslateAll(k, bytes) == before + TranslateAll(k, bytes)
    ensures before + TranslateAll(k, []) == before
  {
  }

  lemma AllDelivered(k: Keymap, delivered: seq<Byte>, queue: seq<Byte>, pending: seq<Byte>)
    requires queue == [] && pending == []
    ensures delivered + queue + TranslateAll(k, pending) == delivered
  {
  }

  lemma TakeOne(a: seq<Byte>, was: seq<Byte>, c: Byte, queue: seq<Byte>, b: seq<Byte>)
    requires was == [c] + queue
    ensures (a + [c]) + queue + b == a + was + b
  {
  }

  /** Whatever polls, reads and output the guest interleaves, the bytes it was given are a prefix of the translation
      of the whole input, which does not depend on when the reads happened. */
  lemma DeliveredPrefix(k: Keymap, piped: bool, taken: seq<seq<Byte>>, input: seq<seq<Byte>>, delivered: seq<Byte>,
                        rest: seq<Byte>)
    requires delivered + rest == Stream(k, piped, taken, false).bytes
    ensures delivered <= Stream(k, piped, taken + input, false).bytes
  {
    hide Stream;
    StreamAppend(k, piped, taken, input, false);
    var all := Stream(k, piped, taken + input, false).bytes;
    assert all[..|delivered|] == delivered;
  }
}
