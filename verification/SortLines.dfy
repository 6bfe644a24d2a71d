/** Files of the sort (cpm/sort/sort.asm): text lines, input streams, and the names of run files. */
module SortLines {
  import opened Sort

  const CTRL_Z: Byte := 0x1A

  // ---- lines ----

  /** One more byte of a line; bytes past 255 are dropped. */
  function Extended(line: Rec, b: Byte): Rec
    requires b != 13 && b != 10 && b != CTRL_Z
  {
    if |line| >= MAXREC then line else line + [b]
  }

  /** in_getline over a whole file: CR dropped, LF ends a line, ^Z or the end ends the file, a last line without LF
      still counts. */
  function ReadLines(bytes: seq<Byte>, line: Rec): seq<Rec>
    decreases |bytes|
  {
    if bytes == [] || bytes[0] == CTRL_Z then (if line == [] then [] else [line])
    else if bytes[0] == 13 then ReadLines(bytes[1..], line)
    else if bytes[0] == 10 then [line] + ReadLines(bytes[1..], [])
    else ReadLines(bytes[1..], Extended(line, bytes[0]))
  }

  /** Does the file end in the middle of a line? */
  predicate LastLineOpen(bytes: seq<Byte>, line: Rec)
    decreases |bytes|
  {
    if bytes == [] || bytes[0] == CTRL_Z then line != []
    else if bytes[0] == 13 then LastLineOpen(bytes[1..], line)
    else if bytes[0] == 10 then LastLineOpen(bytes[1..], [])
    else LastLineOpen(bytes[1..], Extended(line, bytes[0]))
  }

  /** out_putrec for each record. */
  function WriteLines(recs: seq<Rec>): seq<Byte> {
    if recs == [] then [] else recs[0] + [13, 10] + WriteLines(recs[1..])
  }

  /** out_close writes a ^Z and then fills up the record of 128 bytes; when the ^Z was the last byte of a record,
      that is one more record. */
  function EndMarks(n: nat): nat { if n % 128 == 127 then 129 else 128 - n % 128 }

  function Closed(bytes: seq<Byte>): seq<Byte> { bytes + seq(EndMarks(|bytes|), _ => CTRL_Z) }

  lemma {:induction false} ReadRecord(r: seq<Byte>, line: Rec, rest: seq<Byte>)
    requires Clean(r) && |line| + |r| <= MAXREC
    ensures Clean(line + r)
    ensures ReadLines(r + rest, line) == ReadLines(rest, line + r)
    ensures LastLineOpen(r + rest, line) == LastLineOpen(rest, line + r)
    decreases |r|
  {
    if r == [] {
      assert r + rest == rest && line + r == line;
    } else {
      assert (r + rest)[0] == r[0] && (r + rest)[1..] == r[1..] + rest;
      ReadRecord(r[1..], line + [r[0]], rest);
      assert (line + [r[0]]) + r[1..] == line + r;
    }
  }

  lemma ReadEnd(line: Rec, rest: seq<Byte>)
    ensures ReadLines([13, 10] + rest, line) == [line] + ReadLines(rest, [])
    ensures LastLineOpen([13, 10] + rest, line) == LastLineOpen(rest, [])
  {
    var tail: seq<Byte> := [13, 10] + rest;
    assert tail[0] == 13 && tail[1..] == [10] + rest && ([10] + rest)[1..] == rest;
    assert ReadLines(tail, line) == ReadLines([10] + rest, line);
    assert LastLineOpen(tail, line) == LastLineOpen([10] + rest, line);
  }

  lemma {:induction false} ReadWritten(recs: seq<Rec>, marks: seq<Byte>)
    requires marks != [] && marks[0] == CTRL_Z
    ensures ReadLines(WriteLines(recs) + marks, []) == recs && !LastLineOpen(WriteLines(recs) + marks, [])
    decreases |recs|
  {
    if recs == [] {
      assert WriteLines(recs) + marks == marks;
    } else {
      var r, rest := recs[0], WriteLines(recs[1..]) + marks;
      assert WriteLines(recs) + marks == r + ([13, 10] + rest);
      ReadRecord(r, [], [13, 10] + rest);
      assert [] + r == r;
      ReadEnd(r, rest);
      ReadWritten(recs[1..], marks);
    }
  }

  /** Spilling loses nothing: a closed file reads back as the records that were written, empty ones included, and it
      never ends in the middle of a line. */
  lemma SpillRoundTrip(recs: seq<Rec>)
    ensures ReadLines(Closed(WriteLines(recs)), []) == recs && !LastLineOpen(Closed(WriteLines(recs)), [])
    ensures |Closed(WriteLines(recs))| % 128 == 0
  {
    hide ReadLines, LastLineOpen, WriteLines;
    ReadWritten(recs, seq(EndMarks(|WriteLines(recs)|), _ => CTRL_Z));
  }

  lemma {:induction false} WriteOneMore(recs: seq<Rec>, r: Rec)
    ensures WriteLines(recs + [r]) == WriteLines(recs) + (r + [13, 10])
    decreases |recs|
  {
    if recs == [] {
      assert recs + [r] == [r] && [r][1..] == [];
      assert WriteLines([r]) == r + [13, 10] + WriteLines([]);
    } else {
      assert (recs + [r])[0] == recs[0] && (recs + [r])[1..] == recs[1..] + [r];
      WriteOneMore(recs[1..], r);
    }
  }

  // ---- what the two functions above mean, line by line ----

  /** The text of a list of records: where record k starts, its bytes, a carriage return and a line feed follow. */
  ghost predicate IsText(text: seq<Byte>, recs: seq<Rec>) { exists start: seq<nat> :: StartsAre(start, text, recs) }

  ghost predicate StartsAre(start: seq<nat>, text: seq<Byte>, recs: seq<Rec>) {
    |start| == |recs| + 1 && start[0] == 0 && start[|recs|] == |text| && forall k :: 0 <= k < |recs| ==>
        OneLine(start, text, recs, k)
  }

  ghost predicate OneLine(start: seq<nat>, text: seq<Byte>, recs: seq<Rec>, k: nat)
    requires |start| == |recs| + 1 && k < |recs|
  {
    start[k] + |recs[k]| + 2 == start[k + 1] <= |text| && text[start[k]..start[k + 1]] == recs[k] + [0x0D, 0x0A]
  }

  lemma {:induction false} WritesText(recs: seq<Rec>)
    ensures IsText(WriteLines(recs), recs)
    decreases |recs|
  {
    if recs == [] {
      var start: seq<nat> := [0];
      assert StartsAre(start, WriteLines(recs), recs);
    } else {
      var n := |recs[0]| + 2;
      var text, tail := WriteLines(recs), WriteLines(recs[1..]);
      WritesText(recs[1..]);
      var rest: seq<nat> :| StartsAre(rest, tail, recs[1..]);
      var start: seq<nat> := [0] + seq(|rest|, k requires 0 <= k < |rest| => rest[k] + n);
      forall k | 0 <= k < |recs| ensures OneLine(start, text, recs, k) {
        if k == 0 {
          assert text[0..n] == recs[0] + [0x0D, 0x0A];
        } else {
          assert OneLine(rest, tail, recs[1..], k - 1);
          SliceShift(recs[0] + [0x0D, 0x0A], tail, rest[k - 1], rest[k]);
        }
      }
      assert StartsAre(start, text, recs);
    }
  }

  lemma SliceShift(p: seq<Byte>, t: seq<Byte>, a: nat, b: nat)
    requires a <= b <= |t|
    ensures (p + t)[a + |p|..b + |p|] == t[a..b]
  {
  }

  /** The bytes without carriage returns. */
  function WithoutCr(x: seq<Byte>): seq<Byte> {
    if x == [] then [] else (if x[0] == 0x0D then [] else [x[0]]) + WithoutCr(x[1..])
  }

  /** No line feed and no ^Z. */
  predicate OneLineOf(x: seq<Byte>) { forall i :: 0 <= i < |x| ==> x[i] != 0x0A && x[i] != 0x1A }

  function First255(x: seq<Byte>): seq<Byte> { if |x| <= 255 then x else x[..255] }

  /** What is kept of a line: carriage returns go, and what is past 255 bytes. */
  function Kept(x: seq<Byte>): seq<Byte> { First255(WithoutCr(x)) }

  lemma CutTwice(a: seq<Byte>, b: seq<Byte>)
    ensures First255(First255(a) + b) == First255(a + b)
  {
    if |a| > 255 {
      assert (a[..255] + b)[..255] == a[..255] && (a + b)[..255] == a[..255];
    }
  }

  lemma ExtendedIs(line: Rec, b: Byte)
    requires b != 13 && b != 10 && b != CTRL_Z
    ensures Extended(line, b) == First255(line + [b])
  {
  }

  function Gathered(line: Rec, x: seq<Byte>): Rec
    requires OneLineOf(x)
    decreases |x|
  {
    if x == [] then line else Gathered(if x[0] == 13 then line else Extended(line, x[0]), x[1..])
  }

  lemma {:induction false} GatheredIs(line: Rec, x: seq<Byte>)
    requires OneLineOf(x)
    ensures Gathered(line, x) == First255(line + WithoutCr(x))
    decreases |x|
  {
    hide First255, Extended;
    if x == [] {
      assert line + [] == line;
      CutShort(line);
    } else if x[0] == 13 {
      GatheredIs(line, x[1..]);
      assert WithoutCr(x) == WithoutCr(x[1..]);
    } else {
      GatheredIs(Extended(line, x[0]), x[1..]);
      ExtendedIs(line, x[0]);
      CutTwice(line + [x[0]], WithoutCr(x[1..]));
      assert line + ([x[0]] + WithoutCr(x[1..])) == (line + [x[0]]) + WithoutCr(x[1..]);
    }
  }

  lemma CutShort(line: Rec)
    ensures First255(line) == line
  {
  }

  lemma {:induction false} ReadOver(x: seq<Byte>, line: Rec, rest: seq<Byte>)
    requires OneLineOf(x)
    ensures ReadLines(x + rest, line) == ReadLines(rest, Gathered(line, x))
    decreases |x|
  {
    if x == [] {
      assert x + rest == rest;
    } else {
      assert (x + rest)[0] == x[0] && (x + rest)[1..] == x[1..] + rest;
      ReadOver(x[1..], if x[0] == 13 then line else Extended(line, x[0]), rest);
    }
  }

  /** A line ends at LF, and the file at ^Z or its end; a last line without LF counts unless nothing is kept of it. */
  lemma ReadLaw(x: seq<Byte>, rest: seq<Byte>)
    requires OneLineOf(x)
    ensures |Kept(x)| <= 255 && Clean(Kept(x))
    ensures ReadLines(x + [0x0A] + rest, []) == [Kept(x)] + ReadLines(rest, [])
    ensures ReadLines(x + [0x1A] + rest, []) == if Kept(x) == [] then [] else [Kept(x)]
    ensures ReadLines(x, []) == if Kept(x) == [] then [] else [Kept(x)]
  {
    hide First255, WithoutCr;
    GatheredIs([], x);
    assert [] + WithoutCr(x) == WithoutCr(x);
    assert Kept(x) == Gathered([], x);
    var lf: seq<Byte> := [0x0A];
    var end: seq<Byte> := [0x1A];
    assert x + lf + rest == x + (lf + rest) && (lf + rest)[0] == 0x0A && (lf + rest)[1..] == rest;
    assert x + end + rest == x + (end + rest) && (end + rest)[0] == 0x1A;
    ReadOver(x, [], lf + rest);
    ReadOver(x, [], end + rest);
    ReadOver(x, [], []);
    assert x + [] == x;
  }

  // ---- input streams ----

  /** An open file: where reading stands, and i_eof. */
  datatype Stream = Stream(bytes: seq<Byte>, pos: nat, eof: bool)

  ghost predicate Opened(s: Stream) { s.pos <= |s.bytes| }

  /** What is still to be read. */
  function Unread(s: Stream): seq<Byte>
    requires Opened(s)
  {
    if s.eof then [] else s.bytes[s.pos..]
  }

  /** in_getline: the next line, or no line at the end of the file.  i_eof is also set when the last line has no LF,
      so only a file whose lines are all ended keeps it clear as long as lines come. */
  method GetLine(s: Stream) returns (ok: bool, line: Rec, t: Stream)
    requires Opened(s)
    ensures Opened(t) && t.bytes == s.bytes
    ensures ReadLines(Unread(s), []) == if ok then [line] + ReadLines(Unread(t), []) else []
    ensures ok && !LastLineOpen(Unread(s), []) ==> !t.eof && !LastLineOpen(Unread(t), [])
    ensures !ok ==> t.eof
  {
    line := [];
    if s.eof {
      return false, [], s;
    }
    var i := s.pos;
    while i < |s.bytes| && s.bytes[i] != CTRL_Z
      invariant s.pos <= i <= |s.bytes|
      invariant ReadLines(s.bytes[i..], line) == ReadLines(Unread(s), [])
      invariant LastLineOpen(s.bytes[i..], line) == LastLineOpen(Unread(s), [])
    {
      assert s.bytes[i..][1..] == s.bytes[i + 1..];
      if s.bytes[i] == 10 {
        return true, line, s.(pos := i + 1);
      }
      if s.bytes[i] != 13 {
        line := Extended(line, s.bytes[i]);
      }
      i := i + 1;
    }
    ok := line != [];
    t := s.(pos := i, eof := true);
  }

  // ---- run files ----

  const DRIVE_B: Byte := 0x42
  const DRIVE_C: Byte := 0x43

  /** A work file d:Rabc.TMP, or SORTOUT. */
  datatype FileName = Work(drive: Byte, a: Byte, b: Byte, c: Byte) | SortOut

  /** A digit of a name: '0' plus the low byte of a quotient, in eight bits. */
  function DigitOf(n: nat): Byte { (n % 256 + 0x30) % 256 }

  function RunName(drive: Byte, n: nat): FileName {
    Work(drive, DigitOf(n / 100), DigitOf(n % 100 / 10), DigitOf(n % 10))
  }

  predicate IsDigit(c: Byte) { 0x30 <= c <= 0x39 }

  lemma DigitsDiffer(n: nat, m: nat)
    ensures DigitOf(n) == DigitOf(m) <==> n % 256 == m % 256
    ensures IsDigit(DigitOf(n)) <==> n % 256 <= 9
  {
  }

  lemma Units(q: nat, v: nat)
    requires v <= 9
    ensures (10 * q + v) % 10 == v
  {
  }

  lemma Parts(n: nat, d: nat)
    requires d == 10 || d == 100
    ensures n == d * (n / d) + n % d && n % d < d
  {
  }

  lemma Tens(n: nat)
    ensures n % 100 == n % 100 / 10 * 10 + n % 10 && n % 100 / 10 <= 9
  {
    var h, t := n / 100, n % 100;
    Parts(n, 100);
    Parts(t, 10);
    var q, v := 10 * h + t / 10, t % 10;
    assert n == 10 * q + v;
    Units(q, v);
  }

  lemma Hundreds(n: nat)
    ensures n % 25600 == n / 100 % 256 * 100 + n % 100
  {
    var h := n / 100;
    var q, r := h / 256, h % 256 * 100 + n % 100;
    assert n == 100 * h + n % 100 && h == 256 * q + h % 256;
    assert n == 25600 * q + r && 0 <= r < 25600;
    assert (25600 * q + r) % 25600 == r;
  }

  lemma NumberParts(n: nat)
    ensures n % 25600 == n / 100 % 256 * 100 + n % 100 / 10 * 10 + n % 10
    ensures 0 <= n / 100 % 256 < 256 && 0 <= n % 100 / 10 <= 9 && 0 <= n % 10 <= 9
  {
    Tens(n);
    Hundreds(n);
  }

  /** Run numbers get names of their own up to multiples of 25600, and names in plain decimal digits exactly when they
      are at most 999 above such a multiple. */
  lemma RunNames(drive: Byte, n: nat, m: nat)
    ensures RunName(drive, n) == RunName(drive, m) <==> n % 25600 == m % 25600
    ensures var f := RunName(drive, n);
            IsDigit(f.a) && IsDigit(f.b) && IsDigit(f.c) <==> n % 25600 <= 999
  {
    hide DigitOf;
    NumberParts(n);
    NumberParts(m);
    DigitsDiffer(n / 100, m / 100);
    DigitsDiffer(n % 100 / 10, m % 100 / 10);
    DigitsDiffer(n % 10, m % 10);
    SameParts(n / 100 % 256, n % 100 / 10, n % 10, m / 100 % 256, m % 100 / 10, m % 10);
  }

  lemma SameParts(a: nat, b: nat, c: nat, x: nat, y: nat, z: nat)
    requires b <= 9 && c <= 9 && y <= 9 && z <= 9
    ensures 100 * a + 10 * b + c == 100 * x + 10 * y + z <==> a == x && b == y && c == z
    ensures 100 * a + 10 * b + c <= 999 <==> a <= 9
  {
  }

  const MAX_RUNS: nat := 999

  lemma OwnName(drive: Byte, n: nat, m: nat)
    requires n <= MAX_RUNS && m <= MAX_RUNS && n != m
    ensures RunName(drive, n) != RunName(drive, m)
  {
    hide RunName;
    RunNames(drive, n, m);
  }
}
