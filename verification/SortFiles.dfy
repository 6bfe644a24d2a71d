/** SORT.COM as a job on files (cpm/sort/sort.asm): runs are spilled to drive B, merged 16 at a time between drives B
    and C, and the last merge goes to SORTOUT. */
module SortFiles {
  import opened Sort
  import opened SortOrder
  import opened SortLines

  type Files = map<FileName, seq<Byte>>

  function Texts(items: seq<Item>): (s: seq<Rec>)
    ensures |s| == |items| && forall i :: 0 <= i < |items| ==> s[i] == items[i].rec
  {
    seq(|items|, i requires 0 <= i < |items| => items[i].rec)
  }

  /** The file a run is written to. */
  function FileOf(run: seq<Item>): seq<Byte> { Closed(WriteLines(Texts(run))) }

  /** Runs from `lo` on are on the drive, under their numbers. */
  ghost predicate OnDrive(files: Files, drive: Byte, runs: seq<seq<Item>>, lo: nat, hi: nat) {
    hi <= |runs| && forall r :: lo <= r < hi ==> Has(files, RunName(drive, r + 1), FileOf(runs[r]))
  }

  predicate Has(files: Files, name: FileName, bytes: seq<Byte>) { name in files && files[name] == bytes }

  /** The names of runs [lo, hi). */
  ghost function Names(drive: Byte, lo: nat, hi: nat): set<FileName> { set n | lo <= n < hi :: RunName(drive, n) }

  /** The files of a job with `n` runs on the drive: a single run is in SORTOUT. */
  ghost function Mine(drive: Byte, n: nat): set<FileName> { {SortOut} + if n <= 1 then {} else Names(drive, 1, n + 1) }

  /** Apart from `mine`, every file there is was there before, unchanged. */
  ghost predicate Others(files: Files, before: Files, mine: set<FileName>) {
    forall f <- files :: f !in mine ==> Has(before, f, files[f])
  }

  lemma Spill(files: Files, drive: Byte, runs: seq<seq<Item>>, run: seq<Item>)
    requires OnDrive(files, drive, runs, 0, |runs|) && |runs| < MAX_RUNS
    ensures OnDrive(files[RunName(drive, |runs| + 1) := FileOf(run)], drive, runs + [run], 0, |runs| + 1)
  {
    hide RunName, FileOf;
    forall n | 1 <= n <= |runs| ensures RunName(drive, n) != RunName(drive, |runs| + 1) {
      OwnName(drive, n, |runs| + 1);
    }
  }

  /** writeto: the pool in pointer order. */
  method WriteTo(ptrs: array<Item>, count: nat) returns (bytes: seq<Byte>)
    requires count <= ptrs.Length
    ensures bytes == FileOf(ptrs[..count])
  {
    hide WriteLines;
    var out: seq<Byte> := [];
    assert Texts(ptrs[..0]) == [];
    NoLines();
    var i := 0;
    while i < count
      invariant i <= count && out == WriteLines(Texts(ptrs[..i]))
    {
      assert Texts(ptrs[..i + 1]) == Texts(ptrs[..i]) + [ptrs[i].rec];
      WriteOneMore(Texts(ptrs[..i]), ptrs[i].rec);
      out := out + (ptrs[i].rec + [13, 10]);
      i := i + 1;
    }
    bytes := Closed(out);
  }

  lemma NoLines()
    ensures WriteLines([]) == []
  {
  }

  // ---- forming runs ----

  /** Runs formed from record `pos` on, with `count` records in the pool that take `used` bytes of it. */
  function RunsFrom(input: seq<Rec>, room: nat, pos: nat, count: nat, used: nat): nat
    requires room > MAXREC + 1 && pos <= |input| && (count == 0 ==> used == 0)
    decreases |input| - pos, count
  {
    if pos == |input| then (if count > 0 then 1 else 0)
    else
      var next := used + |input[pos]| + 1;
      if next >= room || count >= PTRMAX then 1 + RunsFrom(input, room, pos, 0, 0)
      else RunsFrom(input, room, pos + 1, count + 1, next)
  }

  /** How many runs an input makes. */
  function RunCount(input: seq<Rec>, room: nat): nat
    requires room > MAXREC + 1
  {
    RunsFrom(input, room, 0, 0, 0)
  }

  /** What formruns leaves: one run goes straight to SORTOUT, more are on drive B. */
  ghost predicate Formed(files: Files, runs: seq<seq<Item>>) {
    if |runs| <= 1 then Has(files, SortOut, FileOf(Flat(runs))) else OnDrive(files, DRIVE_B, runs, 0, |runs|)
  }

  /** Where reading stands: `pos` records are in runs or in the pool, and one more may be pending. */
  ghost predicate Reading(input: seq<Rec>, s: Stream, pos: nat, pending: bool, line: Rec) {
    Opened(s) && pos <= |input|
    && if pending then pos < |input| && line == input[pos] && ReadLines(Unread(s), []) == input[pos + 1..]
       else ReadLines(Unread(s), []) == input[pos..]
  }

  lemma NextRecord(input: seq<Rec>, pos: nat, line: Rec, rest: seq<Rec>)
    requires pos <= |input| && input[pos..] == [line] + rest
    ensures pos < |input| && line == input[pos] && rest == input[pos + 1..]
  {
    assert input[pos..][0] == line;
    assert input[pos..][1..] == input[pos + 1..];
    assert ([line] + rest)[1..] == rest;
  }

  method NextLine(s: Stream, ghost input: seq<Rec>, ghost pos: nat) returns (got: bool, line: Rec, t: Stream)
    requires Reading(input, s, pos, false, [])
    ensures Reading(input, t, pos, got, if got then line else []) && (!got ==> pos == |input|)
  {
    hide ReadLines;
    got, line, t := GetLine(s);
    if got {
      NextRecord(input, pos, line, ReadLines(Unread(t), []));
    } else {
      NothingUnread(t);
    }
  }

  lemma NothingUnread(s: Stream)
    requires Opened(s) && s.eof
    ensures ReadLines(Unread(s), []) == []
  {
  }

  lemma LinePending(input: seq<Rec>, s: Stream, pos: nat, line: Rec)
    requires Reading(input, s, pos, true, line)
    ensures pos < |input| && line == input[pos]
  {
    hide ReadLines;
  }

  lemma ReadStart(bytes: seq<Byte>)
    ensures Reading(ReadLines(bytes, []), Stream(bytes, 0, false), 0, false, [])
  {
    hide ReadLines;
    assert bytes[0..] == bytes;
  }

  lemma LineTaken(input: seq<Rec>, s: Stream, pos: nat, line: Rec)
    requires pos > 0 && Reading(input, s, pos - 1, true, line)
    ensures Reading(input, s, pos, false, line) && Reading(input, s, pos, false, [])
  {
    hide ReadLines;
  }

  /** The pool as it is between two records. */
  ghost predicate Pooling(keys: seq<Key>, input: seq<Rec>, room: nat, runs: seq<seq<Item>>, pool: seq<Item>, pos: nat,
                          used: nat)
    requires room > MAXREC + 1
  {
    && Forming(keys, input, runs, pool, pos) && |pool| <= PTRMAX && (pool == [] ==> used == 0)
    && |runs| + RunsFrom(input, room, pos, |pool|, used) == RunCount(input, room)
  }

  lemma PoolStart(keys: seq<Key>, input: seq<Rec>, room: nat)
    requires room > MAXREC + 1
    ensures Pooling(keys, input, room, [], [], 0, 0)
  {
    hide Forming;
    FormingStart(keys, input);
  }

  /** A record that does not fit: the pool becomes a run. */
  lemma PoolFull(keys: seq<Key>, input: seq<Rec>, room: nat, runs: seq<seq<Item>>, pool: seq<Item>, pos: nat, used: nat)
    requires room > MAXREC + 1 && Pooling(keys, input, room, runs, pool, pos, used) && pos < |input|
    requires used + |input[pos]| + 1 >= room || |pool| >= PTRMAX
    ensures pool != [] && Pooling(keys, input, room, runs + [pool], [], pos, 0) && |runs| < RunCount(input, room)
  {
    hide Forming;
    PoolSpills(keys, input, runs, pool, pos);
  }

  lemma PoolTakes(keys: seq<Key>, input: seq<Rec>, room: nat, runs: seq<seq<Item>>, pool: seq<Item>, pool1: seq<Item>,
                  pos: nat, used: nat)
    requires room > MAXREC + 1 && Pooling(keys, input, room, runs, pool, pos, used) && pos < |input|
    requires used + |input[pos]| + 1 < room && |pool| < PTRMAX && |pool1| == |pool| + 1
    requires Ordered(keys, pool1) && multiset(pool1) == multiset(pool) + multiset{Item(input[pos], pos)}
    ensures Pooling(keys, input, room, runs, pool1, pos + 1, used + |input[pos]| + 1)
  {
    hide Forming, Ordered;
    PoolGrows(keys, input, runs, pool, pool1, pos);
  }

  /** The end of the input: what is in the pool is the last run. */
  lemma PoolEnds(keys: seq<Key>, input: seq<Rec>, room: nat, runs: seq<seq<Item>>, pool: seq<Item>, used: nat)
    requires room > MAXREC + 1 && Pooling(keys, input, room, runs, pool, |input|, used)
    ensures var all := if pool == [] then runs else runs + [pool];
            && Sorted(keys, all) && multiset(Flat(all)) == multiset(Tagged(input)) && |all| == RunCount(input, room)
  {
    hide Forming, Sorted, Flat;
    if pool == [] {
      AllFormed(keys, input, runs);
    } else {
      PoolSpills(keys, input, runs, pool, |input|);
      AllFormed(keys, input, runs + [pool]);
    }
  }

  /** What the next record may be compared with. */
  lemma PoolReady(keys: seq<Key>, input: seq<Rec>, room: nat, runs: seq<seq<Item>>, pool: seq<Item>, pos: nat,
                  used: nat)
    requires room > MAXREC + 1 && Pooling(keys, input, room, runs, pool, pos, used) && pos < |input|
    ensures Ordered(keys, pool) && Earlier(pool, [Item(input[pos], pos)])
  {
    hide Forming, Ordered, Earlier;
    NextEarlier(keys, input, runs, pool, pos);
  }

  lemma OneFile(run: seq<Item>)
    ensures Flat([run]) == run && Flat([]) == []
  {
    OneRun(run);
  }

  lemma OneNameMore(files: Files, before: Files, drive: Byte, n: nat, bytes: seq<Byte>)
    requires n >= 1 && Others(files, before, Names(drive, 1, n))
    ensures Others(files[RunName(drive, n) := bytes], before, Names(drive, 1, n + 1))
  {
    hide RunName;
    assert Names(drive, 1, n) <= Names(drive, 1, n + 1);
    assert RunName(drive, n) in Names(drive, 1, n + 1);
  }

  /** writerun: the pool goes to drive B under the next number. */
  method WriteRun(files: Files, nruns: nat, ptrs: array<Item>, count: nat, ghost runs: seq<seq<Item>>,
                  ghost before: Files)
    returns (files1: Files, n: nat)
    requires nruns == |runs| < MAX_RUNS && count <= ptrs.Length && OnDrive(files, DRIVE_B, runs, 0, |runs|)
    requires Others(files, before, Names(DRIVE_B, 1, nruns + 1))
    ensures n == nruns + 1 && OnDrive(files1, DRIVE_B, runs + [ptrs[..count]], 0, n)
    ensures Others(files1, before, Names(DRIVE_B, 1, n + 1))
  {
    hide OnDrive, Others, Names, RunName, FileOf;
    n := nruns + 1;
    var bytes := WriteTo(ptrs, count);
    Spill(files, DRIVE_B, runs, ptrs[..count]);
    OneNameMore(files, before, DRIVE_B, n, bytes);
    files1 := files[RunName(DRIVE_B, n) := bytes];
  }

  lemma OutputWritten(files: Files, before: Files, names: set<FileName>, mine: set<FileName>, run: seq<Item>)
    requires Others(files, before, names) && names <= mine && SortOut in mine
    ensures Others(files[SortOut := FileOf(run)], before, mine)
    ensures Has(files[SortOut := FileOf(run)], SortOut, FileOf(run))
  {
    hide FileOf;
  }

  /** The end of formruns: the pool is the last run, or the answer. */
  method LastRun(ghost keys: seq<Key>, ghost input: seq<Rec>, room: nat, files: Files, nruns: nat, ptrs: array<Item>,
                 count: nat,
                 ghost used: nat, ghost runs: seq<seq<Item>>, ghost before: Files)
    returns (ok: bool, files1: Files, n: nat, ghost all: seq<seq<Item>>)
    requires room > MAXREC + 1 && nruns == |runs| <= MAX_RUNS && count <= ptrs.Length && (count == 0 ==> nruns == 0)
    requires Pooling(keys, input, room, runs, ptrs[..count], |input|, used)
    requires OnDrive(files, DRIVE_B, runs, 0, |runs|) && Others(files, before, Names(DRIVE_B, 1, nruns + 1))
    ensures ok <==> RunCount(input, room) <= MAX_RUNS
    ensures ok ==> n == |all| == RunCount(input, room) && Formed(files1, all)
    ensures ok ==> Sorted(keys, all) && multiset(Flat(all)) == multiset(Tagged(input))
    ensures ok ==> Others(files1, before, Mine(DRIVE_B, n))
  {
    hide Ordered, Earlier, Sorted, Flat, Pooling, RunCount, OnDrive, Others, Names, RunName, FileOf;
    ghost var pool := ptrs[..count];
    PoolEnds(keys, input, room, runs, pool, used);
    all := if pool == [] then runs else runs + [pool];
    OneFile(pool);
    if nruns == 0 {
      assert runs == [] && [] + [pool] == [pool];
      var bytes := WriteTo(ptrs, count);
      n := if count == 0 then 0 else 1;
      NoNames(DRIVE_B, 1);
      OutputWritten(files, before, Names(DRIVE_B, 1, 1), Mine(DRIVE_B, n), pool);
      return true, files[SortOut := bytes], n, all;
    }
    if nruns == MAX_RUNS {
      return false, files, nruns, all;
    }
    ok := true;
    files1, n := WriteRun(files, nruns, ptrs, count, runs, before);
    MoreMine(files1, before, Names(DRIVE_B, 1, n + 1), Mine(DRIVE_B, n));
  }

  lemma NoNames(drive: Byte, n: nat)
    ensures Names(drive, n, n) == {}
  {
    hide RunName;
  }

  lemma MoreMine(files: Files, before: Files, names: set<FileName>, mine: set<FileName>)
    requires Others(files, before, names) && names <= mine
    ensures Others(files, before, mine)
  {
  }

  /** formruns: records fill a pool of `room` bytes, kept sorted; a record that does not fit ends the run and waits
      for the next.  Fails exactly when the input makes more runs than there are names for. */
  method FormRuns(keys: seq<Key>, sortin: seq<Byte>, room: nat, before: Files)
    returns (ok: bool, files: Files, nruns: nat, ghost runs: seq<seq<Item>>)
    requires room > MAXREC + 1
    ensures ok <==> RunCount(ReadLines(sortin, []), room) <= MAX_RUNS
    ensures ok ==> nruns == |runs| == RunCount(ReadLines(sortin, []), room) && Formed(files, runs)
    ensures ok ==> Sorted(keys, runs) && multiset(Flat(runs)) == multiset(Tagged(ReadLines(sortin, [])))
    ensures ok ==> Others(files, before, Mine(DRIVE_B, nruns))
  {
    hide ReadLines, Ordered, Earlier, Sorted, Flat, Pooling, RunCount, OnDrive, Others, Names, RunName, FileOf,
         Reading, Formed;
    ghost var input := ReadLines(sortin, []);
    files, nruns, runs := before, 0, [];
    var ptrs := new Item[PTRMAX](_ => Item([], 0));
    var count: nat, used: nat, pos: nat := 0, 0, 0;
    var more, pending, s := true, false, Stream(sortin, 0, false);
    var line: Rec := [];
    assert ptrs[..0] == [];
    ReadStart(sortin);
    PoolStart(keys, input, room);
    Untouched(before);
    while more
      invariant nruns == |runs| <= MAX_RUNS && count <= PTRMAX
                && Pooling(keys, input, room, runs, ptrs[..count], pos, used)
      invariant Reading(input, s, pos, pending, if pending then line else []) && (!more ==> pos == |input| && !pending)
      invariant nruns > 0 && count == 0 ==> pending
      invariant OnDrive(files, DRIVE_B, runs, 0, |runs|) && Others(files, before, Names(DRIVE_B, 1, nruns + 1))
      decreases more, |input| - pos, count
    {
      if !pending {
        more, line, s := NextLine(s, input, pos);
      }
      if more {
        LinePending(input, s, pos, line);
        var next := used + |line| + 1;
        pending := next >= room || count >= PTRMAX;
        if pending {
          PoolFull(keys, input, room, runs, ptrs[..count], pos, used);
          if nruns == MAX_RUNS {
            return false, files, nruns, runs;
          }
          files, nruns := WriteRun(files, nruns, ptrs, count, runs, before);
          runs := runs + [ptrs[..count]];
          count, used := 0, 0;
          assert ptrs[..0] == [];
        } else {
          TakeRecord(keys, input, room, runs, ptrs, count, line, pos, used);
          count, used, pos := count + 1, next, pos + 1;
          LineTaken(input, s, pos, line);
        }
      }
    }
    ok, files, nruns, runs := LastRun(keys, input, room, files, nruns, ptrs, count, used, runs, before);
  }

  /** A record that fits goes into the pool. */
  method TakeRecord(keys: seq<Key>, ghost input: seq<Rec>, ghost room: nat, ghost runs: seq<seq<Item>>,
                    ptrs: array<Item>, count: nat, line: Rec, pos: nat, ghost used: nat)
    requires room > MAXREC + 1 && count < ptrs.Length <= PTRMAX && pos < |input| && line == input[pos]
    requires used + |line| + 1 < room && Pooling(keys, input, room, runs, ptrs[..count], pos, used)
    modifies ptrs
    ensures Pooling(keys, input, room, runs, ptrs[..count + 1], pos + 1, used + |line| + 1)
  {
    hide Ordered, Earlier, Pooling;
    ghost var pool := ptrs[..count];
    PoolReady(keys, input, room, runs, pool, pos, used);
    InsertPtr(keys, ptrs, count, Item(line, pos));
    PoolTakes(keys, input, room, runs, pool, ptrs[..count + 1], pos, used);
  }

  lemma Untouched(before: Files)
    ensures Others(before, before, Names(DRIVE_B, 1, 1)) && OnDrive(before, DRIVE_B, [], 0, 0)
  {
  }

  // ---- merging ----

  /** An input of the merge: its stream and the record at its head. */
  datatype Slot = Slot(stream: Stream, head: Rec)

  /** The slot holds what is left of a run: its head is live exactly while i_eof is clear. */
  ghost predicate SlotHolds(sl: Slot, rest: seq<Item>) {
    Opened(sl.stream)
    && if rest == [] then sl.stream.eof
       else !sl.stream.eof && sl.head == rest[0].rec && ReadLines(Unread(sl.stream), []) == Texts(rest[1..])
            && !LastLineOpen(Unread(sl.stream), [])
  }

  ghost predicate Primed(slots: seq<Slot>, rests: seq<seq<Item>>) {
    |slots| == |rests| && forall k :: 0 <= k < |slots| ==> SlotHolds(slots[k], rests[k])
  }

  /** How many runs of the group are not used up. */
  ghost function Live(rests: seq<seq<Item>>): nat {
    if rests == [] then 0 else (if rests[0] == [] then 0 else 1) + Live(rests[1..])
  }

  lemma {:induction false} NoneLive(rests: seq<seq<Item>>)
    ensures Live(rests) == 0 <==> forall r :: 0 <= r < |rests| ==> rests[r] == []
    decreases |rests|
  {
    if rests != [] {
      NoneLive(rests[1..]);
      if forall r :: 0 <= r < |rests[1..]| ==> rests[1..][r] == [] {
        forall r | 0 <= r < |rests| && r > 0 ensures rests[r] == [] {
          assert rests[1..][r - 1] == [];
        }
      }
    }
  }

  lemma {:induction false} OneLess(rests: seq<seq<Item>>, b: nat)
    requires b < |rests| && rests[b] != []
    ensures Live(rests[b := rests[b][1..]]) == Live(rests) - (if |rests[b]| == 1 then 1 else 0)
    decreases |rests|
  {
    var after := rests[b := rests[b][1..]];
    if b == 0 {
      assert after[1..] == rests[1..];
    } else {
      assert after[1..] == rests[1..][b - 1 := rests[1..][b - 1][1..]];
      OneLess(rests[1..], b - 1);
    }
  }

  lemma {:induction false} OneMoreLive(runs: seq<seq<Item>>, run: seq<Item>)
    ensures Live(runs + [run]) == Live(runs) + (if run == [] then 0 else 1)
    decreases |runs|
  {
    if runs == [] {
      assert runs + [run] == [run] && [run][1..] == [];
    } else {
      assert (runs + [run])[0] == runs[0] && (runs + [run])[1..] == runs[1..] + [run];
      OneMoreLive(runs[1..], run);
    }
  }

  /** Reading on in a slot, when what is left of its file is known. */
  method NextHead(stream: Stream, ghost rest: seq<Item>) returns (got: bool, sl: Slot)
    requires Opened(stream) && ReadLines(Unread(stream), []) == Texts(rest) && !LastLineOpen(Unread(stream), [])
    ensures SlotHolds(sl, rest) && (got <==> rest != [])
  {
    hide ReadLines, LastLineOpen;
    var line, t;
    got, line, t := GetLine(stream);
    if got {
      sl := Slot(t, line);
      TextsTail(rest);
      assert ([line] + ReadLines(Unread(t), []))[1..] == ReadLines(Unread(t), []);
    } else {
      assert |Texts(rest)| == 0;
      sl := Slot(t.(eof := true), []);
    }
  }

  lemma TextsTail(rest: seq<Item>)
    ensures rest != [] ==> Texts(rest)[0] == rest[0].rec && Texts(rest)[1..] == Texts(rest[1..])
  {
    if rest != [] {
      assert |Texts(rest)[1..]| == |Texts(rest[1..])|;
    }
  }

  lemma OpenedFile(run: seq<Item>)
    ensures var s := Stream(FileOf(run), 0, false);
            ReadLines(Unread(s), []) == Texts(run) && !LastLineOpen(Unread(s), [])
  {
    hide ReadLines, LastLineOpen, WriteLines, Closed;
    SpillRoundTrip(Texts(run));
    assert FileOf(run)[0..] == FileOf(run);
  }

  /** mergegroup's first loop: open runs lo + 1 to lo + nin and read the first record of each. */
  method OpenInputs(files: Files, drive: Byte, lo: nat, nin: nat, ghost runs: seq<seq<Item>>)
    returns (slots: array<Slot>, live: nat)
    requires lo + nin <= |runs| && OnDrive(files, drive, runs, lo, lo + nin)
    ensures fresh(slots) && slots.Length == nin && Primed(slots[..], runs[lo..lo + nin])
            && live == Live(runs[lo..lo + nin])
  {
    hide ReadLines, LastLineOpen, SlotHolds, Live, FileOf, RunName;
    slots := new Slot[nin](_ => Slot(Stream([], 0, true), []));
    live := 0;
    ghost var group := runs[lo..lo + nin];
    NoneLive([]);
    var slot := 0;
    assert group[..0] == [];
    while slot < nin
      invariant slot <= nin && Primed(slots[..slot], group[..slot]) && live == Live(group[..slot])
    {
      assert Has(files, RunName(drive, lo + slot + 1), FileOf(runs[lo + slot]));
      var bytes := files[RunName(drive, lo + slot + 1)];
      OpenedFile(runs[lo + slot]);
      var got, sl := NextHead(Stream(bytes, 0, false), group[slot]);
      slots[slot] := sl;
      if got {
        live := live + 1;
      }
      OneMoreLive(group[..slot], group[slot]);
      assert group[..slot + 1] == group[..slot] + [group[slot]];
      slot := slot + 1;
    }
    assert group[..nin] == group && slots[..nin] == slots[..];
  }

  /** Of the first `n` heads, the one at `best` must come first; -1 if none is live. */
  ghost predicate FirstAmong(keys: seq<Key>, rests: seq<seq<Item>>, best: int, n: nat)
    requires n <= |rests|
  {
    && -1 <= best < n && (best == -1 ==> forall r :: 0 <= r < n ==> rests[r] == [])
    && (best >= 0 ==>
          && rests[best] != []
          && forall r :: 0 <= r < n && r != best && rests[r] != [] ==> Before(keys, rests[best][0], rests[r][0]))
  }

  lemma KeepBest(keys: seq<Key>, rests: seq<seq<Item>>, best: int, n: nat)
    requires Sorted(keys, rests) && n < |rests| && FirstAmong(keys, rests, best, n)
    requires rests[n] == [] || (best >= 0 && Compare(keys, rests[n][0].rec, rests[best][0].rec) >= 0)
    ensures FirstAmong(keys, rests, best, n + 1)
  {
    hide Compare;
    if rests[n] != [] {
      FromCompare(keys, rests[n][0].rec, rests[best][0].rec);
      assert Earlier(rests[best], rests[n]);
    }
  }

  lemma NewBest(keys: seq<Key>, rests: seq<seq<Item>>, best: int, n: nat)
    requires n < |rests| && FirstAmong(keys, rests, best, n) && rests[n] != []
    requires best == -1 || Compare(keys, rests[n][0].rec, rests[best][0].rec) < 0
    ensures FirstAmong(keys, rests, n, n + 1)
  {
    hide Compare;
    forall r | 0 <= r < n && rests[r] != [] ensures Before(keys, rests[n][0], rests[r][0]) {
      if r != best {
        BeforeChains(keys, rests[n][0], rests[best][0], rests[r][0]);
      }
    }
  }

  /** The scan for the smallest live head: a later stream wins only if its head is strictly smaller. */
  method PickBest(keys: seq<Key>, slots: array<Slot>, ghost rests: seq<seq<Item>>) returns (best: int)
    requires Sorted(keys, rests) && Primed(slots[..], rests)
    ensures FirstAmong(keys, rests, best, |rests|)
  {
    hide Compare, Sorted, Before, ReadLines, LastLineOpen, FirstAmong;
    best := -1;
    var slot := 0;
    NoneYet(keys, rests);
    while slot < slots.Length
      invariant slot <= slots.Length && -1 <= best < slot && FirstAmong(keys, rests, best, slot)
    {
      assert SlotHolds(slots[..][slot], rests[slot]);
      if slots[slot].stream.eof {
        KeepBest(keys, rests, best, slot);
      } else if best == -1 {
        NewBest(keys, rests, best, slot);
        best := slot;
      } else {
        BestLive(keys, rests, best, slot);
        assert SlotHolds(slots[..][best], rests[best]);
        var c := CompareRecords(keys, slots[slot].head, slots[best].head);
        if c < 0 {
          NewBest(keys, rests, best, slot);
          best := slot;
        } else {
          KeepBest(keys, rests, best, slot);
        }
      }
      slot := slot + 1;
    }
  }

  lemma NoneYet(keys: seq<Key>, rests: seq<seq<Item>>)
    ensures FirstAmong(keys, rests, -1, 0)
  {
  }

  lemma BestLive(keys: seq<Key>, rests: seq<seq<Item>>, best: int, n: nat)
    requires n <= |rests| && FirstAmong(keys, rests, best, n)
    ensures best >= -1 && (best >= 0 ==> best < n && rests[best] != [])
    ensures best == -1 && n == |rests| ==> Live(rests) == 0
  {
    NoneLive(rests);
  }

  /** The merge so far: `merged` is written, `rests` is to come. */
  ghost predicate Halfway(keys: seq<Key>, runs: seq<seq<Item>>, merged: seq<Item>, rests: seq<seq<Item>>) {
    Merging(keys, merged, rests) && multiset(merged) + multiset(Flat(rests)) == multiset(Flat(runs))
  }

  lemma HalfwayStart(keys: seq<Key>, runs: seq<seq<Item>>)
    requires Sorted(keys, runs)
    ensures Halfway(keys, runs, [], runs) && Sorted(keys, runs)
  {
    hide Merging, Sorted;
    MergeStart(keys, runs);
  }

  lemma HalfwayStep(keys: seq<Key>, runs: seq<seq<Item>>, merged: seq<Item>, rests: seq<seq<Item>>, b: nat)
    requires Halfway(keys, runs, merged, rests) && FirstAmong(keys, rests, b, |rests|)
    ensures Halfway(keys, runs, merged + [rests[b][0]], rests[b := rests[b][1..]])
    ensures |Flat(rests[b := rests[b][1..]])| < |Flat(rests)|
  {
    hide Merging, Before, Flat;
    MergeStep(keys, merged, rests, b);
    TakeHead(rests, b);
    Shorter(rests, b);
  }

  lemma HalfwaySorted(keys: seq<Key>, runs: seq<seq<Item>>, merged: seq<Item>, rests: seq<seq<Item>>)
    requires Halfway(keys, runs, merged, rests)
    ensures Sorted(keys, rests) && Ordered(keys, merged)
    ensures Live(rests) == 0 ==> multiset(merged) == multiset(Flat(runs))
  {
    hide Sorted, Ordered;
    NoneLive(rests);
    if Live(rests) == 0 {
      NothingLeft(rests);
    }
  }

  lemma SlotMoved(slots: seq<Slot>, rests: seq<seq<Item>>, b: nat, sl: Slot, rest: seq<Item>)
    requires Primed(slots, rests) && b < |slots| && SlotHolds(sl, rest)
    ensures Primed(slots[b := sl], rests[b := rest])
  {
    hide SlotHolds;
  }

  /** mergegroup's merge loop: while a head is live, write the one that must come first and read on in its run. */
  method MergeStreams(keys: seq<Key>, slots: array<Slot>, live0: nat, ghost runs: seq<seq<Item>>)
    returns (bytes: seq<Byte>, ghost merged: seq<Item>)
    requires Sorted(keys, runs) && Primed(slots[..], runs) && live0 == Live(runs)
    modifies slots
    ensures bytes == FileOf(merged) && Ordered(keys, merged) && multiset(merged) == multiset(Flat(runs))
  {
    hide Sorted, Ordered, Halfway, FirstAmong, Live, WriteLines, ReadLines, LastLineOpen, Flat, SlotHolds;
    var live, out: seq<Byte> := live0, [];
    merged := [];
    ghost var rests := runs;
    HalfwayStart(keys, runs);
    NoLines();
    assert Texts([]) == [];
    while live != 0
      invariant Halfway(keys, runs, merged, rests) && Primed(slots[..], rests) && live == Live(rests)
      invariant out == WriteLines(Texts(merged)) && |rests| == slots.Length
      decreases |Flat(rests)|
    {
      HalfwaySorted(keys, runs, merged, rests);
      var best := PickBest(keys, slots, rests);
      BestLive(keys, rests, best, |rests|);
      SlotIs(slots[..], rests, best);
      HalfwayStep(keys, runs, merged, rests, best);
      OneLess(rests, best);
      assert Texts(merged + [rests[best][0]]) == Texts(merged) + [slots[best].head];
      WriteOneMore(Texts(merged), slots[best].head);
      out := out + (slots[best].head + [13, 10]);
      merged := merged + [rests[best][0]];
      var got, sl := NextHead(slots[best].stream, rests[best][1..]);
      SlotMoved(slots[..], rests, best, sl, rests[best][1..]);
      ghost var was := slots[..];
      slots[best] := sl;
      assert slots[..] == was[best := sl];
      rests := rests[best := rests[best][1..]];
      if !got {
        live := live - 1;
      }
    }
    HalfwaySorted(keys, runs, merged, rests);
    bytes := Closed(out);
  }

  lemma SlotIs(slots: seq<Slot>, rests: seq<seq<Item>>, b: nat)
    requires Primed(slots, rests) && b < |rests| && rests[b] != []
    ensures |slots| == |rests| && Opened(slots[b].stream) && slots[b].head == rests[b][0].rec
    ensures ReadLines(Unread(slots[b].stream), []) == Texts(rests[b][1..]) && !LastLineOpen(Unread(slots[b].stream), [])
  {
    hide ReadLines, LastLineOpen;
    assert SlotHolds(slots[b], rests[b]);
  }

  lemma NamesStep(drive: Byte, lo: nat, hi: nat)
    requires lo <= hi
    ensures Names(drive, lo, hi + 1) == Names(drive, lo, hi) + {RunName(drive, hi)}
  {
    hide RunName;
    assert RunName(drive, hi) in Names(drive, lo, hi + 1);
  }

  /** mergegroup's last loop: erase the inputs. */
  method EraseInputs(files: Files, drive: Byte, lo: nat, nin: nat) returns (files1: Files)
    ensures files1 == files - Names(drive, lo + 1, lo + nin + 1)
  {
    hide Names, RunName;
    files1 := files;
    var slot := 0;
    NoNames(drive, lo + 1);
    while slot < nin
      invariant slot <= nin && files1 == files - Names(drive, lo + 1, lo + slot + 1)
    {
      NamesStep(drive, lo + 1, lo + slot + 1);
      files1 := files1 - {RunName(drive, lo + slot + 1)};
      slot := slot + 1;
    }
  }

  // ---- levels ----

  /** A level with `g` groups done: the inputs of the others are still there, and the outputs. */
  ghost predicate AtGroup(files: Files, before: Files, src: Byte, dst: Byte, runs: seq<seq<Item>>, next: seq<seq<Item>>,
                          ngroups: nat)
  {
    && OnDrive(files, src, runs, GroupEnd(|runs|, |next|), |runs|)
    && (ngroups > 1 ==> OnDrive(files, dst, next, 0, |next|))
    && (ngroups == 1 && next != [] ==> Has(files, SortOut, FileOf(next[0])))
    && Others(files, before, LevelNames(src, dst, |runs|, |next|, ngroups))
  }

  ghost function LevelNames(src: Byte, dst: Byte, n: nat, g: nat, ngroups: nat): set<FileName> {
    {SortOut} + Names(src, GroupEnd(n, g) + 1, n + 1) + if ngroups == 1 then {} else Names(dst, 1, g + 1)
  }

  function OutputName(dst: Byte, g: nat, ngroups: nat): FileName { if ngroups == 1 then SortOut
                      else RunName(dst, g + 1) }

  /** Erasing inputs and writing the output of one group touches no other file of the level. */
  lemma NotErased(drive: Byte, lo: nat, hi: nat, n: nat, other: Byte)
    requires n <= MAX_RUNS && hi <= n
    ensures forall k :: hi < k <= n ==> RunName(drive, k) !in Names(drive, lo + 1, hi + 1)
    ensures other != drive ==> forall k: nat :: RunName(other, k) !in Names(drive, lo + 1, hi + 1)
    ensures SortOut !in Names(drive, lo + 1, hi + 1)
  {
    forall k | hi < k <= n ensures RunName(drive, k) !in Names(drive, lo + 1, hi + 1) {
      if RunName(drive, k) in Names(drive, lo + 1, hi + 1) {
        var j :| lo + 1 <= j < hi + 1 && RunName(drive, j) == RunName(drive, k);
        OwnName(drive, j, k);
      }
    }
  }

  lemma InputsKept(files: Files, name: FileName, bytes: seq<Byte>, src: Byte, runs: seq<seq<Item>>, lo: nat, hi: nat)
    requires |runs| <= MAX_RUNS && lo <= hi && OnDrive(files, src, runs, lo, |runs|)
             && (name.Work? ==> name.drive != src)
    ensures OnDrive(files[name := bytes] - Names(src, lo + 1, hi + 1), src, runs, hi, |runs|)
  {
    hide Names, FileOf;
    if hi <= |runs| {
      NotErased(src, lo, hi, |runs|, src);
    }
  }

  lemma OutputsKept(files: Files, gone: set<FileName>, dst: Byte, next: seq<seq<Item>>, out: seq<Item>)
    requires OnDrive(files, dst, next, 0, |next|) && |next| < MAX_RUNS && forall k: nat :: RunName(dst, k) !in gone
    ensures OnDrive(files[RunName(dst, |next| + 1) := FileOf(out)] - gone, dst, next + [out], 0, |next| + 1)
  {
    Spill(files, dst, next, out);
    hide RunName, FileOf;
    var files1 := files[RunName(dst, |next| + 1) := FileOf(out)];
    forall r | 0 <= r < |next| + 1 ensures Has(files1 - gone, RunName(dst, r + 1), FileOf((next + [out])[r])) {
      assert Has(files1, RunName(dst, r + 1), FileOf((next + [out])[r]));
    }
  }

  lemma NamesSplit(drive: Byte, lo: nat, mid: nat, hi: nat)
    requires lo <= mid <= hi
    ensures Names(drive, lo, hi) == Names(drive, lo, mid) + Names(drive, mid, hi)
  {
    hide RunName;
  }

  lemma OthersKept(files: Files, before: Files, bytes: seq<Byte>, src: Byte, dst: Byte, n: nat, g: nat, ngroups: nat)
    requires Others(files, before, LevelNames(src, dst, n, g, ngroups))
    ensures var gone := Names(src, GroupEnd(n, g) + 1, GroupEnd(n, g + 1) + 1);
            Others(files[OutputName(dst, g, ngroups) := bytes] - gone, before, LevelNames(src, dst, n, g + 1, ngroups))
  {
    hide RunName, Names;
    NamesSplit(src, GroupEnd(n, g) + 1, GroupEnd(n, g + 1) + 1, n + 1);
    NamesStep(dst, 1, g + 1);
  }

  lemma GroupStep(files: Files, before: Files, src: Byte, dst: Byte, runs: seq<seq<Item>>, next: seq<seq<Item>>,
                  ngroups: nat, out: seq<Item>)
    requires src != dst && |runs| <= MAX_RUNS && |next| < ngroups <= |runs|
             && AtGroup(files, before, src, dst, runs, next, ngroups)
    ensures var gone := Names(src, GroupEnd(|runs|, |next|) + 1, GroupEnd(|runs|, |next| + 1) + 1);
            var files1 := files[OutputName(dst, |next|, ngroups) := FileOf(out)] - gone;
            AtGroup(files1, before, src, dst, runs, next + [out], ngroups)
  {
    hide OnDrive, Others, Names, FileOf, LevelNames;
    var n, g := |runs|, |next|;
    var lo, hi := GroupEnd(n, g), GroupEnd(n, g + 1);
    InputsKept(files, OutputName(dst, g, ngroups), FileOf(out), src, runs, lo, hi);
    NotErased(src, lo, hi, n, dst);
    if ngroups > 1 {
      OutputsKept(files, Names(src, lo + 1, hi + 1), dst, next, out);
    }
    OthersKept(files, before, FileOf(out), src, dst, n, g, ngroups);
  }

  /** mergegroup: one group of a level, from its run files to its output, the inputs erased. */
  method MergeGroup(keys: seq<Key>, files: Files, src: Byte, name: FileName, lo: nat, nin: nat,
                    ghost runs: seq<seq<Item>>)
    returns (files1: Files, ghost merged: seq<Item>)
    requires Sorted(keys, runs) && lo + nin <= |runs| && OnDrive(files, src, runs, lo, |runs|)
    ensures Ordered(keys, merged) && multiset(merged) == multiset(Flat(runs[lo..lo + nin]))
    ensures files1 == files[name := FileOf(merged)] - Names(src, lo + 1, lo + nin + 1)
  {
    hide Sorted, Ordered, Flat, Names, FileOf, Primed, Live;
    SortedSlice(keys, runs, lo, lo + nin);
    var slots, live := OpenInputs(files, src, lo, nin, runs);
    var bytes;
    bytes, merged := MergeStreams(keys, slots, live, runs[lo..lo + nin]);
    files1 := EraseInputs(files[name := bytes], src, lo, nin);
  }

  /** One level: groups of up to 16 consecutive runs, each merged into one on the other drive, or into SORTOUT if
      there is only one group. */
  method MergeLevel(keys: seq<Key>, files0: Files, src: Byte, dst: Byte, nruns: nat, ghost runs: seq<seq<Item>>,
                    ghost before: Files)
    returns (files: Files, ngroups: nat, ghost next: seq<seq<Item>>)
    requires src != dst && Sorted(keys, runs) && 2 <= nruns == |runs| <= MAX_RUNS
    requires OnDrive(files0, src, runs, 0, nruns) && Others(files0, before, Mine(src, nruns))
    ensures ngroups == |next| == (nruns + MAXK - 1) / MAXK
    ensures Sorted(keys, next) && multiset(Flat(next)) == multiset(Flat(runs))
    ensures if ngroups == 1 then Has(files, SortOut, FileOf(next[0])) else OnDrive(files, dst, next, 0, ngroups)
    ensures Others(files, before, Mine(dst, ngroups))
  {
    hide Sorted, Flat, Merged, AtGroup, Names, FileOf, OnDrive, Others;
    ngroups := (nruns + MAXK - 1) / MAXK;
    files, next := files0, [];
    NoneMerged(keys, runs);
    LevelStart(files, before, src, dst, runs, ngroups);
    var group := 0;
    while group < ngroups
      invariant group == |next| <= ngroups && Merged(keys, runs, next)
                && AtGroup(files, before, src, dst, runs, next, ngroups)
    {
      var lo, hi := GroupEnd(nruns, group), GroupEnd(nruns, group + 1);
      GroupReady(files, before, src, dst, runs, next, ngroups);
      ghost var out;
      ghost var was := files;
      files, out := MergeGroup(keys, files, src, OutputName(dst, group, ngroups), lo, hi - lo, runs);
      OneMore(keys, runs, next, out);
      GroupStep(was, before, src, dst, runs, next, ngroups, out);
      next := next + [out];
      group := group + 1;
    }
    LevelDone(keys, files, before, src, dst, runs, next, ngroups);
  }

  lemma LevelStart(files: Files, before: Files, src: Byte, dst: Byte, runs: seq<seq<Item>>, ngroups: nat)
    requires |runs| >= 2 && OnDrive(files, src, runs, 0, |runs|) && Others(files, before, Mine(src, |runs|))
    ensures AtGroup(files, before, src, dst, runs, [], ngroups)
  {
    hide Names, FileOf, RunName;
    NoNames(dst, 1);
  }

  lemma GroupReady(files: Files, before: Files, src: Byte, dst: Byte, runs: seq<seq<Item>>, next: seq<seq<Item>>,
                   ngroups: nat)
    requires AtGroup(files, before, src, dst, runs, next, ngroups)
    ensures OnDrive(files, src, runs, GroupEnd(|runs|, |next|), |runs|)
  {
    hide OnDrive, Others;
  }

  lemma LevelDone(keys: seq<Key>, files: Files, before: Files, src: Byte, dst: Byte, runs: seq<seq<Item>>,
                  next: seq<seq<Item>>,
                  ngroups: nat)
    requires Merged(keys, runs, next) && AtGroup(files, before, src, dst, runs, next, ngroups) && |runs| >= 2
    requires |next| == ngroups == (|runs| + MAXK - 1) / MAXK
    ensures Sorted(keys, next) && multiset(Flat(next)) == multiset(Flat(runs))
    ensures if ngroups == 1 then Has(files, SortOut, FileOf(next[0])) else OnDrive(files, dst, next, 0, ngroups)
    ensures Others(files, before, Mine(dst, ngroups))
  {
    hide Sorted, Flat, From, Names, FileOf, OnDrive;
    assert GroupEnd(|runs|, |next|) == |runs|;
    assert runs[..|runs|] == runs;
    NoNames(src, |runs| + 1);
  }

  /** mergeruns: levels between the two drives until one run is left, each with fewer runs than the one before. */
  method MergeRuns(keys: seq<Key>, files0: Files, nruns0: nat, ghost runs0: seq<seq<Item>>, ghost before: Files)
    returns (files: Files, ghost out: seq<Item>)
    requires Sorted(keys, runs0) && nruns0 == |runs0| <= MAX_RUNS && Formed(files0, runs0)
             && Others(files0, before, Mine(DRIVE_B, nruns0))
    ensures Ordered(keys, out) && multiset(out) == multiset(Flat(runs0))
    ensures Has(files, SortOut, FileOf(out)) && Others(files, before, {SortOut})
  {
    hide Sorted, Ordered, Flat, Names, FileOf, OnDrive, Others;
    files := files0;
    ghost var runs := runs0;
    var nruns, src, dst := nruns0, DRIVE_B, DRIVE_C;
    LastOne(keys, runs0);
    while nruns >= 2
      invariant nruns == |runs| <= MAX_RUNS && src != dst && Sorted(keys, runs)
                && multiset(Flat(runs)) == multiset(Flat(runs0))
      invariant if nruns <= 1 then Has(files, SortOut, FileOf(Flat(runs))) else OnDrive(files, src, runs, 0, nruns)
      invariant Others(files, before, Mine(src, nruns))
      decreases nruns
    {
      files, nruns, runs := MergeLevel(keys, files, src, dst, nruns, runs, before);
      LastOne(keys, runs);
      src, dst := dst, src;
    }
    LastOne(keys, runs);
    assert Mine(src, nruns) == {SortOut};
    out := Flat(runs);
  }

  lemma LastOne(keys: seq<Key>, runs: seq<seq<Item>>)
    requires Sorted(keys, runs)
    ensures |runs| == 1 ==> Flat(runs) == runs[0]
    ensures |runs| <= 1 ==> Ordered(keys, Flat(runs))
  {
    if |runs| == 1 {
      OneRun(runs[0]);
      assert runs == [runs[0]];
    }
  }

  /** SORTOUT byte for byte: each record followed by CR LF, then ^Z to the end of a 128-byte record. */
  ghost predicate FileHolds(bytes: seq<Byte>, out: seq<Item>) {
    exists text: seq<Byte> ::
      && IsText(text, Texts(out)) && text <= bytes && |bytes| % 128 == 0 && |bytes| > |text|
      && forall i :: |text| <= i < |bytes| ==> bytes[i] == 0x1A
  }

  lemma FileIs(out: seq<Item>)
    ensures FileHolds(FileOf(out), out)
  {
    hide WriteLines, IsText, ReadLines, LastLineOpen;
    WritesText(Texts(out));
    SpillRoundTrip(Texts(out));
    assert WriteLines(Texts(out)) <= FileOf(out);
  }

  /** The whole job: for every input, key list, pool size and contents of the drives, SORTOUT reads back as exactly the
      records of SORTIN, sorted by the keys, records of equal keys in input order, and no work file is left behind;
      provided the input makes no more runs than there are names for. */
  method SortJob(keys: seq<Key>, sortin: seq<Byte>, room: nat, before: Files)
    returns (ok: bool, files: Files, ghost out: seq<Item>)
    requires room > MAXREC + 1
    ensures ok <==> RunCount(ReadLines(sortin, []), room) <= MAX_RUNS
    ensures ok ==> InOrder(keys, out) && multiset(out) == multiset(Tagged(ReadLines(sortin, [])))
    ensures ok ==> SortOut in files && ReadLines(files[SortOut], []) == Texts(out) && FileHolds(files[SortOut], out)
    ensures ok ==> Others(files, before, {SortOut})
  {
    hide Sorted, Ordered, InOrder, Flat, ReadLines, LastLineOpen, WriteLines, RunCount, Others, Formed, Mine, Closed,
         FileHolds;
    var nruns;
    ghost var runs;
    out := [];
    ok, files, nruns, runs := FormRuns(keys, sortin, room, before);
    if ok {
      files, out := MergeRuns(keys, files, nruns, runs, before);
      OrderedIs(keys, out);
      FileIs(out);
      SpillRoundTrip(Texts(out));
    }
  }
}
