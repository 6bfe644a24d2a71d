/** The external sort (cpm/sort/sort.asm): keys and comparison, binary insertion, runs, and 16-way merges. */
module Sort {

  type Byte = x: int | 0 <= x < 256

  const MAXREC: nat := 255
  const MAXK: nat := 16
  const PTRMAX: nat := 4096

  /** No byte that means something else in a file. */
  predicate Clean(r: seq<Byte>) { forall i :: 0 <= i < |r| ==> r[i] != 13 && r[i] != 10 && r[i] != 0x1A }

  /** A text line. */
  type Rec = r: seq<Byte> | |r| <= MAXREC && Clean(r)

  /** A sort field: 1-based position, length, descending, case folded. */
  datatype Key = Key(pos: nat, len: nat, desc: bool, fold: bool)

  // ---- comparing ----

  /** crbyte: a byte of a record, a space past its end; offsets are 16-bit. */
  function ByteAt(r: Rec, offset: int): Byte {
    var o := offset % 0x1_0000;
    if o < |r| then r[o] else 0x20
  }

  function Fold(b: Byte): Byte { if 0x61 <= b <= 0x7A then b - 0x20 else b }

  /** Byte `i` of a field as it counts for the order: folded if asked, and the other way round if descending. */
  function Rank(k: Key, r: Rec, i: nat): int {
    var b := ByteAt(r, k.pos - 1 + i);
    var v := if k.fold then Fold(b) else b;
    if k.desc then 255 - v else v
  }

  /** Compare from byte `i` of key `j` on: -1, 0 or 1. */
  function CompareFrom(keys: seq<Key>, a: Rec, b: Rec, j: nat, i: nat): int
    requires j <= |keys| && (j < |keys| ==> i <= keys[j].len)
    decreases |keys| - j, if j < |keys| then keys[j].len - i else 0
  {
    if j == |keys| then 0
    else if i == keys[j].len then CompareFrom(keys, a, b, j + 1, 0)
    else if Rank(keys[j], a, i) < Rank(keys[j], b, i) then -1
    else if Rank(keys[j], a, i) > Rank(keys[j], b, i) then 1
    else CompareFrom(keys, a, b, j, i + 1)
  }

  function Compare(keys: seq<Key>, a: Rec, b: Rec): int { CompareFrom(keys, a, b, 0, 0) }

  /** cmprec: bytes first, then their folded forms, then the direction. */
  method CompareRecords(keys: seq<Key>, a: Rec, b: Rec) returns (r: int)
    ensures r == Compare(keys, a, b)
  {
    var j := 0;
    while j < |keys|
      invariant j <= |keys| && CompareFrom(keys, a, b, j, 0) == Compare(keys, a, b)
    {
      var k := keys[j];
      var i := 0;
      while i < k.len
        invariant i <= k.len && CompareFrom(keys, a, b, j, i) == Compare(keys, a, b)
      {
        var x: int, y: int := ByteAt(a, k.pos - 1 + i), ByteAt(b, k.pos - 1 + i);
        if x != y {
          if k.fold {
            x, y := Fold(x), Fold(y);
          }
          if x != y {
            return if k.desc then (if y < x then -1 else 1) else (if x < y then -1 else 1);
          }
        }
        i := i + 1;
      }
      j := j + 1;
    }
    r := 0;
  }

  lemma {:induction false} CompareFlips(keys: seq<Key>, a: Rec, b: Rec, j: nat, i: nat)
    requires j <= |keys| && (j < |keys| ==> i <= keys[j].len)
    ensures CompareFrom(keys, b, a, j, i) == -CompareFrom(keys, a, b, j, i)
    ensures -1 <= CompareFrom(keys, a, b, j, i) <= 1
    decreases |keys| - j, if j < |keys| then keys[j].len - i else 0
  {
    hide Rank;
    if j < |keys| {
      if i == keys[j].len {
        CompareFlips(keys, a, b, j + 1, 0);
      } else if Rank(keys[j], a, i) == Rank(keys[j], b, i) {
        CompareFlips(keys, a, b, j, i + 1);
      }
    }
  }

  lemma {:induction false} CompareChains(keys: seq<Key>, a: Rec, b: Rec, c: Rec, j: nat, i: nat)
    requires j <= |keys| && (j < |keys| ==> i <= keys[j].len)
    requires CompareFrom(keys, a, b, j, i) <= 0 && CompareFrom(keys, b, c, j, i) <= 0
    ensures CompareFrom(keys, a, c, j, i) <= 0
    ensures CompareFrom(keys, a, c, j, i) == 0 ==>
              CompareFrom(keys, a, b, j, i) == 0 && CompareFrom(keys, b, c, j, i) == 0
    decreases |keys| - j, if j < |keys| then keys[j].len - i else 0
  {
    hide Rank;
    if j < |keys| {
      if i == keys[j].len {
        CompareChains(keys, a, b, c, j + 1, 0);
      } else if Rank(keys[j], a, i) == Rank(keys[j], b, i) == Rank(keys[j], c, i) {
        CompareChains(keys, a, b, c, j, i + 1);
      }
    }
  }

  /** The records tie exactly when they agree on every byte of every field, as far as the field's order can tell. */
  lemma {:induction false} TiesAgree(keys: seq<Key>, a: Rec, b: Rec, j: nat, i: nat)
    requires j <= |keys| && (j < |keys| ==> i <= keys[j].len)
    ensures CompareFrom(keys, a, b, j, i) == 0 <==>
            forall k, n :: j <= k < |keys| && (if k == j then i else 0) <= n < keys[k].len ==>
                Rank(keys[k], a, n) == Rank(keys[k], b, n)
    decreases |keys| - j, if j < |keys| then keys[j].len - i else 0
  {
    hide Rank;
    if j < |keys| {
      if i == keys[j].len {
        TiesAgree(keys, a, b, j + 1, 0);
      } else {
        TiesAgree(keys, a, b, j, i + 1);
      }
    }
  }

  // ---- stable order ----

  /** A record and its place in SORTIN. */
  datatype Item = Item(rec: Rec, at: nat)

  /** `x` must come before `y`: smaller keys first, and input order among equal keys. */
  predicate Before(keys: seq<Key>, x: Item, y: Item) {
    Compare(keys, x.rec, y.rec) < 0 || (Compare(keys, x.rec, y.rec) == 0 && x.at < y.at)
  }

  lemma BeforeChains(keys: seq<Key>, x: Item, y: Item, z: Item)
    requires Before(keys, x, y) && Before(keys, y, z)
    ensures Before(keys, x, z)
  {
    CompareChains(keys, x.rec, y.rec, z.rec, 0, 0);
  }

  lemma EitherFirst(keys: seq<Key>, x: Item, y: Item)
    requires x.at != y.at
    ensures Before(keys, x, y) != Before(keys, y, x)
  {
    CompareFlips(keys, x.rec, y.rec, 0, 0);
  }

  /** Sorted, and stable. */
  ghost predicate Ordered(keys: seq<Key>, s: seq<Item>) {
    forall i, j :: 0 <= i < j < |s| ==> Before(keys, s[i], s[j])
  }

  /** Everything in `s` was read before everything in `t`. */
  ghost predicate Earlier(s: seq<Item>, t: seq<Item>) {
    forall i, j :: 0 <= i < |s| && 0 <= j < |t| ==> s[i].at < t[j].at
  }

  // ---- binary insertion ----

  /** The search of insertptr: the first of the `count` pointers whose record is greater than the new one. */
  method UpperBound(keys: seq<Key>, ptrs: array<Item>, count: nat, item: Item) returns (lo: nat)
    requires count <= ptrs.Length && Ordered(keys, ptrs[..count])
    ensures lo <= count
    ensures forall k :: 0 <= k < lo ==> Compare(keys, ptrs[k].rec, item.rec) <= 0
    ensures forall k :: lo <= k < count ==> Compare(keys, ptrs[k].rec, item.rec) > 0
  {
    hide Compare;
    var hi: nat;
    lo, hi := 0, count;
    while lo < hi
      invariant lo <= hi <= count
      invariant forall k :: 0 <= k < lo ==> Compare(keys, ptrs[k].rec, item.rec) <= 0
      invariant forall k :: hi <= k < count ==> Compare(keys, ptrs[k].rec, item.rec) > 0
      decreases hi - lo
    {
      var mid := (lo + hi) / 2;
      var c := CompareRecords(keys, ptrs[mid].rec, item.rec);
      if c > 0 {
        AboveFrom(keys, ptrs[..count], mid, item);
        hi := mid;
      } else {
        BelowUpTo(keys, ptrs[..count], mid, item);
        lo := mid + 1;
      }
    }
  }

  lemma AboveFrom(keys: seq<Key>, s: seq<Item>, mid: nat, item: Item)
    requires Ordered(keys, s) && mid < |s| && Compare(keys, s[mid].rec, item.rec) > 0
    ensures forall k :: mid <= k < |s| ==> Compare(keys, s[k].rec, item.rec) > 0
  {
    hide Compare;
    forall k | mid < k < |s| ensures Compare(keys, s[k].rec, item.rec) > 0 {
      RisesPast(keys, s[mid], s[k], item);
    }
  }

  lemma BelowUpTo(keys: seq<Key>, s: seq<Item>, mid: nat, item: Item)
    requires Ordered(keys, s) && mid < |s| && Compare(keys, s[mid].rec, item.rec) <= 0
    ensures forall k :: 0 <= k <= mid ==> Compare(keys, s[k].rec, item.rec) <= 0
  {
    hide Compare;
    forall k | 0 <= k < mid ensures Compare(keys, s[k].rec, item.rec) <= 0 {
      StaysBelow(keys, s[k], s[mid], item);
    }
  }

  /** insertptr: the new record goes in at its upper bound, the pointers from there on move up by one. */
  method InsertPtr(keys: seq<Key>, ptrs: array<Item>, count: nat, item: Item)
    requires count < ptrs.Length && Ordered(keys, ptrs[..count]) && Earlier(ptrs[..count], [item])
    modifies ptrs
    ensures Ordered(keys, ptrs[..count + 1])
    ensures multiset(ptrs[..count + 1]) == multiset(old(ptrs[..count])) + multiset{item}
  {
    hide Compare, Ordered, Earlier;
    ghost var was := ptrs[..count];
    var lo := UpperBound(keys, ptrs, count, item);
    InsertOrdered(keys, was, lo, item);
    ShiftUp(ptrs, lo, count);
    ptrs[lo] := item;
    assert ptrs[..count + 1] == was[..lo] + [item] + was[lo..];
    InsertMultiset(was, lo, item);
  }

  lemma InsertMultiset(s: seq<Item>, lo: nat, item: Item)
    requires lo <= |s|
    ensures multiset(s[..lo] + [item] + s[lo..]) == multiset(s) + multiset{item}
  {
    assert s == s[..lo] + s[lo..];
  }

  /** The block move that opens a gap at `lo`, from the top down. */
  method ShiftUp(ptrs: array<Item>, lo: nat, count: nat)
    requires lo <= count < ptrs.Length
    modifies ptrs
    ensures forall i :: 0 <= i < lo ==> ptrs[i] == old(ptrs[i])
    ensures forall i :: lo < i <= count ==> ptrs[i] == old(ptrs[i - 1])
    ensures forall i :: count < i < ptrs.Length ==> ptrs[i] == old(ptrs[i])
  {
    var k := count;
    while k > lo
      invariant lo <= k <= count
      invariant forall i :: 0 <= i <= k ==> ptrs[i] == old(ptrs[i])
      invariant forall i :: k < i <= count ==> ptrs[i] == old(ptrs[i - 1])
      invariant forall i :: count < i < ptrs.Length ==> ptrs[i] == old(ptrs[i])
    {
      ptrs[k] := ptrs[k - 1];
      k := k - 1;
    }
  }

  lemma RisesPast(keys: seq<Key>, x: Item, y: Item, z: Item)
    requires Before(keys, x, y) && Compare(keys, x.rec, z.rec) > 0
    ensures Compare(keys, y.rec, z.rec) > 0
  {
    CompareFlips(keys, x.rec, z.rec, 0, 0);
    CompareFlips(keys, y.rec, z.rec, 0, 0);
    if Compare(keys, y.rec, z.rec) <= 0 {
      CompareChains(keys, x.rec, y.rec, z.rec, 0, 0);
    }
  }

  lemma StaysBelow(keys: seq<Key>, x: Item, y: Item, z: Item)
    requires Before(keys, x, y) && Compare(keys, y.rec, z.rec) <= 0
    ensures Compare(keys, x.rec, z.rec) <= 0
  {
    CompareChains(keys, x.rec, y.rec, z.rec, 0, 0);
  }

  lemma InsertOrdered(keys: seq<Key>, s: seq<Item>, lo: nat, item: Item)
    requires Ordered(keys, s) && lo <= |s| && Earlier(s, [item])
    requires forall k :: 0 <= k < lo ==> Compare(keys, s[k].rec, item.rec) <= 0
    requires forall k :: lo <= k < |s| ==> Compare(keys, s[k].rec, item.rec) > 0
    ensures Ordered(keys, s[..lo] + [item] + s[lo..])
  {
    hide Compare;
    var t := s[..lo] + [item] + s[lo..];
    forall i, j | 0 <= i < j < |t| ensures Before(keys, t[i], t[j]) {
      if j == lo {
        assert t[i] == s[i] && [item][0] == item;
      } else if i == lo {
        assert t[j] == s[j - 1];
        CompareFlips(keys, s[j - 1].rec, item.rec, 0, 0);
        FromCompare(keys, s[j - 1].rec, item.rec);
      } else {
        assert t[i] == s[if i < lo then i else i - 1] && t[j] == s[if j < lo then j else j - 1];
      }
    }
  }

  lemma FromCompare(keys: seq<Key>, a: Rec, b: Rec)
    ensures Compare(keys, b, a) == -Compare(keys, a, b)
  {
    CompareFlips(keys, a, b, 0, 0);
  }

  // ---- runs ----

  function Flat(runs: seq<seq<Item>>): seq<Item> { if runs == [] then [] else runs[0] + Flat(runs[1..]) }

  lemma {:induction false} FlatAppend(runs: seq<seq<Item>>, run: seq<Item>)
    ensures Flat(runs + [run]) == Flat(runs) + run
    decreases |runs|
  {
    if runs == [] {
      assert [run][1..] == [] && runs + [run] == [run];
    } else {
      assert (runs + [run])[0] == runs[0] && (runs + [run])[1..] == runs[1..] + [run];
      FlatAppend(runs[1..], run);
    }
  }

  /** Records with their places in the input. */
  function Tagged(input: seq<Rec>): (s: seq<Item>)
    ensures |s| == |input| && forall i :: 0 <= i < |input| ==> s[i] == Item(input[i], i)
  {
    seq(|input|, i requires 0 <= i < |input| => Item(input[i], i))
  }

  /** Runs in input order, each sorted and stable. */
  ghost predicate Sorted(keys: seq<Key>, runs: seq<seq<Item>>) {
    (forall r :: 0 <= r < |runs| ==> Ordered(keys, runs[r])) && forall r, q :: 0 <= r < q < |runs| ==>
        Earlier(runs[r], runs[q])
  }

  lemma SortedAppend(keys: seq<Key>, runs: seq<seq<Item>>, run: seq<Item>)
    requires Sorted(keys, runs) && Ordered(keys, run) && forall r :: 0 <= r < |runs| ==> Earlier(runs[r], run)
    ensures Sorted(keys, runs + [run])
  {
    hide Ordered, Earlier;
  }

  /** Where the pool stands: runs written, `count` records in it, `pos` records of the input read. */
  ghost predicate Forming(keys: seq<Key>, input: seq<Rec>, runs: seq<seq<Item>>, pool: seq<Item>, pos: nat) {
    pos <= |input| && Sorted(keys, runs) && Ordered(keys, pool)
        && (forall r :: 0 <= r < |runs| ==> Earlier(runs[r], pool))
    && multiset(Flat(runs)) + multiset(pool) == multiset(Tagged(input)[..pos])
    && (forall i :: 0 <= i < |pool| ==> pool[i].at < pos)
       && (forall r, i :: 0 <= r < |runs| && 0 <= i < |runs[r]| ==> runs[r][i].at < pos)
  }

  lemma PoolGrows(keys: seq<Key>, input: seq<Rec>, runs: seq<seq<Item>>, pool: seq<Item>, pool1: seq<Item>, pos: nat)
    requires Forming(keys, input, runs, pool, pos) && pos < |input| && Ordered(keys, pool1)
    requires multiset(pool1) == multiset(pool) + multiset{Item(input[pos], pos)}
    ensures Forming(keys, input, runs, pool1, pos + 1)
  {
    hide Ordered, Sorted;
    var x := Item(input[pos], pos);
    assert Tagged(input)[..pos + 1] == Tagged(input)[..pos] + [x];
    forall i | 0 <= i < |pool1| ensures pool1[i].at <= pos && (pool1[i] in pool || pool1[i] == x) {
      assert pool1[i] in multiset(pool1);
    }
    forall r | 0 <= r < |runs| ensures Earlier(runs[r], pool1) {
      forall i, j | 0 <= i < |runs[r]| && 0 <= j < |pool1| ensures runs[r][i].at < pool1[j].at {
        if pool1[j] != x {
          var k :| 0 <= k < |pool| && pool[k] == pool1[j];
          assert Earlier(runs[r], pool);
        }
      }
    }
  }

  lemma PoolSpills(keys: seq<Key>, input: seq<Rec>, runs: seq<seq<Item>>, pool: seq<Item>, pos: nat)
    requires Forming(keys, input, runs, pool, pos)
    ensures Forming(keys, input, runs + [pool], [], pos)
  {
    hide Ordered, Earlier;
    SortedAppend(keys, runs, pool);
    FlatAppend(runs, pool);
    NothingEarlier(keys, runs + [pool]);
  }

  lemma NothingEarlier(keys: seq<Key>, runs: seq<seq<Item>>)
    ensures Ordered(keys, []) && forall r :: 0 <= r < |runs| ==> Earlier(runs[r], [])
  {
  }

  lemma NextEarlier(keys: seq<Key>, input: seq<Rec>, runs: seq<seq<Item>>, pool: seq<Item>, pos: nat)
    requires Forming(keys, input, runs, pool, pos) && pos < |input|
    ensures Ordered(keys, pool) && Earlier(pool, [Item(input[pos], pos)])
  {
    hide Ordered, Sorted;
  }

  lemma AllFormed(keys: seq<Key>, input: seq<Rec>, runs: seq<seq<Item>>)
    requires Forming(keys, input, runs, [], |input|)
    ensures Sorted(keys, runs) && multiset(Flat(runs)) == multiset(Tagged(input))
  {
    hide Ordered, Earlier, Sorted, Flat;
    assert Tagged(input)[..|input|] == Tagged(input);
  }

  lemma FormingStart(keys: seq<Key>, input: seq<Rec>)
    ensures Forming(keys, input, [], [], 0)
  {
  }

  // ---- merging ----

  /** What is left of each run of a group: in order, and all of it after what was written. */
  ghost predicate Merging(keys: seq<Key>, out: seq<Item>, rests: seq<seq<Item>>) {
    Ordered(keys, out) && Sorted(keys, rests)
    && forall i, r, j :: 0 <= i < |out| && 0 <= r < |rests| && 0 <= j < |rests[r]| ==> Before(keys, out[i], rests[r][j])
  }

  lemma {:induction false} TakeHead(rests: seq<seq<Item>>, b: nat)
    requires b < |rests| && rests[b] != []
    ensures multiset(Flat(rests)) == multiset{rests[b][0]} + multiset(Flat(rests[b := rests[b][1..]]))
    decreases |rests|
  {
    var after := rests[b := rests[b][1..]];
    if b == 0 {
      assert rests[0] == [rests[0][0]] + rests[0][1..] && after[1..] == rests[1..];
    } else {
      assert after[1..] == rests[1..][b - 1 := rests[b][1..]];
      TakeHead(rests[1..], b - 1);
    }
  }

  lemma HeadFirst(keys: seq<Key>, rests: seq<seq<Item>>, b: nat, r: nat, j: nat)
    requires Sorted(keys, rests) && b < |rests| && rests[b] != [] && r < |rests| && j < |rests[r]| && (r == b ==> j > 0)
    requires r != b ==> Before(keys, rests[b][0], rests[r][0])
    ensures Before(keys, rests[b][0], rests[r][j])
  {
    hide Compare, Earlier;
    assert Ordered(keys, rests[r]);
    if r != b && j > 0 {
      BeforeChains(keys, rests[b][0], rests[r][0], rests[r][j]);
    }
  }

  lemma TailsSorted(keys: seq<Key>, rests: seq<seq<Item>>, b: nat)
    requires Sorted(keys, rests) && b < |rests| && rests[b] != []
    ensures Sorted(keys, rests[b := rests[b][1..]])
  {
    hide Before;
    var after := rests[b := rests[b][1..]];
    assert Ordered(keys, rests[b]);
    forall r, q | 0 <= r < q < |after| ensures Earlier(after[r], after[q]) {
      assert Earlier(rests[r], rests[q]);
    }
  }

  lemma MergeStep(keys: seq<Key>, out: seq<Item>, rests: seq<seq<Item>>, b: nat)
    requires Merging(keys, out, rests) && b < |rests| && rests[b] != []
    requires forall r :: 0 <= r < |rests| && r != b && rests[r] != [] ==> Before(keys, rests[b][0], rests[r][0])
    ensures Merging(keys, out + [rests[b][0]], rests[b := rests[b][1..]])
  {
    hide Before, Earlier, Sorted;
    var after := rests[b := rests[b][1..]];
    TailsSorted(keys, rests, b);
    forall r, j | 0 <= r < |after| && 0 <= j < |after[r]| ensures Before(keys, rests[b][0], after[r][j]) {
      HeadFirst(keys, rests, b, r, if r == b then j + 1 else j);
    }
  }

  lemma Shorter(rests: seq<seq<Item>>, b: nat)
    requires b < |rests| && rests[b] != []
    ensures |Flat(rests[b := rests[b][1..]])| < |Flat(rests)|
  {
    hide Flat;
    TakeHead(rests, b);
    assert |multiset(Flat(rests))| == |Flat(rests)|
        && |multiset(Flat(rests[b := rests[b][1..]]))| == |Flat(rests[b := rests[b][1..]])|;
  }

  lemma MergeStart(keys: seq<Key>, runs: seq<seq<Item>>)
    requires Sorted(keys, runs)
    ensures Merging(keys, [], runs)
  {
  }

  lemma {:induction false} NothingLeft(rests: seq<seq<Item>>)
    requires forall r :: 0 <= r < |rests| ==> rests[r] == []
    ensures Flat(rests) == []
    decreases |rests|
  {
    if rests != [] {
      NothingLeft(rests[1..]);
    }
  }

  // ---- merge levels ----

  lemma {:induction false} FlatOf(runs: seq<seq<Item>>, x: Item) returns (r: nat)
    requires x in Flat(runs)
    ensures r < |runs| && x in runs[r]
    decreases |runs|
  {
    if x in runs[0] {
      r := 0;
    } else {
      var q := FlatOf(runs[1..], x);
      r := q + 1;
    }
  }

  lemma {:induction false} FlatJoin(a: seq<seq<Item>>, b: seq<seq<Item>>)
    ensures Flat(a + b) == Flat(a) + Flat(b)
    decreases |a|
  {
    if a == [] {
      assert a + b == b;
    } else {
      assert (a + b)[0] == a[0] && (a + b)[1..] == a[1..] + b;
      FlatJoin(a[1..], b);
    }
  }

  lemma SortedSlice(keys: seq<Key>, runs: seq<seq<Item>>, lo: nat, hi: nat)
    requires Sorted(keys, runs) && lo <= hi <= |runs|
    ensures Sorted(keys, runs[lo..hi])
  {
    hide Ordered, Earlier;
  }

  /** Every record of `s` comes from one of the runs [lo, hi). */
  ghost predicate From(s: seq<Item>, runs: seq<seq<Item>>, lo: nat, hi: nat) {
    lo <= hi <= |runs| && forall i :: 0 <= i < |s| ==> exists r :: lo <= r < hi && s[i] in runs[r]
  }

  lemma MergedFrom(s: seq<Item>, runs: seq<seq<Item>>, lo: nat, hi: nat)
    requires lo <= hi <= |runs| && multiset(s) == multiset(Flat(runs[lo..hi]))
    ensures From(s, runs, lo, hi)
  {
    forall i | 0 <= i < |s| ensures exists r :: lo <= r < hi && s[i] in runs[r] {
      assert s[i] in multiset(s);
      var q := FlatOf(runs[lo..hi], s[i]);
      assert s[i] in runs[lo + q];
    }
  }

  lemma FromEarlier(keys: seq<Key>, runs: seq<seq<Item>>, s: seq<Item>, t: seq<Item>, lo: nat, mid: nat, lo1: nat,
                    hi: nat)
    requires Sorted(keys, runs) && From(s, runs, lo, mid) && From(t, runs, lo1, hi) && mid <= lo1
    ensures Earlier(s, t)
  {
    hide Ordered;
    forall i, j | 0 <= i < |s| && 0 <= j < |t| ensures s[i].at < t[j].at {
      var r :| lo <= r < mid && s[i] in runs[r];
      var q :| lo1 <= q < hi && t[j] in runs[q];
      assert Earlier(runs[r], runs[q]);
      var a :| 0 <= a < |runs[r]| && runs[r][a] == s[i];
      var b :| 0 <= b < |runs[q]| && runs[q][b] == t[j];
    }
  }

  /** Runs after which group `g` ends. */
  function GroupEnd(n: nat, g: nat): nat { if 16 * g < n then 16 * g else n }

  /** `next` holds the merges of the first groups of 16 runs. */
  ghost predicate Merged(keys: seq<Key>, runs: seq<seq<Item>>, next: seq<seq<Item>>) {
    Sorted(keys, next) && multiset(Flat(next)) == multiset(Flat(runs[..GroupEnd(|runs|, |next|)]))
    && forall g :: 0 <= g < |next| ==> From(next[g], runs, GroupEnd(|runs|, g), GroupEnd(|runs|, g + 1))
  }

  lemma OneMore(keys: seq<Key>, runs: seq<seq<Item>>, next: seq<seq<Item>>, out: seq<Item>)
    requires Sorted(keys, runs) && Merged(keys, runs, next) && Ordered(keys, out)
    requires var lo, hi := GroupEnd(|runs|, |next|), GroupEnd(|runs|, |next| + 1);
             multiset(out) == multiset(Flat(runs[lo..hi]))
    ensures Merged(keys, runs, next + [out])
  {
    hide Ordered, Earlier, From, Flat;
    var lo, hi := GroupEnd(|runs|, |next|), GroupEnd(|runs|, |next| + 1);
    MergedFrom(out, runs, lo, hi);
    forall g | 0 <= g < |next| ensures Earlier(next[g], out) {
      FromEarlier(keys, runs, next[g], out, GroupEnd(|runs|, g), GroupEnd(|runs|, g + 1), lo, hi);
    }
    SortedAppend(keys, next, out);
    FlatAppend(next, out);
    JoinedRuns(runs, lo, hi);
  }

  lemma JoinedRuns(runs: seq<seq<Item>>, lo: nat, hi: nat)
    requires lo <= hi <= |runs|
    ensures multiset(Flat(runs[..hi])) == multiset(Flat(runs[..lo])) + multiset(Flat(runs[lo..hi]))
  {
    FlatJoin(runs[..lo], runs[lo..hi]);
    assert runs[..lo] + runs[lo..hi] == runs[..hi];
  }

  lemma NoneMerged(keys: seq<Key>, runs: seq<seq<Item>>)
    ensures Merged(keys, runs, [])
  {
    assert runs[..0] == [];
  }

  lemma OneRun(run: seq<Item>)
    ensures Flat([run]) == run
  {
    assert [run][1..] == [];
  }

  lemma SameFirst(keys: seq<Key>, s: seq<Item>, t: seq<Item>)
    requires Ordered(keys, s) && Ordered(keys, t) && multiset(s) == multiset(t) && s != [] && t != []
    requires forall i, j :: 0 <= i < j < |s| ==> s[i].at != s[j].at
    ensures s[0] == t[0]
  {
    hide Before;
    var x, y := s[0], t[0];
    assert x in multiset(t) && y in multiset(s);
    var i :| 0 <= i < |t| && t[i] == x;
    var j :| 0 <= j < |s| && s[j] == y;
    if j > 0 {
      EitherFirst(keys, x, y);
    }
  }

  lemma DropFirst(s: seq<Item>)
    requires s != []
    ensures multiset(s[1..]) == multiset(s) - multiset{s[0]}
  {
    assert s == [s[0]] + s[1..];
  }

  /** That result is unique: sorting and stability leave no choice. */
  lemma {:induction false} OnlyOneOrder(keys: seq<Key>, s: seq<Item>, t: seq<Item>)
    requires Ordered(keys, s) && Ordered(keys, t) && multiset(s) == multiset(t)
    requires forall i, j :: 0 <= i < j < |s| ==> s[i].at != s[j].at
    ensures s == t
    decreases |s|
  {
    hide Before;
    assert |multiset(s)| == |s| && |multiset(t)| == |t|;
    if s != [] {
      SameFirst(keys, s, t);
      DropFirst(s);
      DropFirst(t);
      OnlyOneOrder(keys, s[1..], t[1..]);
    }
  }
}
