/** The image being edited (tools/mkdsk.c): directory, blocks and allocation map, changed in place. */
module DiskImage {
  import opened Disk

  /** A record of ^Z. */
  function PadRecord(): Record { seq(RECORD, _ => 0x1A) }

  /** Record `q` of block `i` of a run of records. */
  function BlockRecord(f: Format, recs: seq<Record>, i: nat, q: nat): Record {
    if i * PerBlock(f) + q < |recs| then recs[i * PerBlock(f) + q] else PadRecord()
  }

  /** Block `i` of a run of records, filled up with ^Z. */
  function BlockOf(f: Format, recs: seq<Record>, i: nat): (b: seq<Record>)
    ensures |b| == PerBlock(f) && forall q :: 0 <= q < PerBlock(f) ==> b[q] == BlockRecord(f, recs, i, q)
  {
    seq(PerBlock(f), q requires 0 <= q < PerBlock(f) => BlockRecord(f, recs, i, q))
  }

  /** Blocks a run of records takes. */
  function BlockCount(f: Format, n: nat): nat { (n * RECORD + BlockSize(f) - 1) / BlockSize(f) }

  lemma EnoughBlocks(f: Format, n: nat)
    requires n <= 256
    ensures BlockCount(f, n) <= Pointers(f) && forall i :: 0 <= i < Pointers(f) && i * PerBlock(f) < n ==>
            i < BlockCount(f, n)
  {
  }

  // ---- room ----

  /** How many of the flags from `from` on are clear. */
  function Unused(used: seq<bool>, from: nat): nat
    decreases |used| - from
  {
    if from >= |used| then 0 else (if used[from] then 0 else 1) + Unused(used, from + 1)
  }

  lemma {:induction false} AllUsed(used: seq<bool>, from: nat)
    requires forall k :: from <= k < |used| ==> used[k]
    ensures Unused(used, from) == 0
    decreases |used| - from
  {
    if from < |used| {
      AllUsed(used, from + 1);
    }
  }

  lemma {:induction false} SameUsed(used: seq<bool>, from: nat, k: nat)
    requires k < from && k < |used|
    ensures Unused(used[k := true], from) == Unused(used, from)
    decreases |used| - from
  {
    if from < |used| {
      SameUsed(used, from + 1, k);
    }
  }

  lemma {:induction false} OneLess(used: seq<bool>, from: nat, k: nat)
    requires from <= k < |used| && !used[k]
    ensures Unused(used[k := true], from) + 1 == Unused(used, from)
    decreases k - from
  {
    if k == from {
      SameUsed(used, from + 1, k);
    } else {
      OneLess(used, from + 1, k);
    }
  }

  function InUse(dir: seq<Entry>): (r: seq<bool>)
    ensures |r| == |dir| && forall k :: 0 <= k < |dir| ==> (r[k] <==> dir[k][0] != DELETED)
  {
    seq(|dir|, k requires 0 <= k < |dir| => dir[k][0] != DELETED)
  }

  lemma EntryUsed(dir: seq<Entry>, e: nat, d: Entry)
    requires e < |dir| && d[0] != DELETED
    ensures InUse(dir[e := d]) == InUse(dir)[e := true]
  {
  }

  function EntriesLeft(m: Image): nat { Unused(InUse(m.dir), 0) }

  function BlocksLeft(f: Format, m: Image): nat { Unused(m.alloc, DirBlocks(f)) }

  /** A free entry for every 256 records, one at least, and a free block for every block of data. */
  predicate HasRoom(f: Format, m: Image, recs: seq<Record>) {
    Parts(recs) <= EntriesLeft(m) && BlockCount(f, |recs|) <= BlocksLeft(f, m)
  }

  lemma NoBlocks(f: Format)
    ensures BlockCount(f, 0) == 0
  {
  }

  /** Full entries end on a block boundary, so the entries' blocks add up. */
  lemma CountsAdd(f: Format, k: nat, n: nat)
    ensures BlockCount(f, 256 * k + n) == BlockCount(f, 256 * k) + BlockCount(f, n)
  {
    WholeBlocks(f, k, 0);
    WholeBlocks(f, k, n);
  }

  lemma WholeBlocks(f: Format, k: nat, n: nat)
    ensures BlockCount(f, 256 * k + n) == Pointers(f) * k + BlockCount(f, n)
  {
    var x := n * RECORD + BlockSize(f) - 1;
    if f.FD? {
      assert (2048 * (16 * k) + x) / 2048 == 16 * k + x / 2048;
    } else {
      assert (4096 * (8 * k) + x) / 4096 == 8 * k + x / 4096;
    }
  }

  lemma CountsGrow(f: Format, n: nat, m: nat)
    requires n <= m
    ensures BlockCount(f, n) <= BlockCount(f, m)
  {
  }

  class ImageFile {
    const f: Format
    const dir: array<Entry>
    const blocks: array<seq<Record>>
    const alloc: array<bool>
    ghost var owner: seq<Owner>

    ghost function Now(): Image
      reads dir, blocks, alloc
    {
      Image(dir[..], blocks[..], alloc[..])
    }

    ghost predicate Valid()
      reads this, dir, blocks, alloc
    {
      Good(f, Now(), owner)
    }

    /** img_load: the map is rebuilt from a well-formed directory. */
    constructor (f: Format, d: seq<Entry>, b: seq<seq<Record>>, ghost owner: seq<Owner>)
      requires |d| == Drm(f) + 1 && |b| == Dsm(f) + 1 && (forall k :: 0 <= k <= Dsm(f) ==> |b[k]| == PerBlock(f))
      requires Owned(f, d, owner) && Placed(f, d, owner) && forall e :: 0 <= e < |d| && Live(d[e]) ==> Filled(f, d[e])
      ensures Valid() && this.f == f && Now().dir == d && Now().blocks == b && MapExact(f, Now())
      ensures fresh(dir) && fresh(blocks) && fresh(alloc)
    {
      hide Owned, Placed, Filled, Pointer;
      this.f := f;
      dir := new Entry[|d|](i requires 0 <= i < |d| => d[i]);
      blocks := new seq<Record>[|b|](i requires 0 <= i < |b| => b[i]);
      alloc := new bool[Dsm(f) + 1](_ => false);
      this.owner := owner;
      new;
      assert dir[..] == d;
      assert blocks[..] == b;
      MarkAll();
      MapIs(f, Now(), owner);
    }

    /** The two marking loops of img_load. */
    method MarkAll()
      requires dir.Length == Drm(f) + 1 && alloc.Length == Dsm(f) + 1 && Owned(f, dir[..], owner)
               && Placed(f, dir[..], owner)
      requires forall k :: 0 <= k < alloc.Length ==> !alloc[k]
      modifies alloc
      ensures Mapped(alloc[..], owner)
    {
      hide Owned, Placed, Pointer;
      assert |owner| == Dsm(f) + 1 by { OwnerSize(f, dir[..], owner); }
      Geometry(f);
      var b := 0;
      while b < DirBlocks(f)
        invariant b <= DirBlocks(f) && forall k :: 0 <= k <= Dsm(f) ==> (alloc[k] <==> k < b)
      {
        alloc[b] := true;
        b := b + 1;
      }
      DirectoryFirst(f, dir[..], owner);
      var e := 0;
      while e < dir.Length
        invariant e <= dir.Length && forall k :: 0 <= k <= Dsm(f) ==> (alloc[k] <==> Marked(owner[k], e, 0))
      {
        if Live(dir[e]) {
          var i := 0;
          while i < Pointers(f)
            invariant i <= Pointers(f) && forall k :: 0 <= k <= Dsm(f) ==> (alloc[k] <==> Marked(owner[k], e, i))
          {
            PointerOwner(f, dir[..], owner, e, i);
            var p := Pointer(f, dir[e], i);
            if p != 0 && p <= Dsm(f) {
              alloc[p] := true;
            }
            i := i + 1;
          }
          EntryDone(f, dir[..], owner, e);
        } else {
          EntryDone(f, dir[..], owner, e);
        }
        e := e + 1;
      }
      AllMarked(f, dir[..], owner);
    }

    /** alloc_block: the first free data block, or none. */
    method AllocBlock() returns (ok: bool, b: nat)
      requires alloc.Length == Dsm(f) + 1
      modifies alloc
      ensures ok ==> DirBlocks(f) <= b <= Dsm(f) && !old(alloc[b]) && alloc[..] == old(alloc[..])[b := true]
      ensures ok ==> forall k :: DirBlocks(f) <= k < b ==> old(alloc[k])
      ensures !ok ==> alloc[..] == old(alloc[..]) && forall k :: DirBlocks(f) <= k <= Dsm(f) ==> alloc[k]
    {
      b := DirBlocks(f);
      Geometry(f);
      while b <= Dsm(f)
        invariant DirBlocks(f) <= b <= Dsm(f) + 1 && alloc[..] == old(alloc[..])
        invariant forall k :: DirBlocks(f) <= k < b ==> alloc[k]
      {
        if !alloc[b] {
          ghost var was := alloc[..];
          alloc[b] := true;
          assert alloc[..] == was[b := true];
          return true, b;
        }
        b := b + 1;
      }
      ok := false;
    }

    /** free_entry: the first deleted entry, or none. */
    method FreeEntry() returns (ok: bool, e: nat)
      ensures ok ==> e < dir.Length && dir[e][0] == DELETED && forall k :: 0 <= k < e ==> dir[k][0] != DELETED
      ensures !ok ==> forall k :: 0 <= k < dir.Length ==> dir[k][0] != DELETED
    {
      e := 0;
      while e < dir.Length
        invariant e <= dir.Length && forall k :: 0 <= k < e ==> dir[k][0] != DELETED
      {
        if dir[e][0] == DELETED {
          return true, e;
        }
        e := e + 1;
      }
      ok := false;
    }

    /** delete_file. */
    method DeleteFile(name: Name)
      requires Valid()
      modifies this`owner, dir, alloc
      ensures Valid() && Now() == Delete(f, old(Now()), name, 0)
    {
      ghost var m := Now();
      ghost var o := DeleteKeeps(f, m, owner, name, 0);
      hide Owned, Placed, Mapped, Filled, Pointer, NameEq, Release;
      var e := 0;
      while e < dir.Length
        invariant e <= dir.Length && Sized(f, Now()) && Delete(f, Now(), name, e) == Delete(f, m, name, 0)
                  && owner == old(owner)
      {
        if IsOf(dir[e], name) {
          DropHere(e);
        }
        e := e + 1;
      }
      owner := o;
    }

    /** Free the blocks of an entry and mark it deleted. */
    method DropHere(e: nat)
      requires Sized(f, Now()) && e < dir.Length
      modifies dir, alloc
      ensures Now() == DropEntry(f, old(Now()), e)
    {
      hide Pointer;
      ghost var m := Now();
      var d := dir[e];
      var i := 0;
      while i < Pointers(f)
        invariant i <= Pointers(f) && dir[..] == m.dir && |alloc[..]| == Dsm(f) + 1
                  && Release(f, d, alloc[..], i) == Release(f, d, m.alloc, 0)
      {
        var b := Pointer(f, d, i);
        ghost var was := alloc[..];
        if b != 0 && b <= Dsm(f) {
          alloc[b] := false;
          assert alloc[..] == was[b := false];
        }
        i := i + 1;
      }
      dir[e] := d[0 := DELETED];
      assert dir[..] == m.dir[e := d[0 := DELETED]];
    }

    /** The block loop of add_file: allocate and fill one block after another. */
    method WriteBlocks(recs: seq<Record>) returns (ok: bool, ptrs: seq<nat>)
      requires Valid() && |recs| <= 256
      modifies blocks, alloc
      ensures FreshBlocks(f, owner, ptrs) && Taken(old(alloc[..]), alloc[..], ptrs)
              && Written(f, old(blocks[..]), blocks[..], recs, ptrs)
      ensures ok ==> |ptrs| == BlockCount(f, |recs|)
      ensures ok <==> BlockCount(f, |recs|) <= Unused(old(alloc[..]), DirBlocks(f))
      ensures ok ==> Unused(alloc[..], DirBlocks(f)) + BlockCount(f, |recs|) == Unused(old(alloc[..]), DirBlocks(f))
    {
      hide Owned, Placed, Filled, Pointer, BlockOf, Unused;
      EnoughBlocks(f, |recs|);
      Geometry(f);
      ptrs := [];
      ghost var a0, b0 := alloc[..], blocks[..];
      while |ptrs| < BlockCount(f, |recs|)
        invariant |ptrs| <= BlockCount(f, |recs|) && FreshBlocks(f, owner, ptrs) && Taken(a0, alloc[..], ptrs)
                  && Written(f, b0, blocks[..], recs, ptrs)
        invariant Unused(alloc[..], DirBlocks(f)) + |ptrs| == Unused(a0, DirBlocks(f))
        decreases BlockCount(f, |recs|) - |ptrs|
      {
        ghost var map0 := alloc[..];
        var got, b := AllocBlock();
        if !got {
          AllUsed(alloc[..], DirBlocks(f));
          return false, ptrs;
        }
        OneLess(map0, DirBlocks(f), b);
        ghost var was := blocks[..];
        blocks[b] := BlockOf(f, recs, |ptrs|);
        assert blocks[..] == was[b := BlockOf(f, recs, |ptrs|)];
        ptrs := ptrs + [b];
      }
      ok := true;
    }

    /** One turn of add_file's loop: the k-th entry of the file, with its blocks. */
    method AddEntry(name: Name, k: nat, recs: seq<Record>) returns (ok: bool, e: nat)
      requires Valid() && |recs| <= 256 && k < 4096
      modifies this`owner, dir, blocks, alloc
      ensures ok ==> Valid() && e < dir.Length && old(dir[e][0]) == DELETED && forall i :: 0 <= i < e ==>
              old(dir[i][0]) != DELETED
      ensures ok ==> Step(f, old(Now()), Now(), e) && IsOf(dir[e], Masked(name))
      ensures ok ==> Group(dir[e]) == 2 * k && Records(dir[e]) == |recs|
      ensures ok ==> Contents(f, Now(), dir[e]) == recs
      ensures ok <==> 1 <= EntriesLeft(old(Now())) && BlockCount(f, |recs|) <= BlocksLeft(f, old(Now()))
      ensures ok ==> EntriesLeft(Now()) + 1 == EntriesLeft(old(Now()))
      ensures ok ==> BlocksLeft(f, Now()) + BlockCount(f, |recs|) == BlocksLeft(f, old(Now()))
    {
      hide Owned, Placed, Mapped, Filled, Pointer, FreshBlocks, Taken, Written, MakeEntry, IsOf, Group, Records,
           Contents, Unused, BlockCount, InUse;
      ok, e := FreeEntry();
      if !ok {
        AllUsed(InUse(dir[..]), 0);
        return;
      }
      OneLess(InUse(dir[..]), 0, e);
      ghost var m, o := Now(), owner;
      var got, ptrs := WriteBlocks(recs);
      if !got {
        return false, e;
      }
      FreshRange(f, owner, ptrs);
      var d := MakeEntry(f, name, k, |recs|, ptrs);
      dir[e] := d;
      assert dir[..] == m.dir[e := d];
      EntryAdded(f, m, Now(), owner, name, k, recs, ptrs, e);
      MadeEntry(f, name, k, |recs|, ptrs);
      EntryUsed(m.dir, e, d);
      owner := Owning(owner, e, ptrs);
    }

    /** add_file: the name's old entries go, then the records are added 256 to an entry.  Every file but the one the
        masked name stands for extracts as before; that one gives the records back if no entry of it was left.  For a
        seven-bit name that is always so.  With a high bit nothing was deleted, the records are found under the
        masked name only, and behind entries that were there already. */
    method AddFile(name: Name, recs: seq<Record>) returns (ok: bool)
      requires Valid()
      modifies this`owner, dir, blocks, alloc
      ensures ok <==> HasRoom(f, Delete(f, old(Now()), name, 0), recs)
      ensures ok ==> Valid() && MapExact(f, Now()) && (SevenBit(name) ==> Extract(f, Now(), name, 0) == recs)
      ensures ok ==> Unharmed(f, old(Now()), Now(), name)
      ensures ok && NoFile(old(Now()).dir, Masked(name)) ==> Extract(f, Now(), Masked(name), 0) == recs
      ensures ok ==> forall other: Name :: other != Masked(name) ==>
              Extract(f, Now(), other, 0) == Extract(f, old(Now()), other, 0)
    {
      hide Owned, Placed, Mapped, Filled, Pointer, IsOf, Group, Records, Contents, Part, Extract, Delete, Unused,
           BlockCount, InUse;
      ghost var m0, o0 := Now(), owner;
      DeleteFile(name);
      ghost var m1 := Now();
      ghost var found := Masked(name);
      NothingHeld(f, m0, o0, m1, name, recs);
      var k: nat, rec: nat := 0, 0;
      NoBlocks(f);
      ghost var idx: seq<nat> := [];
      var more := true;
      while more
        invariant Valid() && |idx| == k <= Parts(recs) && Rising(dir[..], idx) && Kept(f, m1, Now(), idx)
        invariant HoldsParts(f, Now(), found, idx, recs)
        invariant rec == (if 256 * k < |recs| then 256 * k else |recs|) && (more <==> k < Parts(recs))
        invariant EntriesLeft(Now()) + k == EntriesLeft(m1)
                  && BlocksLeft(f, Now()) + BlockCount(f, rec) == BlocksLeft(f, m1)
        decreases Parts(recs) - k
      {
        var n := if |recs| - rec > 256 then 256 else |recs| - rec;
        var part := recs[rec..rec + n];
        PartIs(recs, k, rec, n);
        CountsAdd(f, k, n);
        CountsGrow(f, rec + n, |recs|);
        RisingBound(dir[..], idx);
        DirSize(f, Now(), owner);
        ghost var m := Now();
        var got, e := AddEntry(name, k, part);
        if !got {
          return false;
        }
        Next(f, m1, m, Now(), found, idx, e, recs, owner);
        idx := idx + [e];
        rec := rec + n;
        k := k + 1;
        more := rec < |recs|;
      }
      RisingBound(dir[..], idx);
      DirSize(f, Now(), owner);
      if NoFile(m1.dir, found) {
        HeldAlone(f, m1, Now(), found, idx, recs);
        ExtractHeld(f, Now(), found, idx, recs, 0);
        assert recs[0..] == recs;
      }
      MapIs(f, Now(), owner);
      NoHarm(f, m0, o0, m1, Now(), name, idx);
      forall other: Name | other != found ensures Extract(f, Now(), other, 0) == Extract(f, m0, other, 0) {
        OtherSame(f, m0, o0, m1, Now(), name, other, idx, recs);
        ExtractSame(f, m0, Now(), other, 0);
      }
      ok := true;
    }

    /** The record loop of extract on one entry. */
    method ReadEntry(e: nat) returns (recs: seq<Record>)
      requires Valid() && e < dir.Length && Live(dir[e])
      ensures recs == Contents(f, Now(), dir[e])
    {
      hide Owned, Placed, Mapped, Filled, Pointer, RecordAt, Records;
      var d := dir[e];
      EntryFits(f, Now(), owner, e);
      recs := [];
      while |recs| < Records(d)
        invariant |recs| <= Records(d) && forall r :: 0 <= r < |recs| ==> recs[r] == RecordAt(f, Now().blocks, d, r)
        decreases Records(d) - |recs|
      {
        var r := |recs|;
        SlotOf(f, r, Records(d));
        RecordPlace(f, Now(), owner, e, r, r / PerBlock(f));
        var b := Pointer(f, d, r / PerBlock(f));
        recs := recs + [blocks[b][r % PerBlock(f)]];
      }
    }

    /** The walk of extract over the entries of a file. */
    method ExtractFile(name: Name) returns (recs: seq<Record>)
      requires Valid()
      ensures recs == Extract(f, Now(), name, 0)
    {
      hide Owned, Placed, Mapped, Filled, Pointer, Contents, Records, NameEq, Group, Extract;
      recs := [];
      var x := 0;
      var more := true;
      assert [] + Extract(f, Now(), name, 0) == Extract(f, Now(), name, 0);
      while more
        invariant x <= 8192 && recs + (if more then Extract(f, Now(), name, x) else []) == Extract(f, Now(), name, 0)
        decreases more, 8192 - x
      {
        ExtractStep(f, Now(), name, x);
        var e := FindEntry(name, x);
        if e == dir.Length {
          more := false;
        } else {
          var part := ReadEntry(e);
          ghost var rest := if Records(dir[e]) < 256 then [] else Extract(f, Now(), name, x + 2);
          assert recs + (part + rest) == (recs + part) + rest;
          recs := recs + part;
          more := Records(dir[e]) >= 256;
          x := x + 2;
        }
      }
    }

    method FindEntry(name: Name, x: nat) returns (e: nat)
      requires Valid()
      ensures e == Find(Now().dir, name, x, 0)
    {
      hide Good;
      e := 0;
      while e < dir.Length && !(IsOf(dir[e], name) && Group(dir[e]) == x)
        invariant e <= dir.Length && Find(dir[..], name, x, e) == Find(dir[..], name, x, 0)
      {
        e := e + 1;
      }
    }
  }

  lemma EntryFits(f: Format, m: Image, owner: seq<Owner>, e: nat)
    requires Good(f, m, owner) && e < |m.dir| && Live(m.dir[e])
    ensures Records(m.dir[e]) <= 256
  {
  }

  lemma RecordPlace(f: Format, m: Image, owner: seq<Owner>, e: nat, r: nat, q: nat)
    requires Good(f, m, owner) && e < |m.dir| && Live(m.dir[e]) && r < Records(m.dir[e]) <= 256
    requires q == r / PerBlock(f) && q < Pointers(f)
    ensures var b := Pointer(f, m.dir[e], q);
            b <= Dsm(f) && r % PerBlock(f) < |m.blocks[b]|
                && m.blocks[b][r % PerBlock(f)] == RecordAt(f, m.blocks, m.dir[e], r)
  {
    hide Owned, Placed, Mapped, Filled, Pointer, Records;
    SlotOf(f, r, Records(m.dir[e]));
    BlockRange(f, m, owner, e, r / PerBlock(f));
  }

  lemma BlockRange(f: Format, m: Image, owner: seq<Owner>, e: nat, i: nat)
    requires Good(f, m, owner) && e < |m.dir| && Live(m.dir[e]) && i < Pointers(f)
             && i * PerBlock(f) < Records(m.dir[e])
    ensures Pointer(f, m.dir[e], i) <= Dsm(f)
  {
    hide Pointer, Records;
  }

  lemma GroupBound(d: Entry)
    ensures Group(d) <= 8190
  {
  }

  lemma ExtractStep(f: Format, m: Image, name: Name, x: nat)
    requires Sized(f, m) && x <= 8192
    ensures var e := Find(m.dir, name, x, 0);
            Extract(f, m, name, x)
            == if e == |m.dir| then [] else if Records(m.dir[e]) < 256 then Contents(f, m, m.dir[e])
               else Contents(f, m, m.dir[e]) + (if x + 2 <= 8192 then Extract(f, m, name, x + 2) else [])
    ensures Find(m.dir, name, x, 0) < |m.dir| ==> x + 2 <= 8192 && Live(m.dir[Find(m.dir, name, x, 0)])
  {
    hide Contents, Records, NameEq, Group;
    var e := Find(m.dir, name, x, 0);
    if e < |m.dir| {
      GroupBound(m.dir[e]);
    }
  }

  /** A host file cut into records, the last one filled up with ^Z. */
  function ToRecords(bytes: seq<Byte>): (recs: seq<Record>)
    decreases |bytes|
  {
    if bytes == [] then []
    else if |bytes| < RECORD then [bytes + PadRecord()[|bytes|..]]
    else [bytes[..RECORD]] + ToRecords(bytes[RECORD..])
  }

  function Joined(recs: seq<Record>): seq<Byte> { if recs == [] then [] else recs[0] + Joined(recs[1..]) }

  function PadLength(n: nat): nat { (RECORD - n % RECORD) % RECORD }

  lemma OneRecordMore(n: nat)
    ensures PadLength(n + RECORD) == PadLength(n) && (n + RECORD + RECORD - 1) / RECORD == 1 + (n + RECORD - 1) / RECORD
  {
    var x := n + 127;
    assert (x + 128) / 128 == x / 128 + 1;
    assert (n + 128) % 128 == n % 128;
  }

  /** What extracting a file writes: the bytes that were added, padded with ^Z to a whole number of records. */
  lemma {:induction false} PaddedBytes(bytes: seq<Byte>)
    ensures Joined(ToRecords(bytes)) == bytes + PadRecord()[..PadLength(|bytes|)]
    ensures |ToRecords(bytes)| == (|bytes| + RECORD - 1) / RECORD
    decreases |bytes|
  {
    var recs := ToRecords(bytes);
    if bytes == [] {
      assert PadLength(0) == 0;
    } else if |bytes| < RECORD {
      assert recs[1..] == [] && PadLength(|bytes|) == RECORD - |bytes|;
      assert PadRecord()[|bytes|..] == PadRecord()[..RECORD - |bytes|];
    } else {
      var rest := bytes[RECORD..];
      assert recs[0] == bytes[..RECORD] && recs[1..] == ToRecords(rest);
      PaddedBytes(rest);
      OneRecordMore(|rest|);
      assert bytes == bytes[..RECORD] + rest;
    }
  }

  /** One entry was filled in; what live entries point at did not change. */
  ghost predicate Step(f: Format, m: Image, m1: Image, e: nat) {
    Sized(f, m) && Sized(f, m1) && e < |m.dir| && !Live(m.dir[e]) && m1.dir == m.dir[e := m1.dir[e]]
    && forall k, i :: 0 <= k < |m.dir| && 0 <= i < Pointers(f) && Live(m.dir[k]) && Pointer(f, m.dir[k], i) != 0 ==>
         Pointer(f, m.dir[k], i) <= Dsm(f) && m1.blocks[Pointer(f, m.dir[k], i)] == m.blocks[Pointer(f, m.dir[k], i)]
  }

  lemma FreshRange(f: Format, owner: seq<Owner>, ptrs: seq<nat>)
    requires FreshBlocks(f, owner, ptrs)
    ensures |ptrs| <= Pointers(f) && forall i :: 0 <= i < |ptrs| ==> ptrs[i] <= Dsm(f)
  {
  }

  lemma WrittenSized(f: Format, m: Image, m1: Image, recs: seq<Record>, ptrs: seq<nat>)
    requires Sized(f, m) && Written(f, m.blocks, m1.blocks, recs, ptrs) && |m1.dir| == |m.dir|
             && |m1.alloc| == |m.alloc|
    ensures Sized(f, m1)
  {
    hide BlockOf;
    forall b | 0 <= b <= Dsm(f) ensures |m1.blocks[b]| == PerBlock(f) {
      if b in ptrs {
        var i :| 0 <= i < |ptrs| && ptrs[i] == b;
        BlockSized(f, recs, i);
      }
    }
  }

  lemma BlockSized(f: Format, recs: seq<Record>, i: nat)
    ensures |BlockOf(f, recs, i)| == PerBlock(f)
  {
  }

  /** The records come back out of the blocks they were written to. */
  lemma ContentsBack(f: Format, m: Image, blocks: seq<seq<Record>>, d: Entry, recs: seq<Record>, ptrs: seq<nat>)
    requires Sized(f, m) && Written(f, blocks, m.blocks, recs, ptrs) && Records(d) == |recs| <= 256
    requires |ptrs| == BlockCount(f, |recs|) && forall i :: 0 <= i < Pointers(f) ==>
             Pointer(f, d, i) == if i < |ptrs| then ptrs[i] else 0
    ensures Contents(f, m, d) == recs
  {
    hide Pointer, Records, BlockOf;
    EnoughBlocks(f, |recs|);
    forall r | 0 <= r < |recs| ensures RecordAt(f, m.blocks, d, r) == recs[r] {
      SlotOf(f, r, |recs|);
      var i := r / PerBlock(f);
      BlockBack(f, recs, r);
      assert m.blocks[ptrs[i]] == BlockOf(f, recs, i);
    }
  }

  lemma BlockBack(f: Format, recs: seq<Record>, r: nat)
    requires r < |recs|
    ensures r % PerBlock(f) < |BlockOf(f, recs, r / PerBlock(f))|
    ensures BlockOf(f, recs, r / PerBlock(f))[r % PerBlock(f)] == recs[r]
  {
    assert (r / PerBlock(f)) * PerBlock(f) + r % PerBlock(f) == r;
  }

  lemma MadeFilled(f: Format, d: Entry, n: nat, ptrs: seq<nat>)
    requires n <= 256 && Records(d) == n && |ptrs| == BlockCount(f, n) && (forall i :: 0 <= i < |ptrs| ==> ptrs[i] != 0)
    requires forall i :: 0 <= i < Pointers(f) ==> Pointer(f, d, i) == if i < |ptrs| then ptrs[i] else 0
    ensures Filled(f, d) && Points(f, d, ptrs)
  {
    hide Pointer, Records;
    EnoughBlocks(f, n);
  }

  lemma FreshNonZero(f: Format, m: Image, owner: seq<Owner>, ptrs: seq<nat>)
    requires Good(f, m, owner) && FreshBlocks(f, owner, ptrs)
    ensures forall i :: 0 <= i < |ptrs| ==> ptrs[i] != 0
  {
    hide Pointer, Filled, Owned;
    Geometry(f);
    assert InPlace(f, m.dir, owner[0], 0);
  }

  lemma EntryAdded(f: Format, m: Image, m1: Image, owner: seq<Owner>, name: Name, k: nat, recs: seq<Record>,
                   ptrs: seq<nat>, e: nat)
    requires Good(f, m, owner) && FreshBlocks(f, owner, ptrs) && Taken(m.alloc, m1.alloc, ptrs)
             && Written(f, m.blocks, m1.blocks, recs, ptrs)
    requires |recs| <= 256 && |ptrs| == BlockCount(f, |recs|) && k < 4096 && e < |m.dir| && m.dir[e][0] == DELETED
    requires |ptrs| <= Pointers(f) && forall i :: 0 <= i < |ptrs| ==> ptrs[i] <= Dsm(f)
    requires m1.dir == m.dir[e := MakeEntry(f, name, k, |recs|, ptrs)]
    ensures Good(f, m1, Owning(owner, e, ptrs)) && Step(f, m, m1, e)
    ensures var d := m1.dir[e];
            IsOf(d, Masked(name)) && Group(d) == 2 * k && Records(d) == |recs| && Contents(f, m1, d) == recs
  {
    hide Owned, Placed, Mapped, Filled, Pointer, FreshBlocks, Written, MakeEntry, IsOf, Group, Records, Contents,
         Points;
    var d := MakeEntry(f, name, k, |recs|, ptrs);
    MadeEntry(f, name, k, |recs|, ptrs);
    FoundMasked(f, name, k, |recs|, ptrs);
    WrittenSized(f, m, m1, recs, ptrs);
    ContentsBack(f, m1, m.blocks, d, recs, ptrs);
    FreshNonZero(f, m, owner, ptrs);
    MadeFilled(f, d, |recs|, ptrs);
    AddKeeps(f, m, m1, owner, e, d, ptrs);
    StepMade(f, m, m1, owner, recs, ptrs, e, d);
  }

  lemma StepMade(f: Format, m: Image, m1: Image, owner: seq<Owner>, recs: seq<Record>, ptrs: seq<nat>, e: nat, d: Entry)
    requires Good(f, m, owner) && FreshBlocks(f, owner, ptrs) && Written(f, m.blocks, m1.blocks, recs, ptrs)
             && Sized(f, m1)
    requires e < |m.dir| && !Live(m.dir[e]) && m1.dir == m.dir[e := d]
    ensures Step(f, m, m1, e)
  {
    hide Owned, Placed, Mapped, Filled, Pointer, FreshBlocks, BlockOf;
    forall k, i | 0 <= k < |m.dir| && 0 <= i < Pointers(f) && Live(m.dir[k]) && Pointer(f, m.dir[k], i) != 0
      ensures Pointer(f, m.dir[k], i) <= Dsm(f)
              && m1.blocks[Pointer(f, m.dir[k], i)] == m.blocks[Pointer(f, m.dir[k], i)]
    {
      OthersUntouched(f, m, m1.blocks, owner, ptrs, k, i);
    }
  }

  // ---- the loop of add_file ----

  /** Entries are filled first free one first, so each lies after the one before. */
  ghost predicate Rising(dir: seq<Entry>, idx: seq<nat>) {
    (forall j :: 0 <= j < |idx| ==> j <= idx[j] < |dir|)
    && forall j, k :: 0 <= j < |idx| && 0 <= k <= idx[j] ==> dir[k][0] != DELETED
  }

  lemma RisingBound(dir: seq<Entry>, idx: seq<nat>)
    requires Rising(dir, idx)
    ensures |idx| <= |dir|
  {
    if idx != [] {
      assert |idx| - 1 <= idx[|idx| - 1];
    }
  }

  lemma DirSize(f: Format, m: Image, owner: seq<Owner>)
    requires Good(f, m, owner)
    ensures |m.dir| <= 1024
  {
  }

  /** Since the old entries were deleted: only the entries in `idx` changed, and they were free; blocks of live
      entries are as they were. */
  ghost predicate Kept(f: Format, m1: Image, m: Image, idx: seq<nat>) {
    Sized(f, m1) && Sized(f, m)
    && (forall e :: 0 <= e < |m.dir| ==> if e in idx then !Live(m1.dir[e]) else m.dir[e] == m1.dir[e])
    && forall k, i :: 0 <= k < |m1.dir| && 0 <= i < Pointers(f) && Live(m1.dir[k]) && Pointer(f, m1.dir[k], i) != 0 ==>
         Pointer(f, m1.dir[k], i) <= Dsm(f) && m.blocks[Pointer(f, m1.dir[k], i)] == m1.blocks[Pointer(f, m1.dir[k], i)]
  }

  lemma PartIs(recs: seq<Record>, k: nat, rec: nat, n: nat)
    requires rec == (if 256 * k < |recs| then 256 * k else |recs|)
             && n == (if |recs| - rec > 256 then 256 else |recs| - rec)
    requires k < Parts(recs)
    ensures recs[rec..rec + n] == Part(recs, k)
    ensures rec + n == (if 256 * (k + 1) < |recs| then 256 * (k + 1) else |recs|)
            && (rec + n < |recs| <==> k + 1 < Parts(recs))
  {
  }

  lemma NothingHeld(f: Format, m0: Image, owner: seq<Owner>, m1: Image, name: Name, recs: seq<Record>)
    requires Good(f, m0, owner) && m1 == Delete(f, m0, name, 0) && Sized(f, m1) && exists o :: Good(f, m1, o)
    ensures Kept(f, m1, m1, []) && HoldsParts(f, m1, Masked(name), [], recs)
    ensures SevenBit(name) || NoFile(m0.dir, Masked(name)) ==> NoFile(m1.dir, Masked(name))
  {
    hide Delete, Placed, Mapped, Filled, Pointer, NameEq, Masked;
    MaskedIs(name);
    var o := DeleteKeeps(f, m0, owner, name, 0);
    if SevenBit(name) || NoFile(m0.dir, Masked(name)) {
      forall e | 0 <= e < |m1.dir| ensures !IsOf(m1.dir[e], Masked(name)) {
        if IsOf(m0.dir[e], name) {
          assert m1.dir[e] == m0.dir[e][0 := DELETED];
        }
      }
    }
  }

  lemma MaskedIs(name: Name)
    ensures SevenBit(Masked(name)) && (SevenBit(name) ==> Masked(name) == name)
  {
  }

  /** Only the new entries are the file's, if it had none. */
  lemma HeldAlone(f: Format, m1: Image, m: Image, name: Name, idx: seq<nat>, recs: seq<Record>)
    requires Kept(f, m1, m, idx) && NoFile(m1.dir, name) && HoldsParts(f, m, name, idx, recs)
    ensures Holds(f, m, name, idx, recs)
  {
    hide IsOf, Pointer, HoldsPart;
  }

  lemma PartKept(f: Format, m: Image, m1: Image, name: Name, e: nat, at: nat, j: nat, recs: seq<Record>)
    requires Step(f, m, m1, e) && HoldsPart(f, m, name, at, j, recs) && Filled(f, m.dir[at])
    ensures HoldsPart(f, m1, name, at, j, recs)
  {
    hide Pointer, Records, NameEq, Group, Part, Filled, Contents;
    ContentsKept(f, m, m1, e, at);
  }

  lemma ContentsKept(f: Format, m: Image, m1: Image, e: nat, at: nat)
    requires Step(f, m, m1, e) && at < |m.dir| && Live(m.dir[at]) && Filled(f, m.dir[at])
    ensures Contents(f, m1, m.dir[at]) == Contents(f, m, m.dir[at])
  {
    hide Pointer, Records, RecordAt;
    var d := m.dir[at];
    forall r | 0 <= r < Records(d) ensures RecordAt(f, m1.blocks, d, r) == RecordAt(f, m.blocks, d, r) {
      hide PerBlock, Step, Sized;
      RecordPointer(f, d, r);
      RecordKept(f, m, m1, e, at, r);
    }
  }

  lemma RecordPointer(f: Format, d: Entry, r: nat)
    requires Filled(f, d) && r < Records(d)
    ensures r / PerBlock(f) < Pointers(f) && Pointer(f, d, r / PerBlock(f)) != 0
  {
    hide Pointer, Records;
    SlotOf(f, r, Records(d));
  }

  lemma RecordKept(f: Format, m: Image, m1: Image, e: nat, at: nat, r: nat)
    requires Sized(f, m) && Sized(f, m1) && r < 256
    requires Step(f, m, m1, e) && at < |m.dir| && Live(m.dir[at]) && r / PerBlock(f) < Pointers(f)
             && Pointer(f, m.dir[at], r / PerBlock(f)) != 0
    ensures RecordAt(f, m1.blocks, m.dir[at], r) == RecordAt(f, m.blocks, m.dir[at], r)
  {
    hide Pointer, PerBlock;
  }

  lemma Next(f: Format, m1: Image, m: Image, m2: Image, name: Name, idx: seq<nat>, e: nat, recs: seq<Record>,
             owner: seq<Owner>)
    requires Kept(f, m1, m, idx) && HoldsParts(f, m, name, idx, recs) && Step(f, m, m2, e) && Rising(m.dir, idx)
    requires exists o :: Good(f, m, o)
    requires m.dir[e][0] == DELETED && (forall i :: 0 <= i < e ==> m.dir[i][0] != DELETED)
             && HoldsPart(f, m2, name, e, |idx|, recs)
    ensures Kept(f, m1, m2, idx + [e]) && HoldsParts(f, m2, name, idx + [e], recs) && Rising(m2.dir, idx + [e])
  {
    hide Contents, Group, Records, Part, Pointer;
    NextRising(m.dir, m2.dir, idx, e);
    NextKept(f, m1, m, m2, idx, e);
    NextHolds(f, m, m2, name, idx, e, recs);
  }

  lemma NextRising(dir: seq<Entry>, dir1: seq<Entry>, idx: seq<nat>, e: nat)
    requires Rising(dir, idx) && e < |dir| == |dir1| && dir1 == dir[e := dir1[e]] && dir1[e][0] != DELETED
             && dir[e][0] == DELETED
    requires forall i :: 0 <= i < e ==> dir[i][0] != DELETED
    ensures Rising(dir1, idx + [e])
  {
    if idx != [] {
      var l := idx[|idx| - 1];
      assert forall k :: 0 <= k <= l ==> dir[k][0] != DELETED;
    }
  }

  lemma NextKept(f: Format, m1: Image, m: Image, m2: Image, idx: seq<nat>, e: nat)
    requires Kept(f, m1, m, idx) && Step(f, m, m2, e)
    ensures Kept(f, m1, m2, idx + [e])
  {
    hide Pointer;
    forall k, i | 0 <= k < |m1.dir| && 0 <= i < Pointers(f) && Live(m1.dir[k]) && Pointer(f, m1.dir[k], i) != 0
      ensures Pointer(f, m1.dir[k], i) <= Dsm(f)
              && m2.blocks[Pointer(f, m1.dir[k], i)] == m1.blocks[Pointer(f, m1.dir[k], i)]
    {
      assert k !in idx && m.dir[k] == m1.dir[k];
    }
  }

  lemma NextHolds(f: Format, m: Image, m2: Image, name: Name, idx: seq<nat>, e: nat, recs: seq<Record>)
    requires Sized(f, m) && HoldsParts(f, m, name, idx, recs) && Step(f, m, m2, e)
             && HoldsPart(f, m2, name, e, |idx|, recs)
    requires exists o :: Good(f, m, o)
    ensures HoldsParts(f, m2, name, idx + [e], recs)
  {
    hide Contents, Group, Records, Part, Pointer, HoldsPart, NameEq;
    var o :| Good(f, m, o);
    var idx1 := idx + [e];
    forall j | 0 <= j < |idx1| ensures HoldsPart(f, m2, name, idx1[j], j, recs) {
      if j < |idx| {
        PartHeld(f, m, name, idx, recs, j);
        PartLive(f, m, name, idx[j], j, recs);
        PartKept(f, m, m2, name, e, idx[j], j, recs);
      }
    }
  }

  lemma PartLive(f: Format, m: Image, name: Name, e: nat, j: nat, recs: seq<Record>)
    requires Sized(f, m) && HoldsPart(f, m, name, e, j, recs)
    ensures e < |m.dir| && Live(m.dir[e])
  {
  }

  lemma NamesDiffer(d: Entry, a: Name, b: Name)
    requires NameEq(d, a) && NameEq(d, b)
    ensures a == b
  {
  }

  /** Every entry of any user, but for user 0's entries of the name, is byte for byte as it was, and so is every block
      it points at. */
  ghost predicate Unharmed(f: Format, m0: Image, m: Image, name: Name)
    requires Sized(f, m0) && Sized(f, m)
  {
    forall e :: 0 <= e < |m0.dir| && m0.dir[e][0] <= 15 && !Names(m0.dir[e], name) ==>
      && m.dir[e] == m0.dir[e]
      && forall b :: 0 < b <= Dsm(f) && Mentions(f, m0.dir[e], b) ==> m.blocks[b] == m0.blocks[b]
  }

  lemma NoHarm(f: Format, m0: Image, owner: seq<Owner>, m1: Image, m: Image, name: Name, idx: seq<nat>)
    requires Good(f, m0, owner) && m1 == Delete(f, m0, name, 0) && Kept(f, m1, m, idx)
    ensures Unharmed(f, m0, m, name)
  {
    hide Delete, Placed, Mapped, Pointer, Filled, Mentions, NameEq;
    var o := DeleteKeeps(f, m0, owner, name, 0);
    forall e | 0 <= e < |m0.dir| && m0.dir[e][0] <= 15 && !Names(m0.dir[e], name)
      ensures m.dir[e] == m0.dir[e]
      ensures forall b :: 0 < b <= Dsm(f) && Mentions(f, m0.dir[e], b) ==> m.blocks[b] == m0.blocks[b]
    {
      NamesIs(m0.dir[e], name);
      assert m1.dir[e] == m0.dir[e] && Live(m1.dir[e]);
      forall b | 0 < b <= Dsm(f) && Mentions(f, m0.dir[e], b) ensures m.blocks[b] == m0.blocks[b] {
        MentionsIs(f, m0.dir[e], b);
      }
    }
  }

  lemma NamesIs(d: Entry, name: Name)
    ensures Names(d, name) <==> IsOf(d, name)
  {
  }

  /** No entry and no block of another file changed. */
  lemma OtherSame(f: Format, m0: Image, owner: seq<Owner>, m1: Image, m: Image, name: Name, other: Name,
                  idx: seq<nat>, recs: seq<Record>)
    requires Good(f, m0, owner) && m1 == Delete(f, m0, name, 0) && Kept(f, m1, m, idx)
             && HoldsParts(f, m, Masked(name), idx, recs) && other != Masked(name)
    ensures SameFile(f, m0, m, other)
  {
    hide Delete, Placed, Mapped, Pointer, NameEq, Contents, Part, Records, Group, Masked;
    var o := DeleteKeeps(f, m0, owner, name, 0);
    forall e | 0 <= e < |m0.dir| && (IsOf(m0.dir[e], other) || IsOf(m.dir[e], other))
      ensures m.dir[e] == m0.dir[e] && m1.dir[e] == m0.dir[e]
    {
      OtherEntry(f, m0, m1, m, name, other, idx, recs, e);
    }
  }

  lemma OtherEntry(f: Format, m0: Image, m1: Image, m: Image, name: Name, other: Name, idx: seq<nat>,
                   recs: seq<Record>, e: nat)
    requires Sized(f, m0) && Kept(f, m1, m, idx) && HoldsParts(f, m, Masked(name), idx, recs) && other != Masked(name)
             && e < |m0.dir|
    requires if IsOf(m0.dir[e], name) then m1.dir[e] == m0.dir[e][0 := DELETED] else m1.dir[e] == m0.dir[e]
    requires IsOf(m0.dir[e], other) || IsOf(m.dir[e], other)
    ensures m.dir[e] == m0.dir[e] && m1.dir[e] == m0.dir[e]
  {
    hide Pointer, NameEq, Contents, Part, Records, Group, Masked;
    MaskedIs(name);
    if NameEq(m0.dir[e], other) && NameEq(m0.dir[e], name) {
      NamesDiffer(m0.dir[e], other, name);
      OnlySevenBit(m0.dir[e], name);
    }
    if e in idx {
      var j :| 0 <= j < |idx| && idx[j] == e;
      assert HoldsPart(f, m, Masked(name), idx[j], j, recs);
      if NameEq(m.dir[e], other) {
        NamesDiffer(m.dir[e], other, Masked(name));
      }
    }
  }

  /** The blocks hold the records; all others are as they were. */
  ghost predicate Written(f: Format, blocks: seq<seq<Record>>, blocks1: seq<seq<Record>>, recs: seq<Record>,
                          ptrs: seq<nat>) {
    |blocks| == |blocks1| == Dsm(f) + 1
    && (forall i :: 0 <= i < |ptrs| ==> ptrs[i] <= Dsm(f) && blocks1[ptrs[i]] == BlockOf(f, recs, i))
    && forall b :: 0 <= b <= Dsm(f) && b !in ptrs ==> blocks1[b] == blocks[b]
  }

  /** Marked once the loop has seen the entries before `e`, and the first `i` pointers of entry `e`. */
  predicate Marked(o: Owner, e: nat, i: nat) { o == Directory
                   || (o.At? && (o.entry < e || (o.entry == e && o.slot < i))) }

  lemma OwnerSize(f: Format, dir: seq<Entry>, owner: seq<Owner>)
    requires Owned(f, dir, owner)
    ensures |owner| == Dsm(f) + 1
  {
  }

  lemma DirectoryFirst(f: Format, dir: seq<Entry>, owner: seq<Owner>)
    requires Placed(f, dir, owner)
    ensures forall k :: 0 <= k < |owner| ==> (k < DirBlocks(f) <==> Marked(owner[k], 0, 0))
  {
    hide Pointer;
    forall k | 0 <= k < |owner| ensures k < DirBlocks(f) <==> Marked(owner[k], 0, 0) {
      assert InPlace(f, dir, owner[k], k);
    }
  }

  /** Passing pointer `i` of entry `e` marks exactly the block that says so. */
  lemma PointerOwner(f: Format, dir: seq<Entry>, owner: seq<Owner>, e: nat, i: nat)
    requires Owned(f, dir, owner) && Placed(f, dir, owner) && e < |dir| && Live(dir[e]) && i < Pointers(f)
    ensures var p := Pointer(f, dir[e], i);
            forall k :: 0 <= k <= Dsm(f) ==>
                (Marked(owner[k], e, i + 1) <==> Marked(owner[k], e, i) || (p != 0 && p <= Dsm(f) && k == p))
  {
    hide Pointer;
    var p := Pointer(f, dir[e], i);
    forall k | 0 <= k <= Dsm(f)
        ensures Marked(owner[k], e, i + 1) <==> Marked(owner[k], e, i) || (p != 0 && p <= Dsm(f) && k == p) {
      assert InPlace(f, dir, owner[k], k);
    }
  }

  lemma EntryDone(f: Format, dir: seq<Entry>, owner: seq<Owner>, e: nat)
    requires |owner| == Dsm(f) + 1 && Placed(f, dir, owner) && e < |dir|
    ensures forall k :: 0 <= k <= Dsm(f) ==>
            (Marked(owner[k], e + 1, 0) <==> Marked(owner[k], e, if Live(dir[e]) then Pointers(f) else 0))
  {
    hide Pointer;
    forall k | 0 <= k <= Dsm(f)
        ensures Marked(owner[k], e + 1, 0) <==> Marked(owner[k], e, if Live(dir[e]) then Pointers(f) else 0) {
      assert InPlace(f, dir, owner[k], k);
    }
  }

  lemma AllMarked(f: Format, dir: seq<Entry>, owner: seq<Owner>)
    requires |owner| == Dsm(f) + 1 && Placed(f, dir, owner)
    ensures forall k :: 0 <= k <= Dsm(f) ==> (Marked(owner[k], |dir|, 0) <==> owner[k] != Nobody)
  {
    hide Pointer;
    forall k | 0 <= k <= Dsm(f) ensures Marked(owner[k], |dir|, 0) <==> owner[k] != Nobody {
      assert InPlace(f, dir, owner[k], k);
    }
  }
}
