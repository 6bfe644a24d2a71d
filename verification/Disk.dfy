/** CP/M disk images (tools/mkdsk.c): directory entries, block allocation, adding, deleting and extracting files. */
module Disk {

  type Byte = x: int | 0 <= x < 256

  const RECORD: nat := 128

  /** 128 bytes of a file. */
  type Record = r: seq<Byte> | |r| == RECORD witness seq(128, _ => 0)

  /** A directory entry as it is stored: user, name, extent, record count, block pointers. */
  type Entry = d: seq<Byte> | |d| == 32 witness seq(32, _ => 0)

  /** 11 bytes, space padded. */
  type Name = n: seq<Byte> | |n| == 11 witness seq(11, _ => 0)

  const DELETED: Byte := 0xE5

  datatype Format = FD | HD

  function Size(f: Format): nat { if f.FD? then 409600 else 8388608 }
  function BlockSize(f: Format): nat { if f.FD? then 2048 else 4096 }
  function Dsm(f: Format): nat { if f.FD? then 194 else 2043 }
  function Drm(f: Format): nat { if f.FD? then 63 else 1023 }
  function SystemBytes(f: Format): nat { 2 * (if f.FD? then 40 else 64) * RECORD }

  function DirBlocks(f: Format): nat { ((Drm(f) + 1) * 32 + BlockSize(f) - 1) / BlockSize(f) }

  /** Block pointers per entry: 16 of 8 bits, or 8 of 16 bits. */
  function Pointers(f: Format): nat { if Dsm(f) < 256 then 16 else 8 }

  /** Records per block. */
  function PerBlock(f: Format): nat { BlockSize(f) / RECORD }

  /** The directory fits its blocks, the blocks fit the image, and an entry's blocks hold its 256 records. */
  lemma Geometry(f: Format)
    ensures 1 <= DirBlocks(f) <= Dsm(f) && (Drm(f) + 1) * 32 <= DirBlocks(f) * BlockSize(f)
    ensures SystemBytes(f) + (Dsm(f) + 1) * BlockSize(f) <= Size(f)
    ensures Pointers(f) * PerBlock(f) == 256 && PerBlock(f) * RECORD == BlockSize(f) && PerBlock(f) > 0
  {
  }

  /** The numbers of the two formats: 400K floppies with 195 blocks of 2K and 64 entries of 16 pointers, 8 MB disks with
      2044 blocks of 4K and 1024 entries of 8 pointers. */
  lemma Numbers()
    ensures Size(FD) == 10240 + 195 * 2048 && SystemBytes(FD) == 10240 && Dsm(FD) == 194 && Drm(FD) == 63
            && DirBlocks(FD) == 1
    ensures Size(HD) == 16384 + 2044 * 4096 && SystemBytes(HD) == 16384 && Dsm(HD) == 2043 && Drm(HD) == 1023
            && DirBlocks(HD) == 8
    ensures Pointers(FD) == 16 && Pointers(HD) == 8 && PerBlock(FD) == 16 && PerBlock(HD) == 32
  {
  }

  // ---- what the bytes of an entry mean ----

  /** Block pointers as the two formats store them: bytes, or little-endian words, from byte 16 on. */
  function FdPointer(d: Entry, i: int): int
    requires 0 <= i < 16
  {
    d[16 + i] as int
  }

  function HdPointer(d: Entry, i: int): int
    requires 0 <= i < 8
  {
    (d[16 + 2 * i] as int) + 256 * (d[17 + 2 * i] as int)
  }

  /** One of the entry's block pointers is `b`. */
  ghost predicate Mentions(f: Format, d: Entry, b: nat) {
    if f == FD then exists i :: 0 <= i < 16 && FdPointer(d, i) == b
    else exists i :: 0 <= i < 8 && HdPointer(d, i) == b
  }

  /** An entry of user 0 with this name, attribute bits aside. */
  predicate Names(d: Entry, name: Name) { d[0] == 0 && forall k :: 0 <= k < 11 ==> d[1 + k] % 128 == name[k] }

  // ---- reading an entry ----

  /** Entries of users 0 to 15 own blocks. */
  predicate Live(d: Entry) { d[0] <= 15 }

  /** The logical extent: the last one in the entry. */
  function Ext(d: Entry): nat { d[12] % 32 + 32 * (d[14] as int) }

  /** Extent without the bit that EXM = 1 masks: which entry of its file this is, times two. */
  function Group(d: Entry): nat { Ext(d) - Ext(d) % 2 }

  function Records(d: Entry): nat { (Ext(d) % 2) * 128 + d[15] }

  function Pointer(f: Format, d: Entry, i: nat): nat
    requires i < Pointers(f)
  {
    if f.FD? then d[16 + i] else d[16 + 2 * i] + 256 * (d[17 + 2 * i] as int)
  }

  /** name_eq: attribute bits of the stored name are ignored. */
  predicate NameEq(d: Entry, name: Name) { forall i :: 0 <= i < 11 ==> d[1 + i] % 128 == name[i] }

  /** An entry of the file `name`, user 0. */
  predicate IsOf(d: Entry, name: Name) { d[0] == 0 && NameEq(d, name) }

  // ---- images ----

  /** Directory, blocks as records, and the allocation map. */
  datatype Image = Image(dir: seq<Entry>, blocks: seq<seq<Record>>, alloc: seq<bool>)

  /** Who a block belongs to. */
  datatype Owner = Nobody | Directory | At(entry: nat, slot: nat)

  ghost predicate Sized(f: Format, m: Image) {
    |m.dir| == Drm(f) + 1 && |m.blocks| == Dsm(f) + 1 == |m.alloc| && forall b :: 0 <= b <= Dsm(f) ==>
        |m.blocks[b]| == PerBlock(f)
  }

  /** Each pointer of a live entry is 0 or a data block that knows it. */
  ghost predicate Owned(f: Format, dir: seq<Entry>, owner: seq<Owner>) {
    |owner| == Dsm(f) + 1
    && forall e, i :: 0 <= e < |dir| && 0 <= i < Pointers(f) && Live(dir[e]) && Pointer(f, dir[e], i) != 0 ==>
         Pointer(f, dir[e], i) <= Dsm(f) && owner[Pointer(f, dir[e], i)] == At(e, i)
  }

  /** Where a block says it is, it is. */
  predicate InPlace(f: Format, dir: seq<Entry>, o: Owner, b: nat) {
    match o
    case Nobody => b >= DirBlocks(f)
    case Directory => b < DirBlocks(f)
    case At(e, i) => b >= DirBlocks(f) && e < |dir| && i < Pointers(f) && Live(dir[e]) && Pointer(f, dir[e], i) == b
  }

  ghost predicate Placed(f: Format, dir: seq<Entry>, owner: seq<Owner>) {
    forall b :: 0 <= b < |owner| ==> InPlace(f, dir, owner[b], b)
  }

  /** The allocation map is exactly directory blocks plus live pointers. */
  ghost predicate Mapped(alloc: seq<bool>, owner: seq<Owner>) {
    |alloc| == |owner| && forall b :: 0 <= b < |owner| ==> (alloc[b] <==> owner[b] != Nobody)
  }

  /** Live entries hold at most 256 records and point at a block for each of them. */
  ghost predicate Filled(f: Format, d: Entry) {
    Records(d) <= 256 && forall i :: 0 <= i < Pointers(f) && i * PerBlock(f) < Records(d) ==> Pointer(f, d, i) != 0
  }

  /** A well-formed image: no block has two owners, and the map is exact. */
  ghost predicate Good(f: Format, m: Image, owner: seq<Owner>) {
    Sized(f, m) && Owned(f, m.dir, owner) && Placed(f, m.dir, owner) && Mapped(m.alloc, owner)
    && forall e :: 0 <= e < |m.dir| && Live(m.dir[e]) ==> Filled(f, m.dir[e])
  }

  lemma OneOwner(f: Format, m: Image, owner: seq<Owner>, e: nat, i: nat, e1: nat, i1: nat)
    requires Good(f, m, owner) && e < |m.dir| && e1 < |m.dir| && i < Pointers(f) && i1 < Pointers(f) && Live(m.dir[e])
             && Live(m.dir[e1])
    requires Pointer(f, m.dir[e], i) == Pointer(f, m.dir[e1], i1) != 0
    ensures e == e1 && i == i1
  {
  }

  lemma MentionsIs(f: Format, d: Entry, b: nat)
    ensures Mentions(f, d, b) <==> exists i :: 0 <= i < Pointers(f) && Pointer(f, d, i) == b
  {
    if Mentions(f, d, b) {
      if f == FD {
        var i :| 0 <= i < 16 && FdPointer(d, i) == b;
        assert Pointer(f, d, i) == b;
      } else {
        var i :| 0 <= i < 8 && HdPointer(d, i) == b;
        assert Pointer(f, d, i) == b;
      }
    }
    if exists i :: 0 <= i < Pointers(f) && Pointer(f, d, i) == b {
      var i :| 0 <= i < Pointers(f) && Pointer(f, d, i) == b;
      if f == FD {
        assert FdPointer(d, i) == b;
      } else {
        assert HdPointer(d, i) == b;
      }
    }
  }

  /** The allocation map by the bytes of the directory: a block is taken exactly when it holds directory entries or an
      entry of a user from 0 to 15 points at it. */
  ghost predicate MapExact(f: Format, m: Image)
    requires |m.alloc| == Dsm(f) + 1
  {
    forall b :: 0 <= b <= Dsm(f) ==>
      (m.alloc[b] <==>
         b < (if f == FD then 1 else 8)
             || (b != 0 && exists e :: 0 <= e < |m.dir| && m.dir[e][0] <= 15 && Mentions(f, m.dir[e], b)))
  }

  lemma MapIs(f: Format, m: Image, owner: seq<Owner>)
    requires Good(f, m, owner)
    ensures MapExact(f, m)
  {
    hide Pointer, Mentions, Filled;
    Numbers();
    forall b | 0 <= b <= Dsm(f)
      ensures m.alloc[b] <==>
                b < DirBlocks(f)
                || (b != 0 && exists e :: 0 <= e < |m.dir| && m.dir[e][0] <= 15 && Mentions(f, m.dir[e], b))
    {
      assert InPlace(f, m.dir, owner[b], b);
      if owner[b].At? {
        MentionsIs(f, m.dir[owner[b].entry], b);
      } else if b != 0 && owner[b] == Nobody {
        forall e | 0 <= e < |m.dir| && m.dir[e][0] <= 15 ensures !Mentions(f, m.dir[e], b) {
          MentionsIs(f, m.dir[e], b);
        }
      }
    }
  }

  // ---- extracting ----

  /** First entry of the file with this group, from `e` on; the number of entries if there is none. */
  function Find(dir: seq<Entry>, name: Name, x: nat, e: nat): (r: nat)
    requires e <= |dir|
    ensures e <= r <= |dir| && (r < |dir| ==> IsOf(dir[r], name) && Group(dir[r]) == x)
    ensures forall k :: e <= k < r ==> !(IsOf(dir[k], name) && Group(dir[k]) == x)
    decreases |dir| - e
  {
    if e == |dir| || (IsOf(dir[e], name) && Group(dir[e]) == x) then e else Find(dir, name, x, e + 1)
  }

  /** Record `r` of an entry. */
  function RecordAt(f: Format, blocks: seq<seq<Record>>, d: Entry, r: nat): Record
    requires |blocks| == Dsm(f) + 1 && (forall b :: 0 <= b <= Dsm(f) ==> |blocks[b]| == PerBlock(f)) && r < 256
  {
    Geometry(f);
    var b := Pointer(f, d, r / PerBlock(f));
    if b <= Dsm(f) then blocks[b][r % PerBlock(f)] else seq(RECORD, _ => 0)
  }

  /** The records of an entry. */
  function Contents(f: Format, m: Image, d: Entry): (s: seq<Record>)
    requires Sized(f, m)
  {
    if Records(d) > 256 then [] else
      seq(Records(d), r requires 0 <= r < Records(d) => RecordAt(f, m.blocks, d, r))
  }

  /** extract: the entries of the file in extent order, until one is missing or not full. */
  function Extract(f: Format, m: Image, name: Name, x: nat): seq<Record>
    requires Sized(f, m) && x <= 8192
    decreases 8192 - x
  {
    var e := Find(m.dir, name, x, 0);
    if e == |m.dir| || x == 8192 then []
    else if Records(m.dir[e]) < 256 then Contents(f, m, m.dir[e])
    else Contents(f, m, m.dir[e]) + (if x + 2 <= 8192 then Extract(f, m, name, x + 2) else [])
  }

  // ---- what changes and what does not ----

  /** Nothing about the file `name` changed: its entries are the same ones, and so are the blocks they point at. */
  ghost predicate SameFile(f: Format, m: Image, m1: Image, name: Name)
    requires Sized(f, m) && Sized(f, m1)
  {
    (forall e :: 0 <= e < |m.dir| && (IsOf(m.dir[e], name) || IsOf(m1.dir[e], name)) ==> m1.dir[e] == m.dir[e])
    && forall e, i ::
         && 0 <= e < |m.dir| && IsOf(m.dir[e], name) && 0 <= i < Pointers(f)
         && i * PerBlock(f) < Records(m.dir[e])
         ==> Pointer(f, m.dir[e], i) <= Dsm(f)
             && m1.blocks[Pointer(f, m.dir[e], i)] == m.blocks[Pointer(f, m.dir[e], i)]
  }

  lemma {:induction false} FindSame(dir: seq<Entry>, dir1: seq<Entry>, name: Name, x: nat, e: nat)
    requires |dir1| == |dir| && e <= |dir|
    requires forall k :: 0 <= k < |dir| && (IsOf(dir[k], name) || IsOf(dir1[k], name)) ==> dir1[k] == dir[k]
    ensures Find(dir1, name, x, e) == Find(dir, name, x, e)
    decreases |dir| - e
  {
    hide IsOf;
    if e < |dir| && !(IsOf(dir[e], name) && Group(dir[e]) == x) {
      FindSame(dir, dir1, name, x, e + 1);
    }
  }

  lemma SlotOf(f: Format, r: nat, n: nat)
    requires r < n <= 256
    ensures r / PerBlock(f) < Pointers(f) && (r / PerBlock(f)) * PerBlock(f) < n && r % PerBlock(f) < PerBlock(f)
  {
  }

  /** Where record `r` of an entry is: sixteen records to a 2K block, thirty-two to a 4K block, in order. */
  lemma ReadsRecord(f: Format, m: Image, d: Entry, r: nat)
    requires Sized(f, m) && r < Records(d) <= 256
    ensures f == FD && FdPointer(d, r / 16) <= 194 ==> Contents(f, m, d)[r] == m.blocks[FdPointer(d, r / 16)][r % 16]
    ensures f == HD && HdPointer(d, r / 32) <= 2043 ==> Contents(f, m, d)[r] == m.blocks[HdPointer(d, r / 32)][r % 32]
  {
    hide Records;
    Numbers();
  }

  lemma ContentsSame(f: Format, m: Image, m1: Image, name: Name, e: nat)
    requires Sized(f, m) && Sized(f, m1) && SameFile(f, m, m1, name) && e < |m.dir| && IsOf(m.dir[e], name)
    ensures Contents(f, m1, m.dir[e]) == Contents(f, m, m.dir[e])
  {
    hide IsOf, Pointer, Records;
    var d := m.dir[e];
    if Records(d) <= 256 {
      forall r | 0 <= r < Records(d) ensures RecordAt(f, m1.blocks, d, r) == RecordAt(f, m.blocks, d, r) {
        SlotOf(f, r, Records(d));
      }
    }
  }

  lemma ExtractCons(f: Format, m: Image, name: Name, x: nat)
    requires Sized(f, m) && x <= 8192
    ensures var e := Find(m.dir, name, x, 0);
            Extract(f, m, name, x)
            == if e == |m.dir| || x == 8192 then []
               else if Records(m.dir[e]) < 256 then Contents(f, m, m.dir[e])
               else Contents(f, m, m.dir[e]) + (if x + 2 <= 8192 then Extract(f, m, name, x + 2) else [])
  {
    hide Contents, Records;
  }

  lemma FindMatch(dir: seq<Entry>, name: Name, x: nat)
    ensures Find(dir, name, x, 0) < |dir| ==> IsOf(dir[Find(dir, name, x, 0)], name)
  {
  }

  lemma SameEntries(f: Format, m: Image, m1: Image, name: Name)
    requires Sized(f, m) && Sized(f, m1) && SameFile(f, m, m1, name)
    ensures forall k :: 0 <= k < |m.dir| && (IsOf(m.dir[k], name) || IsOf(m1.dir[k], name)) ==> m1.dir[k] == m.dir[k]
  {
    hide IsOf;
  }

  /** A file whose entries and blocks are untouched extracts to the same bytes. */
  lemma {:induction false} ExtractSame(f: Format, m: Image, m1: Image, name: Name, x: nat)
    requires Sized(f, m) && Sized(f, m1) && SameFile(f, m, m1, name) && x <= 8192
    ensures Extract(f, m1, name, x) == Extract(f, m, name, x)
    decreases 8192 - x
  {
    hide IsOf, Contents, Records, SameFile, Find, Extract;
    ExtractCons(f, m, name, x);
    ExtractCons(f, m1, name, x);
    FindMatch(m.dir, name, x);
    assert forall k :: 0 <= k < |m.dir| && (IsOf(m.dir[k], name) || IsOf(m1.dir[k], name)) ==>
        m1.dir[k] == m.dir[k] by {
      SameEntries(f, m, m1, name);
    }
    FindSame(m.dir, m1.dir, name, x, 0);
    var e := Find(m.dir, name, x, 0);
    if e < |m.dir| {
      ContentsSame(f, m, m1, name, e);
      if x + 2 <= 8192 {
        ExtractSame(f, m, m1, name, x + 2);
      }
    }
  }

  // ---- deleting ----

  /** Clear the map for the pointers [i, Pointers) of an entry. */
  function Release(f: Format, d: Entry, alloc: seq<bool>, i: nat): (r: seq<bool>)
    requires i <= Pointers(f) && |alloc| == Dsm(f) + 1
    ensures |r| == |alloc|
    decreases Pointers(f) - i
  {
    if i == Pointers(f) then alloc
    else
      var b := Pointer(f, d, i);
      Release(f, d, if b != 0 && b <= Dsm(f) then alloc[b := false] else alloc, i + 1)
  }

  /** The entry's blocks go back to nobody. */
  ghost function Disowned(owner: seq<Owner>, e: nat): (r: seq<Owner>)
    ensures |r| == |owner| && forall b :: 0 <= b < |r| ==> r[b] == if owner[b].At? && owner[b].entry == e then Nobody
            else owner[b]
  {
    seq(|owner|, b requires 0 <= b < |owner| => if owner[b].At? && owner[b].entry == e then Nobody else owner[b])
  }

  lemma {:induction false} ReleaseMaps(f: Format, d: Entry, alloc: seq<bool>, i: nat)
    requires i <= Pointers(f) && |alloc| == Dsm(f) + 1
    ensures forall b :: 0 <= b <= Dsm(f) ==>
              (Release(f, d, alloc, i)[b] <==>
                 alloc[b] && !(b != 0 && exists k :: i <= k < Pointers(f) && Pointer(f, d, k) == b))
    decreases Pointers(f) - i
  {
    hide Pointer;
    if i < Pointers(f) {
      var b := Pointer(f, d, i);
      ReleaseMaps(f, d, if b != 0 && b <= Dsm(f) then alloc[b := false] else alloc, i + 1);
    }
  }

  /** Deleting one live entry. */
  function DropEntry(f: Format, m: Image, e: nat): (r: Image)
    requires Sized(f, m) && e < |m.dir|
    ensures Sized(f, r)
  {
    m.(alloc := Release(f, m.dir[e], m.alloc, 0), dir := m.dir[e := m.dir[e][0 := DELETED]])
  }

  lemma DropOwned(f: Format, dir: seq<Entry>, owner: seq<Owner>, e: nat)
    requires Owned(f, dir, owner) && e < |dir|
    ensures Owned(f, dir[e := dir[e][0 := DELETED]], Disowned(owner, e))
  {
    hide Pointer;
  }

  lemma DropPlaced(f: Format, dir: seq<Entry>, owner: seq<Owner>, e: nat)
    requires Placed(f, dir, owner) && e < |dir|
    ensures Placed(f, dir[e := dir[e][0 := DELETED]], Disowned(owner, e))
  {
    hide Pointer;
    var dir1, o := dir[e := dir[e][0 := DELETED]], Disowned(owner, e);
    forall b | 0 <= b < |o| ensures InPlace(f, dir1, o[b], b) {
      assert InPlace(f, dir, owner[b], b);
    }
  }

  lemma DropMapped(f: Format, m: Image, owner: seq<Owner>, e: nat)
    requires Good(f, m, owner) && e < |m.dir| && Live(m.dir[e])
    ensures Mapped(Release(f, m.dir[e], m.alloc, 0), Disowned(owner, e))
  {
    hide Pointer, Release, Filled;
    var d := m.dir[e];
    ReleaseMaps(f, d, m.alloc, 0);
    var a, o := Release(f, d, m.alloc, 0), Disowned(owner, e);
    forall b | 0 <= b < |o| ensures a[b] <==> o[b] != Nobody {
      assert InPlace(f, m.dir, owner[b], b);
    }
  }

  lemma DropKeeps(f: Format, m: Image, owner: seq<Owner>, e: nat)
    requires Good(f, m, owner) && e < |m.dir| && Live(m.dir[e])
    ensures Good(f, DropEntry(f, m, e), Disowned(owner, e))
  {
    hide Owned, Placed, Mapped, Filled, Release;
    DropOwned(f, m.dir, owner, e);
    DropPlaced(f, m.dir, owner, e);
    DropMapped(f, m, owner, e);
  }

  /** delete_file, from entry `e` on. */
  function Delete(f: Format, m: Image, name: Name, e: nat): (r: Image)
    requires Sized(f, m) && e <= |m.dir|
    ensures Sized(f, r)
    decreases |m.dir| - e
  {
    if e == |m.dir| then m else Delete(f, if IsOf(m.dir[e], name) then DropEntry(f, m, e) else m, name, e + 1)
  }

  /** The file is gone, every other entry and every block is as it was, and the image stays well formed. */
  lemma {:induction false} DeleteKeeps(f: Format, m: Image, owner: seq<Owner>, name: Name, e: nat)
    returns (o: seq<Owner>)
    requires Good(f, m, owner) && e <= |m.dir|
    ensures var r := Delete(f, m, name, e);
            && Good(f, r, o) && r.blocks == m.blocks
            && (forall k :: 0 <= k < e ==> r.dir[k] == m.dir[k])
            && forall k :: e <= k < |m.dir| ==> if IsOf(m.dir[k], name) then r.dir[k] == m.dir[k][0 := DELETED]
               else r.dir[k] == m.dir[k]
    decreases |m.dir| - e
  {
    hide Pointer, NameEq, Owned, Placed, Mapped, Filled, Release;
    if e == |m.dir| {
      o := owner;
    } else if IsOf(m.dir[e], name) {
      DropKeeps(f, m, owner, e);
      o := DeleteKeeps(f, DropEntry(f, m, e), Disowned(owner, e), name, e + 1);
    } else {
      o := DeleteKeeps(f, m, owner, name, e + 1);
    }
  }

  // ---- making an entry ----

  /** Bytes of the block pointers. */
  function PointerBytes(f: Format, ptrs: seq<nat>): (r: seq<Byte>)
    requires |ptrs| <= Pointers(f) && forall i :: 0 <= i < |ptrs| ==> ptrs[i] <= Dsm(f)
    ensures |r| == 16
  {
    if f.FD? then seq(16, i requires 0 <= i < 16 => if i < |ptrs| then ptrs[i] else 0)
    else seq(16, i requires 0 <= i < 16 => if i / 2 < |ptrs|
        then (if i % 2 == 0 then ptrs[i / 2] % 256 else ptrs[i / 2] / 256) else 0)
  }

  /** The k-th entry of a file, holding `n` records in the blocks `ptrs`. */
  function MakeEntry(f: Format, name: Name, k: nat, n: nat, ptrs: seq<nat>): (d: Entry)
    requires n <= 256 && |ptrs| <= Pointers(f) && forall i :: 0 <= i < |ptrs| ==> ptrs[i] <= Dsm(f)
  {
    var ext := 2 * k + (if n > 128 then 1 else 0);
    [0] + name + [ext % 32, 0, (ext / 32) % 256, if n > 128 then n - 128 else n] + PointerBytes(f, ptrs)
  }

  /** What add_file writes: user 0, the name, the last extent in bytes 12 and 14, the records of that extent in byte 15,
      and the block numbers. */
  lemma EntryBytes(f: Format, name: Name, k: nat, n: nat, ptrs: seq<nat>)
    requires n <= 256 && |ptrs| <= Pointers(f) && forall i :: 0 <= i < |ptrs| ==> ptrs[i] <= Dsm(f)
    ensures var d, last := MakeEntry(f, name, k, n, ptrs), if n > 128 then 2 * k + 1 else 2 * k;
            && d[0] == 0 && d[1..12] == name && d[12] == last % 32 && d[13] == 0 && d[14] == last / 32 % 256
            && d[15] == (if n > 128 then n - 128 else n)
  {
    hide PointerBytes;
    EntryTail(f, ptrs);
  }

  lemma EntryTail(f: Format, ptrs: seq<nat>)
    requires |ptrs| <= Pointers(f) && forall i :: 0 <= i < |ptrs| ==> ptrs[i] <= Dsm(f)
    ensures |PointerBytes(f, ptrs)| == 16
  {
  }

  lemma EntryPointers(f: Format, name: Name, k: nat, n: nat, ptrs: seq<nat>, i: nat)
    requires n <= 256 && |ptrs| <= Pointers(f) && forall j :: 0 <= j < |ptrs| ==> ptrs[j] <= Dsm(f)
    ensures var d := MakeEntry(f, name, k, n, ptrs);
            && (f == FD && i < 16 ==> FdPointer(d, i) == if i < |ptrs| then ptrs[i] else 0)
            && (f == HD && i < 8 ==> HdPointer(d, i) == if i < |ptrs| then ptrs[i] else 0)
  {
    var d := MakeEntry(f, name, k, n, ptrs);
    hide PointerBytes;
    EntryTail(f, ptrs);
    assert d[16..] == PointerBytes(f, ptrs);
    hide MakeEntry;
    if i < Pointers(f) {
      ReadPointer(f, ptrs, d, i);
    }
  }

  /** What extract reads: which entry of its file this is, and how many records it holds. */
  lemma EntryReads(d: Entry)
    ensures Group(d) == ((d[12] as int) % 32 + 32 * (d[14] as int)) / 2 * 2
    ensures Records(d) == (if (d[12] as int) % 2 == 1 then 128 else 0) + (d[15] as int)
  {
    var lo, hi := d[12] as int, d[14] as int;
    assert (lo % 32 + 2 * (16 * hi)) % 2 == lo % 32 % 2;
    assert lo % 32 % 2 == lo % 2;
  }

  lemma ExtentBytes(k: nat, odd: bool)
    requires k < 4096
    ensures var ext := 2 * k + (if odd then 1 else 0);
            ext % 32 + 32 * ((ext / 32) % 256) == ext && ext % 2 == (if odd then 1 else 0)
  {
  }

  lemma MadeHeader(f: Format, name: Name, k: nat, n: nat, ptrs: seq<nat>)
    requires n <= 256 && k < 4096 && |ptrs| <= Pointers(f) && forall i :: 0 <= i < |ptrs| ==> ptrs[i] <= Dsm(f)
    ensures var d := MakeEntry(f, name, k, n, ptrs);
            d[0] == 0 && Group(d) == 2 * k && Records(d) == n && d[1..12] == name && d[16..] == PointerBytes(f, ptrs)
  {
    hide PointerBytes;
    var d := MakeEntry(f, name, k, n, ptrs);
    var ext := 2 * k + (if n > 128 then 1 else 0);
    assert d[12] == ext % 32 && d[14] == (ext / 32) % 256 && d[15] == if n > 128 then n - 128 else n;
    ExtentBytes(k, n > 128);
  }

  lemma ReadPointer(f: Format, ptrs: seq<nat>, d: Entry, i: nat)
    requires |ptrs| <= Pointers(f) && (forall k :: 0 <= k < |ptrs| ==> ptrs[k] <= Dsm(f))
             && d[16..] == PointerBytes(f, ptrs) && i < Pointers(f)
    ensures Pointer(f, d, i) == if i < |ptrs| then ptrs[i] else 0
  {
    var p := PointerBytes(f, ptrs);
    if f.FD? {
      assert d[16 + i] == d[16..][i];
    } else {
      assert d[16 + 2 * i] == d[16..][2 * i] && d[17 + 2 * i] == d[16..][2 * i + 1];
      assert (2 * i) / 2 == i && (2 * i + 1) / 2 == i;
    }
  }

  /** Reading back what MakeEntry wrote. */
  lemma MadeEntry(f: Format, name: Name, k: nat, n: nat, ptrs: seq<nat>)
    requires n <= 256 && k < 4096 && |ptrs| <= Pointers(f) && forall i :: 0 <= i < |ptrs| ==> ptrs[i] <= Dsm(f)
    ensures var d := MakeEntry(f, name, k, n, ptrs);
            && d[0] == 0 && Group(d) == 2 * k && Records(d) == n && d[1..12] == name
            && forall i :: 0 <= i < Pointers(f) ==> Pointer(f, d, i) == if i < |ptrs| then ptrs[i] else 0
  {
    hide MakeEntry, PointerBytes, Pointer, Group, Records;
    MadeHeader(f, name, k, n, ptrs);
    var d := MakeEntry(f, name, k, n, ptrs);
    forall i | 0 <= i < Pointers(f) ensures Pointer(f, d, i) == if i < |ptrs| then ptrs[i] else 0 {
      ReadPointer(f, ptrs, d, i);
    }
  }

  predicate SevenBit(name: Name) { forall i :: 0 <= i < 11 ==> name[i] < 128 }

  /** An entry is found under the name it was made with exactly when that name has seven-bit bytes only: the reader
      masks the stored bytes but not the name it looks for. */
  lemma FoundUnlessHighBit(f: Format, name: Name, k: nat, n: nat, ptrs: seq<nat>)
    requires n <= 256 && k < 4096 && |ptrs| <= Pointers(f) && forall i :: 0 <= i < |ptrs| ==> ptrs[i] <= Dsm(f)
    ensures IsOf(MakeEntry(f, name, k, n, ptrs), name) <==> SevenBit(name)
  {
    hide PointerBytes;
    MadeEntry(f, name, k, n, ptrs);
    var d := MakeEntry(f, name, k, n, ptrs);
    forall i | 0 <= i < 11 ensures d[1 + i] == name[i] {
      assert d[1..12][i] == d[1 + i];
    }
    if !SevenBit(name) {
      var i :| 0 <= i < 11 && name[i] >= 128;
      assert d[1 + i] % 128 != name[i];
    }
  }

  /** The name as name_eq sees it in an entry. */
  function Masked(name: Name): (r: Name)
    ensures SevenBit(r) && (SevenBit(name) ==> r == name)
  {
    seq(11, i requires 0 <= i < 11 => name[i] % 128)
  }

  /** Whatever its bytes, the entry is found under the masked name. */
  lemma FoundMasked(f: Format, name: Name, k: nat, n: nat, ptrs: seq<nat>)
    requires n <= 256 && k < 4096 && |ptrs| <= Pointers(f) && forall i :: 0 <= i < |ptrs| ==> ptrs[i] <= Dsm(f)
    ensures IsOf(MakeEntry(f, name, k, n, ptrs), Masked(name))
  {
    hide PointerBytes;
    MadeEntry(f, name, k, n, ptrs);
    var d := MakeEntry(f, name, k, n, ptrs);
    forall i | 0 <= i < 11 ensures d[1 + i] == name[i] {
      assert d[1..12][i] == d[1 + i];
    }
  }

  lemma OnlySevenBit(d: Entry, name: Name)
    requires NameEq(d, name)
    ensures SevenBit(name)
  {
  }

  /** A name with a high bit names no file: there is nothing to delete and nothing to extract. */
  lemma {:induction false} HighBitNamesNothing(f: Format, m: Image, name: Name, e: nat)
    requires Sized(f, m) && !SevenBit(name) && e <= |m.dir|
    ensures Delete(f, m, name, e) == m && Extract(f, m, name, 0) == []
    decreases |m.dir| - e
  {
    hide NameEq, Release, Contents, Group, Records;
    var x := Find(m.dir, name, 0, 0);
    if x < |m.dir| {
      OnlySevenBit(m.dir[x], name);
    }
    if e < |m.dir| {
      if IsOf(m.dir[e], name) {
        OnlySevenBit(m.dir[e], name);
      }
      HighBitNamesNothing(f, m, name, e + 1);
    }
  }

  // ---- a blank image ----

  const BLANK_ENTRY: Entry := seq(32, _ => DELETED)

  /** All 0xE5, as formatted: only the directory's own blocks are taken. */
  ghost function BlankOwner(f: Format): (o: seq<Owner>)
    ensures |o| == Dsm(f) + 1 && forall b :: 0 <= b <= Dsm(f) ==> o[b] == if b < DirBlocks(f) then Directory else Nobody
  {
    seq(Dsm(f) + 1, b => if b < DirBlocks(f) then Directory else Nobody)
  }

  lemma BlankIsGood(f: Format, m: Image)
    requires Sized(f, m) && (forall e :: 0 <= e < |m.dir| ==> m.dir[e] == BLANK_ENTRY)
    requires forall b :: 0 <= b <= Dsm(f) ==> (m.alloc[b] <==> b < DirBlocks(f))
    ensures Good(f, m, BlankOwner(f))
  {
    hide Pointer;
  }

  // ---- adding an entry ----

  /** Blocks handed out for an entry: data blocks that belonged to nobody, each once. */
  ghost predicate FreshBlocks(f: Format, owner: seq<Owner>, ptrs: seq<nat>) {
    |owner| == Dsm(f) + 1 && |ptrs| <= Pointers(f)
    && (forall i :: 0 <= i < |ptrs| ==> ptrs[i] <= Dsm(f) && owner[ptrs[i]] == Nobody)
    && forall i, j :: 0 <= i < j < |ptrs| ==> ptrs[i] != ptrs[j]
  }

  /** The map once they are taken. */
  ghost predicate Taken(alloc: seq<bool>, alloc1: seq<bool>, ptrs: seq<nat>) {
    |alloc1| == |alloc| && forall b :: 0 <= b < |alloc| ==> (alloc1[b] <==> alloc[b] || b in ptrs)
  }

  ghost function SlotIn(ptrs: seq<nat>, b: nat): (i: nat)
    requires b in ptrs
    ensures i < |ptrs| && ptrs[i] == b
  {
    var i :| 0 <= i < |ptrs| && ptrs[i] == b;
    i
  }

  ghost function Owning(owner: seq<Owner>, e: nat, ptrs: seq<nat>): (r: seq<Owner>)
    ensures |r| == |owner| && forall b :: 0 <= b < |r| ==> r[b] == if b in ptrs then At(e, SlotIn(ptrs, b))
            else owner[b]
  {
    seq(|owner|, b requires 0 <= b < |owner| => if b in ptrs then At(e, SlotIn(ptrs, b)) else owner[b])
  }

  /** The entry holds these pointers and no others. */
  ghost predicate Points(f: Format, d: Entry, ptrs: seq<nat>) {
    |ptrs| <= Pointers(f) && forall i :: 0 <= i < Pointers(f) ==> Pointer(f, d, i) == if i < |ptrs| then ptrs[i] else 0
  }

  lemma AddOwned(f: Format, dir: seq<Entry>, owner: seq<Owner>, e: nat, d: Entry, ptrs: seq<nat>)
    requires Owned(f, dir, owner) && e < |dir| && !Live(dir[e]) && Points(f, d, ptrs) && FreshBlocks(f, owner, ptrs)
    ensures Owned(f, dir[e := d], Owning(owner, e, ptrs))
  {
    hide Pointer;
  }

  lemma AddPlaced(f: Format, dir: seq<Entry>, owner: seq<Owner>, e: nat, d: Entry, ptrs: seq<nat>)
    requires Placed(f, dir, owner) && e < |dir| && !Live(dir[e]) && Live(d) && Points(f, d, ptrs)
             && FreshBlocks(f, owner, ptrs)
    ensures Placed(f, dir[e := d], Owning(owner, e, ptrs))
  {
    hide Pointer;
    var dir1, o := dir[e := d], Owning(owner, e, ptrs);
    forall b | 0 <= b < |o| ensures InPlace(f, dir1, o[b], b) {
      assert InPlace(f, dir, owner[b], b);
    }
  }

  lemma AddMapped(f: Format, alloc: seq<bool>, alloc1: seq<bool>, owner: seq<Owner>, e: nat, ptrs: seq<nat>)
    requires Mapped(alloc, owner) && Taken(alloc, alloc1, ptrs) && FreshBlocks(f, owner, ptrs)
    ensures Mapped(alloc1, Owning(owner, e, ptrs))
  {
  }

  lemma AddKeeps(f: Format, m: Image, m1: Image, owner: seq<Owner>, e: nat, d: Entry, ptrs: seq<nat>)
    requires Good(f, m, owner) && e < |m.dir| && !Live(m.dir[e]) && Live(d) && Points(f, d, ptrs)
             && FreshBlocks(f, owner, ptrs)
    requires Sized(f, m1) && m1.dir == m.dir[e := d] && Taken(m.alloc, m1.alloc, ptrs) && Filled(f, d)
    ensures Good(f, m1, Owning(owner, e, ptrs))
  {
    hide Owned, Placed, Mapped, Filled, Points, FreshBlocks, Taken;
    AddOwned(f, m.dir, owner, e, d, ptrs);
    AddPlaced(f, m.dir, owner, e, d, ptrs);
    AddMapped(f, m.alloc, m1.alloc, owner, e, ptrs);
  }

  /** Blocks of other entries are not the ones handed out. */
  lemma OthersUntouched(f: Format, m: Image, blocks1: seq<seq<Record>>, owner: seq<Owner>, ptrs: seq<nat>, e: nat,
                        i: nat)
    requires Good(f, m, owner) && FreshBlocks(f, owner, ptrs) && e < |m.dir| && Live(m.dir[e]) && i < Pointers(f)
             && Pointer(f, m.dir[e], i) != 0
    requires |blocks1| == |m.blocks| && forall b :: 0 <= b < |m.blocks| && b !in ptrs ==> blocks1[b] == m.blocks[b]
    ensures Pointer(f, m.dir[e], i) <= Dsm(f) && blocks1[Pointer(f, m.dir[e], i)] == m.blocks[Pointer(f, m.dir[e], i)]
  {
    hide Pointer;
  }

  // ---- the file as a whole ----

  /** Records [256 * j, 256 * (j + 1)) of a file, or as many as there are. */
  function Part(recs: seq<Record>, j: nat): (p: seq<Record>)
    ensures |p| <= 256
  {
    if 256 * j >= |recs| then [] else if |recs| - 256 * j > 256 then recs[256 * j..256 * j + 256] else recs[256 * j..]
  }

  /** Entries a file takes: at least one. */
  function Parts(recs: seq<Record>): nat { if recs == [] then 1 else (|recs| + 255) / 256 }

  /** The entries at `idx` are the file's first ones, in order, with their records, and it has no others. */
  ghost predicate Holds(f: Format, m: Image, name: Name, idx: seq<nat>, recs: seq<Record>)
    requires Sized(f, m)
  {
    HoldsParts(f, m, name, idx, recs) && forall e :: 0 <= e < |m.dir| && IsOf(m.dir[e], name) ==> e in idx
  }

  ghost predicate HoldsParts(f: Format, m: Image, name: Name, idx: seq<nat>, recs: seq<Record>)
    requires Sized(f, m)
  {
    forall j :: 0 <= j < |idx| ==> HoldsPart(f, m, name, idx[j], j, recs)
  }

  /** No entry of the file is live. */
  ghost predicate NoFile(dir: seq<Entry>, name: Name) { forall e :: 0 <= e < |dir| ==> !IsOf(dir[e], name) }

  ghost predicate HoldsPart(f: Format, m: Image, name: Name, e: nat, j: nat, recs: seq<Record>)
    requires Sized(f, m)
  {
    e < |m.dir| && IsOf(m.dir[e], name) && Group(m.dir[e]) == 2 * j
    && Records(m.dir[e]) == |Part(recs, j)| && Contents(f, m, m.dir[e]) == Part(recs, j)
  }

  lemma FindPart(f: Format, m: Image, name: Name, idx: seq<nat>, recs: seq<Record>, j: nat)
    requires Sized(f, m) && Holds(f, m, name, idx, recs)
    ensures Find(m.dir, name, 2 * j, 0) == if j < |idx| then idx[j] else |m.dir|
  {
    hide IsOf, Contents, Group, Records, HoldsParts, Part;
    if j < |idx| {
      PartHeld(f, m, name, idx, recs, j);
    }
    var e := Find(m.dir, name, 2 * j, 0);
    if e < |m.dir| {
      var i := SlotIn(idx, e);
      PartHeld(f, m, name, idx, recs, i);
    }
  }

  lemma PartsJoin(recs: seq<Record>, j: nat)
    requires 256 * j <= |recs|
    ensures recs[256 * j..] == Part(recs, j) + (if |Part(recs, j)| == 256 then recs[256 * (j + 1)..] else [])
    ensures |Part(recs, j)| < 256 ==> j + 1 >= Parts(recs)
    ensures |Part(recs, j)| == 256 ==> 256 * (j + 1) <= |recs| && (j < Parts(recs))
    ensures 256 * j == |recs| ==> Part(recs, j) == []
  {
  }

  /** Reading the entries back in extent order gives the file's records. */
  lemma {:induction false} ExtractHeld(f: Format, m: Image, name: Name, idx: seq<nat>, recs: seq<Record>, j: nat)
    requires Sized(f, m) && Holds(f, m, name, idx, recs) && |idx| == Parts(recs) && j <= |idx| <= 4096
             && 256 * j <= |recs|
    ensures Extract(f, m, name, 2 * j) == recs[256 * j..]
    decreases |idx| - j
  {
    hide IsOf, Contents, Group, Records, HoldsParts, Part;
    FindPart(f, m, name, idx, recs, j);
    PartsJoin(recs, j);
    if j < |idx| {
      PartHeld(f, m, name, idx, recs, j);
      if |Part(recs, j)| == 256 {
        ExtractHeld(f, m, name, idx, recs, j + 1);
      }
    } else {
      assert 256 * j == |recs|;
    }
  }

  lemma PartHeld(f: Format, m: Image, name: Name, idx: seq<nat>, recs: seq<Record>, j: nat)
    requires Sized(f, m) && HoldsParts(f, m, name, idx, recs) && j < |idx|
    ensures HoldsPart(f, m, name, idx[j], j, recs)
  {
  }
}
