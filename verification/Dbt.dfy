/** The cache, bitmap and link registry as the translator keeps them: arrays updated in place, and linked lists
    threaded through a pool (dbt/block_cache.c, dbt/dbt_flags.c). */
module DbtState {
  import opened Bits
  import opened BlockCache
  import opened LinkPool

  class Dbt {
    const cache: array<Entry>
    const codeBitmap: array<bool>
    const linkHead: array<nat>
    const poolSite: array<Site>
    const poolNext: array<nat>
    var linkUsed: nat
    var linkFree: nat
    var maxBytes: nat
    var lastBytes: nat
    /** The patchable branches of the code buffer that are aimed at a block. */
    var links: map<Site, nat>

    /** The same state as a value, which every method below updates by the matching function. */
    ghost var model: Cache
    ghost var layout: Layout

    ghost function PoolNow(): Pool
      reads this, linkHead, poolSite, poolNext
    {
      Pool(linkHead[..], poolSite[..], poolNext[..], linkUsed, linkFree)
    }

    ghost function Arrays(): set<object> {
      {cache as object, codeBitmap as object, linkHead as object, poolSite as object, poolNext as object}
    }

    ghost predicate Valid()
      reads this, cache, codeBitmap, linkHead, poolSite, poolNext
    {
      Shaped(model) && Tied()
    }

    /** The real fields hold what `model` says. */
    ghost predicate Tied()
      reads this, cache, codeBitmap, linkHead, poolSite, poolNext
    {
      linkHead != poolNext && linkHead.Length == ADDRESSES && poolSite.Length == LINK_POOL_SIZE
          && poolNext.Length == LINK_POOL_SIZE
      && cache[..] == model.entries && codeBitmap[..] == model.bitmap && maxBytes == model.maxBytes
         && lastBytes == model.lastBytes
      && links == model.links && Holds(PoolNow(), layout, model.lists, model.spare)
    }

    constructor ()
      ensures Valid() && model == EmptyCache(0)
      ensures fresh(cache) && fresh(codeBitmap) && fresh(linkHead) && fresh(poolSite) && fresh(poolNext)
    {
      cache := new Entry[ADDRESSES](_ => Empty);
      codeBitmap := new bool[ADDRESSES](_ => false);
      linkHead := new nat[ADDRESSES](_ => LINK_NONE);
      poolSite := new Site[LINK_POOL_SIZE](_ => Site(0, 0));
      poolNext := new nat[LINK_POOL_SIZE](_ => LINK_NONE);
      linkUsed, linkFree, maxBytes, lastBytes, links := 0, LINK_NONE, 0, 0, map[];
      model := EmptyCache(0);
      layout := Layout(seq(ADDRESSES, _ => []), [], []);
      new;
      EmptyHolds(linkHead[..], poolSite[..], poolNext[..]);
      assert cache[..] == model.entries;
      assert codeBitmap[..] == model.bitmap;
    }

    /** dbt_link_record. */
    method LinkRecord(pc: Addr, site: Site) returns (ok: bool)
      requires Valid()
      modifies this`linkUsed, this`linkFree, this`model, this`layout, linkHead, poolSite, poolNext
      ensures Valid() && (model, ok) == Record(old(model), pc, site)
    {
      hide Headed, EachInPlace, Threaded, SitesOf;
      ghost var q := PoolNow();
      RecordHolds(q, layout, model.lists, model.spare, pc, site);
      var i;
      if linkFree != LINK_NONE {
        i := linkFree;
        FreeIndex(q, layout);
        linkFree := poolNext[i];
      } else if linkUsed < LINK_POOL_SIZE {
        i := linkUsed;
        linkUsed := linkUsed + 1;
      } else {
        return false;
      }
      layout := RecordLayout(q, layout, pc);
      model := Record(model, pc, site).0;
      poolSite[i] := site;
      poolNext[i] := linkHead[pc];
      linkHead[pc] := i;
      assert PoolNow() == RecordIn(q, pc, site);
      ok := true;
    }

    /** dbt_links_repatch.  With code, every recorded site is aimed at it; without, every one is aimed at its
        probe and its record freed. */
    method LinksRepatch(pc: Addr, code: Option<nat>)
      requires Valid()
      modifies this`linkFree, this`links, this`model, this`layout, linkHead, poolNext
      ensures Valid() && model == Repatch(old(model), pc, code)
    {
      match code
      case Some(native) => PatchList(pc, native);
      case None => FreeList(pc);
    }

    method PatchList(pc: Addr, native: nat)
      requires Valid()
      modifies this`links, this`model
      ensures Valid() && model == Repatch(old(model), pc, Some(native))
    {
      hide Headed, EachInPlace, Threaded, SitesOf;
      ghost var q := PoolNow();
      HeadIs(q, layout, model.lists, model.spare, pc);
      ghost var sites, stack := model.lists[pc], layout.stacks[pc];
      ghost var d: nat := |stack|;
      assert stack[..d] == stack;
      var i := linkHead[pc];
      while i != LINK_NONE
        invariant d <= |stack| && i == Top(stack[..d]) && (i == LINK_NONE <==> d == 0)
        invariant links == AimedAt(old(links), sites[d..], native)
        invariant PoolNow() == q && model == old(model)
        decreases d
      {
        StackStep(q, layout, model.lists, model.spare, pc, d);
        AimOne(old(links), sites, d - 1, native);
        links := links[poolSite[i] := native];
        i := poolNext[i];
        d := d - 1;
      }
      assert sites[0..] == sites;
      model := model.(links := links);
    }

    method FreeList(pc: Addr)
      requires Valid()
      modifies this`linkFree, this`links, this`model, this`layout, linkHead, poolNext
      ensures Valid() && model == Repatch(old(model), pc, None)
    {
      hide Headed, EachInPlace, Threaded, SitesOf, Unlinked, Cut, PoolOk;
      ghost var c := model;
      ghost var d: nat := |c.lists[pc]|;
      var i := linkHead[pc];
      NothingFreed(c, pc);
      assert linkHead[..][pc := i] == linkHead[..];
      while i != LINK_NONE
        invariant Unlinked(c, PoolNow().(head := linkHead[..][pc := i]), layout, pc, d) && links == Cut(c, pc, d)
        invariant linkHead[..] == old(linkHead[..]) && model == c
        decreases d
      {
        ghost var q := PoolNow().(head := linkHead[..][pc := i]);
        FreeOne(c, q, layout, pc, d);
        layout := UnlinkLayout(q, layout, pc);
        var next := poolNext[i];
        links := links - {poolSite[i]};
        poolNext[i] := linkFree;
        linkFree := i;
        i := next;
        d := d - 1;
        assert PoolNow().(head := linkHead[..][pc := i]) == UnlinkIn(q, pc);
      }
      AllFreed(c, PoolNow().(head := linkHead[..][pc := i]), layout, pc, d);
      ghost var head := linkHead[..];
      linkHead[pc] := LINK_NONE;
      assert linkHead[..] == head[pc := LINK_NONE];
      model := Repatch(model, pc, None);
    }

    /** dbt_cache_lookup: the slot, unless it is empty. */
    method CacheLookup(pc: Addr) returns (e: Entry)
      requires Valid()
      ensures e == model.entries[pc]
    {
      assert cache[..][pc] == model.entries[pc];
      e := cache[pc];
    }

    /** The byte of the code bitmap that an emitted store looks at. */
    method IsMarked(addr: Addr) returns (marked: bool)
      requires Valid()
      ensures marked == model.bitmap[addr]
    {
      assert codeBitmap[..][addr] == model.bitmap[addr];
      marked := codeBitmap[addr];
    }

    /** Where a patchable branch jumps; none means its own probe. */
    method Target(site: Site) returns (native: Option<nat>)
      requires Valid()
      ensures native == if site in model.links then Some(model.links[site]) else None
    {
      native := if site in links then Some(links[site]) else None;
    }

    /** dbt_cache_insert. */
    method CacheInsert(pc: Addr, code: Option<nat>)
      requires Valid()
      modifies this`linkFree, this`links, this`model, this`layout, cache, linkHead, poolNext
      ensures Valid() && model == Insert(old(model), pc, code)
    {
      hide Holds, Repatch;
      ghost var before := cache[..];
      cache[pc] := match code case Some(native) => Block(lastBytes, native) case None => Refused;
      assert cache[..] == before[pc := cache[pc]];
      model := model.(entries := model.entries[pc := cache[pc]]);
      LinksRepatch(pc, code);
    }

    /** emit_edge: the patchable branch of a static edge. */
    method EmitEdge(pc: Addr, site: Site)
      requires Valid()
      modifies this`linkUsed, this`linkFree, this`links, this`model, this`layout, linkHead, poolSite, poolNext
      ensures Valid() && model == BlockCache.EmitEdge(old(model), pc, site)
    {
      hide Holds;
      var ok := LinkRecord(pc, site);
      assert cache[..][pc] == model.entries[pc];
      if ok && cache[pc].Block? {
        links := links[site := cache[pc].native];
        model := model.(links := links);
      }
    }

    /** dbt_mark_block_bytes. */
    method MarkBlockBytes(start: Addr, end: Addr)
      requires Valid()
      modifies this`maxBytes, this`lastBytes, this`model, codeBitmap
      ensures Valid() && model == MarkBytes(old(model), start, end)
    {
      hide Holds;
      var bytes := Wrap(end - start);
      if bytes > maxBytes {
        maxBytes := bytes;
      }
      lastBytes := bytes;
      var a: int := start;
      while a < end
        invariant start <= a && (a <= end || a == start)
        invariant codeBitmap.Length == ADDRESSES && maxBytes == MarkBytes(old(model), start, end).maxBytes
                  && lastBytes == bytes
        invariant forall x :: 0 <= x < ADDRESSES ==> codeBitmap[x] == (old(codeBitmap[x]) || start <= x < a)
        invariant model == old(model)
      {
        codeBitmap[a] := true;
        a := a + 1;
      }
      model := MarkBytes(model, start, end);
      assert codeBitmap[..] == model.bitmap by {
        forall x | 0 <= x < ADDRESSES ensures codeBitmap[..][x] == model.bitmap[x] {
          assert old(codeBitmap[..])[x] == old(model).bitmap[x];
        }
      }
    }

    /** Empty a slot and unlink the sites aimed at it. */
    method DropSlot(p: Addr)
      requires Valid()
      modifies this`linkFree, this`links, this`model, this`layout, cache, linkHead, poolNext
      ensures Valid() && model == Drop(old(model), p)
    {
      hide Holds, Repatch;
      ghost var before := cache[..];
      cache[p] := Empty;
      assert cache[..] == before[p := Empty];
      model := model.(entries := model.entries[p := Empty]);
      LinksRepatch(p, None);
    }

    /** dbt_invalidate_for_store. */
    method InvalidateStore(addr: Addr)
      requires Valid()
      modifies this`linkFree, this`links, this`model, this`layout, cache, codeBitmap, linkHead, poolNext
      ensures Valid() && model == InvalidateForStore(old(model), addr)
    {
      hide Holds, Drop, Wrap;
      var window := maxBytes;
      var k := 0;
      while k < window
        invariant Valid() && k <= window == maxBytes
                  && DropCovering(model, addr, k) == DropCovering(old(model), addr, 0)
        invariant codeBitmap[..] == old(codeBitmap[..])
      {
        var p := Wrap(addr - k);
        assert cache[..][p] == model.entries[p];
        if SpanPast(cache[p], k) {
          DropSlot(p);
        }
        k := k + 1;
      }
      ghost var before := codeBitmap[..];
      codeBitmap[addr] := false;
      assert codeBitmap[..] == before[addr := false];
      model := model.(bitmap := model.bitmap[addr := false]);
    }

    /** z80_mem_w: the store, and the check every interpreter store makes. */
    method MemW(mem: array<bv8>, addr: Addr, val: bv8)
      requires Valid() && mem.Length == ADDRESSES && mem as object !in Arrays()
      modifies this`linkFree, this`links, this`model, this`layout, cache, codeBitmap, linkHead, poolNext, mem
      ensures Valid() && model == AfterStore(old(model), addr) && mem[..] == old(mem[..])[addr := val]
    {
      hide Holds;
      ghost var before := mem[..];
      mem[addr] := val;
      assert mem[..] == before[addr := val];
      assert codeBitmap[..][addr] == model.bitmap[addr];
      if codeBitmap[addr] {
        InvalidateStore(addr);
      }
    }

    /** smc_sweep_forward: look for a marked byte in the range, then sweep the window once. */
    method SweepForward(lo: Addr, len: nat)
      requires Valid()
      modifies this`linkFree, this`links, this`model, this`layout, cache, linkHead, poolNext
      ensures Valid() && model == Sweep(old(model), lo, len)
    {
      hide Holds, Drop;
      if len == 0 {
        return;
      }
      var any := FindMarked(lo, len);
      if !any {
        return;
      }
      hide Wrap;
      var window := maxBytes;
      var total := len + window;
      var k := 0;
      while k < total
        invariant Valid() && k <= total && window == maxBytes
                  && SweepFrom(model, lo, k, total) == SweepFrom(old(model), lo, 0, total)
      {
        var p := Wrap(lo + k - window + 1);
        assert cache[..][p] == model.entries[p];
        if SpanPast(cache[p], Gap(window, k)) {
          DropSlot(p);
        }
        k := k + 1;
      }
    }

    method FindMarked(lo: Addr, len: nat) returns (any: bool)
      requires Valid()
      ensures any == AnyMarked(model, lo, len)
    {
      hide Holds;
      any := false;
      var i := 0;
      while i < len && !any
        invariant i <= len && any == AnyMarked(model, lo, i)
      {
        var a := Wrap(lo + i);
        assert codeBitmap[..][a] == model.bitmap[a];
        any := codeBitmap[a];
        MarkedUpTo(model, lo, i);
        i := i + 1;
      }
      if any {
        MoreMarked(model, lo, i, len);
      }
    }

    /** z80_mem_host_wrote: the host has stored `len` bytes at `addr` behind the translator's back. */
    method MemHostWrote(addr: Addr, len: nat)
      requires Valid()
      modifies this`linkFree, this`links, this`model, this`layout, cache, codeBitmap, linkHead, poolNext
      ensures Valid() && model == HostWrote(old(model), addr, 0, len)
    {
      hide Holds, Wrap;
      var i := 0;
      while i < len
        invariant Valid() && i <= len && HostWrote(model, addr, i, len) == HostWrote(old(model), addr, 0, len)
      {
        var a := Wrap(addr + i);
        assert codeBitmap[..][a] == model.bitmap[a];
        if codeBitmap[a] {
          InvalidateStore(a);
        }
        i := i + 1;
      }
    }

    /** dbt_cache_invalidate_all. */
    method InvalidateAll()
      requires Valid()
      modifies this`linkUsed, this`linkFree, this`maxBytes, this`links, this`model, this`layout, cache, codeBitmap,
          linkHead
      ensures Valid() && model == EmptyCache(old(model).lastBytes)
    {
      hide Holds;
      ClearSlots();
      ClearBitmap();
      linkUsed, linkFree, maxBytes, links := 0, LINK_NONE, 0, map[];
      model := EmptyCache(lastBytes);
      layout := Layout(seq(ADDRESSES, _ => []), [], []);
      EmptyHolds(linkHead[..], poolSite[..], poolNext[..]);
      assert cache[..] == model.entries;
      assert codeBitmap[..] == model.bitmap;
    }

    method ClearSlots()
      requires cache.Length == ADDRESSES && linkHead.Length == ADDRESSES
      modifies cache, linkHead
      ensures forall p :: 0 <= p < ADDRESSES ==> cache[p] == Empty && linkHead[p] == LINK_NONE
    {
      var i := 0;
      while i < ADDRESSES
        invariant i <= ADDRESSES
        invariant forall p :: 0 <= p < i ==> cache[p] == Empty && linkHead[p] == LINK_NONE
      {
        cache[i] := Empty;
        linkHead[i] := LINK_NONE;
        i := i + 1;
      }
    }

    method ClearBitmap()
      requires codeBitmap.Length == ADDRESSES
      modifies codeBitmap
      ensures forall p :: 0 <= p < ADDRESSES ==> !codeBitmap[p]
    {
      var i := 0;
      while i < ADDRESSES
        invariant i <= ADDRESSES
        invariant forall p :: 0 <= p < i ==> !codeBitmap[p]
      {
        codeBitmap[i] := false;
        i := i + 1;
      }
    }
  }

  /** Positions below `i`, and position `i`. */
  lemma MarkedUpTo(c: Cache, lo: Addr, i: nat)
    requires Shaped(c)
    ensures AnyMarked(c, lo, i + 1) <==> AnyMarked(c, lo, i) || c.bitmap[Wrap(lo + i)]
  {
    if AnyMarked(c, lo, i + 1) {
      var a :| 0 <= a < ADDRESSES && Wrap(a - lo) < i + 1 && c.bitmap[a];
      if Wrap(a - lo) == i {
        assert a == Wrap(lo + i);
      }
    }
    if c.bitmap[Wrap(lo + i)] {
      assert Wrap(Wrap(lo + i) - lo) <= i;
    }
  }

  lemma MoreMarked(c: Cache, lo: Addr, i: nat, len: nat)
    requires Shaped(c) && i <= len && AnyMarked(c, lo, i)
    ensures AnyMarked(c, lo, len)
  {
  }

  /** The links once the sites of `pc` from position `d` up are unlinked. */
  ghost function Cut(c: Cache, pc: Addr, d: nat): map<Site, nat>
    requires Shaped(c) && d <= |c.lists[pc]|
  {
    c.links - Elements(c.lists[pc][d..])
  }

  /** Half-way through freeing the list of `pc`: `d` records are left on it. */
  ghost predicate Unlinked(c: Cache, q: Pool, l: Layout, pc: Addr, d: nat)
    requires Shaped(c)
  {
    d <= |c.lists[pc]| && Holds(q, l, c.lists[pc := c.lists[pc][..d]], c.spare + |c.lists[pc]| - d)
  }

  lemma NothingFreed(c: Cache, pc: Addr)
    requires Shaped(c)
    ensures forall q, l :: Holds(q, l, c.lists, c.spare) ==> Unlinked(c, q, l, pc, |c.lists[pc]|)
    ensures Cut(c, pc, |c.lists[pc]|) == c.links
  {
    var n := |c.lists[pc]|;
    assert c.lists[pc][..n] == c.lists[pc] && c.lists[pc := c.lists[pc]] == c.lists && c.lists[pc][n..] == [];
  }

  lemma FreeOne(c: Cache, q: Pool, l: Layout, pc: Addr, d: nat)
    requires Shaped(c) && Unlinked(c, q, l, pc, d) && q.head[pc] != LINK_NONE
    ensures d > 0 && PoolOk(q, l, LINK_NONE) && l.stacks[pc] != [] && q.head[pc] < LINK_POOL_SIZE
    ensures Unlinked(c, UnlinkIn(q, pc), UnlinkLayout(q, l, pc), pc, d - 1)
    ensures Cut(c, pc, d - 1) == Cut(c, pc, d) - {q.site[q.head[pc]]}
  {
    hide Headed, EachInPlace, Threaded, SitesOf;
    var sites := c.lists[pc];
    var lists1 := c.lists[pc := sites[..d]];
    HeadIs(q, l, lists1, c.spare + |sites| - d, pc);
    UnlinkHolds(q, l, lists1, c.spare + |sites| - d, pc);
    assert sites[d - 1..] == [sites[d - 1]] + sites[d..];
    assert sites[..d][..d - 1] == sites[..d - 1];
    assert lists1[pc := sites[..d - 1]] == c.lists[pc := sites[..d - 1]];
  }

  lemma AllFreed(c: Cache, q: Pool, l: Layout, pc: Addr, d: nat)
    requires Shaped(c) && Unlinked(c, q, l, pc, d) && q.head[pc] == LINK_NONE
    ensures d == 0 && Holds(q, l, c.lists[pc := []], c.spare + |c.lists[pc]|)
    ensures Cut(c, pc, 0) == Repatch(c, pc, None).links
  {
    hide Headed, EachInPlace, Threaded, SitesOf;
    HeadIs(q, l, c.lists[pc := c.lists[pc][..d]], c.spare + |c.lists[pc]| - d, pc);
    assert c.lists[pc][..0] == [] && c.lists[pc][0..] == c.lists[pc];
  }

  function AimedAt(links: map<Site, nat>, sites: seq<Site>, native: nat): map<Site, nat> {
    links + map s | s in Elements(sites) :: native
  }

  lemma AimOne(links: map<Site, nat>, sites: seq<Site>, d: nat, native: nat)
    requires d < |sites|
    ensures AimedAt(links, sites[d..], native) == AimedAt(links, sites[d + 1..], native)[sites[d] := native]
  {
    assert sites[d..] == [sites[d]] + sites[d + 1..];
  }

  lemma FreeIndex(q: Pool, l: Layout)
    requires PoolOk(q, l, LINK_NONE) && q.free != LINK_NONE
    ensures q.free < q.used
  {
    FreeOrNot(q, l);
    TakeFree(q, l);
  }

  lemma HeadIs(q: Pool, l: Layout, lists: seq<seq<Site>>, spare: nat, pc: Addr)
    requires Holds(q, l, lists, spare)
    ensures |lists[pc]| == |l.stacks[pc]| && q.head[pc] == Top(l.stacks[pc])
    ensures q.head[pc] == LINK_NONE <==> lists[pc] == []
  {
    hide EachInPlace;
    assert SitesOf(q, l.stacks[pc], lists[pc]);
    HeadOrNot(q, l, pc);
  }

  /** The record at position d - 1 of a list, and the one its `next` leads to. */
  lemma StackStep(q: Pool, l: Layout, lists: seq<seq<Site>>, spare: nat, pc: Addr, d: nat)
    requires Holds(q, l, lists, spare) && 0 < d <= |l.stacks[pc]|
    ensures Top(l.stacks[pc][..d]) < LINK_POOL_SIZE && |lists[pc]| == |l.stacks[pc]|
    ensures q.site[Top(l.stacks[pc][..d])] == lists[pc][d - 1]
            && q.next[Top(l.stacks[pc][..d])] == Top(l.stacks[pc][..d - 1])
    ensures Top(l.stacks[pc][..d - 1]) == LINK_NONE <==> d == 1
  {
    hide EachInPlace;
    var stack := l.stacks[pc];
    assert SitesOf(q, stack, lists[pc]);
    StackThread(q.next, stack, d);
  }

  lemma StackThread(next: seq<nat>, stack: seq<nat>, d: nat)
    requires Threaded(next, stack) && |next| == LINK_POOL_SIZE && 0 < d <= |stack|
    ensures Top(stack[..d]) == stack[d - 1] < LINK_POOL_SIZE && next[stack[d - 1]] == Top(stack[..d - 1])
    ensures Top(stack[..d - 1]) == LINK_NONE <==> d == 1
  {
    assert stack[..d][d - 1] == stack[d - 1];
    assert next[stack[d - 1]] == Under(stack, d - 1);
    if d > 1 {
      assert stack[..d - 1][d - 2] == stack[d - 2];
    }
  }
}
