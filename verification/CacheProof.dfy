/** What every operation on the cache keeps: links aim at live code only, and a store leaves no block that
    covers it. */
module CacheProof {
  import opened Bits
  import opened BlockCache

  // ---- the link registry ----

  /** No site is recorded twice. */
  ghost predicate DistinctSites(lists: seq<seq<Site>>) {
    forall p, q, i, j ::
      0 <= p < |lists| && 0 <= q < |lists| && 0 <= i < |lists[p]| && 0 <= j < |lists[q]| && lists[p][i] == lists[q][j]
      ==> p == q && i == j
  }

  /** A recorded site jumps to the live code of its target if there is any, and falls through otherwise. */
  ghost predicate Aimed(c: Cache, p: nat)
    requires Shaped(c) && p < ADDRESSES
  {
    forall s <- c.lists[p] ::
      if c.entries[p].Block? then s in c.links && c.links[s] == c.entries[p].native else s !in c.links
  }

  /** Sites that are not recorded fall through. */
  ghost predicate OnlyRecorded(c: Cache) {
    forall s <- c.links :: exists p :: 0 <= p < |c.lists| && s in c.lists[p]
  }

  ghost predicate Linked(c: Cache)
    requires Shaped(c)
  {
    DistinctSites(c.lists) && OnlyRecorded(c) && forall p :: 0 <= p < ADDRESSES ==> Aimed(c, p)
  }

  ghost predicate LinkInv(c: Cache) { Shaped(c) && Linked(c) }

  ghost predicate Unrecorded(c: Cache, s: Site) { forall p :: 0 <= p < |c.lists| ==> s !in c.lists[p] }

  /** No branch reaches an invalidated block: wherever a site jumps, that is the live code of the one address it
      is recorded for. */
  lemma NoStaleLink(c: Cache, s: Site, p: nat)
    requires LinkInv(c) && p < ADDRESSES && s in c.lists[p]
    ensures s in c.links <==> c.entries[p].Block?
    ensures s in c.links ==> c.links[s] == c.entries[p].native
  {
    assert Aimed(c, p);
  }

  lemma EmptyLinkInv(lastBytes: nat)
    ensures LinkInv(EmptyCache(lastBytes))
  {
  }

  lemma OneList(c: Cache, p: nat, q: nat, s: Site)
    requires LinkInv(c) && p < ADDRESSES && q < ADDRESSES && s in c.lists[p] && s in c.lists[q]
    ensures p == q
  {
    var i :| 0 <= i < |c.lists[p]| && c.lists[p][i] == s;
    var j :| 0 <= j < |c.lists[q]| && c.lists[q][j] == s;
  }

  lemma AppendDistinct(lists: seq<seq<Site>>, pc: nat, s: Site)
    requires DistinctSites(lists) && pc < |lists| && forall p :: 0 <= p < |lists| ==> s !in lists[p]
    ensures DistinctSites(lists[pc := lists[pc] + [s]])
  {
  }

  lemma EmitEdgeKeeps(c: Cache, pc: Addr, s: Site)
    requires LinkInv(c) && Unrecorded(c, s)
    ensures LinkInv(EmitEdge(c, pc, s))
    ensures EmitEdge(c, pc, s).entries == c.entries && EmitEdge(c, pc, s).bitmap == c.bitmap
            && EmitEdge(c, pc, s).maxBytes == c.maxBytes
    ensures forall p, t :: 0 <= p < ADDRESSES && t in EmitEdge(c, pc, s).lists[p] ==>
              t in c.lists[p] || (t == s && p == pc)
  {
    var r := EmitEdge(c, pc, s);
    if c.spare > 0 {
      AppendDistinct(c.lists, pc, s);
      forall p | 0 <= p < ADDRESSES ensures Aimed(r, p) { assert Aimed(c, p); }
      forall t <- r.links ensures exists p :: 0 <= p < |r.lists| && t in r.lists[p] {
        if t in c.links {
          var p :| 0 <= p < |c.lists| && t in c.lists[p];
          assert t in r.lists[p];
        } else {
          assert t in r.lists[pc];
        }
      }
    }
  }

  /** Unlinking a list: its sites fall through and are no longer recorded; other lists are untouched. */
  lemma DropKeeps(c: Cache, p: Addr)
    requires LinkInv(c)
    ensures LinkInv(Drop(c, p))
    ensures Drop(c, p).entries == c.entries[p := Empty]
    ensures forall q :: 0 <= q < ADDRESSES ==> Drop(c, p).lists[q] == if q == p then [] else c.lists[q]
  {
    var r := Drop(c, p);
    forall q | 0 <= q < ADDRESSES ensures Aimed(r, q) {
      assert Aimed(c, q);
      if q != p {
        forall s <- c.lists[q] ensures s !in Elements(c.lists[p]) {
          if s in c.lists[p] { OneList(c, p, q, s); }
        }
      }
    }
    forall t <- r.links ensures exists q :: 0 <= q < |r.lists| && t in r.lists[q] {
      var q :| 0 <= q < |c.lists| && t in c.lists[q];
      assert t in r.lists[q];
    }
  }

  lemma InsertKeeps(c: Cache, pc: Addr, code: Option<nat>)
    requires LinkInv(c) && c.entries[pc] == Empty
    ensures LinkInv(Insert(c, pc, code))
    ensures Insert(c, pc, code).entries == c.entries[pc := if code.Some? then Block(c.lastBytes, code.value)
            else Refused]
    ensures Insert(c, pc, code).bitmap == c.bitmap && Insert(c, pc, code).maxBytes == c.maxBytes
    ensures forall q, s :: 0 <= q < ADDRESSES && s in Insert(c, pc, code).lists[q] ==> s in c.lists[q]
  {
    var r := Insert(c, pc, code);
    forall q | 0 <= q < ADDRESSES ensures Aimed(r, q) {
      assert Aimed(c, q);
      if q != pc {
        forall s <- c.lists[q] ensures s !in Elements(c.lists[pc]) {
          if s in c.lists[pc] { OneList(c, pc, q, s); }
        }
      }
    }
    forall t <- r.links ensures exists q :: 0 <= q < |r.lists| && t in r.lists[q] {
      if t in c.lists[pc] && code.Some? {
        assert t in r.lists[pc];
      } else {
        var q :| 0 <= q < |c.lists| && t in c.lists[q];
        assert t in r.lists[q];
      }
    }
  }

  // ---- stores ----

  /** Links stay sound and nothing is added: slots are kept or emptied, lists only lose sites. */
  ghost predicate Shrinks(c: Cache, r: Cache) {
    LinkInv(c) && LinkInv(r)
    && (forall q :: 0 <= q < ADDRESSES ==> r.entries[q] == c.entries[q] || r.entries[q] == Empty)
    && forall q, s :: 0 <= q < ADDRESSES && s in r.lists[q] ==> s in c.lists[q]
  }

  /** The block at `p` covers the byte at `a`. */
  predicate Covers(e: Entry, p: Addr, a: Addr) { e.Block? && Wrap(a - p) < e.span }

  /** The window loop empties exactly the slots in the window whose entry reaches the byte. */
  lemma {:induction false} DropCoveringKeeps(c: Cache, addr: Addr, k: nat)
    requires LinkInv(c) && k <= c.maxBytes
    ensures var r := DropCovering(c, addr, k);
            && Shrinks(c, r)
            && forall p: Addr :: r.entries[p]
                 == if k <= Wrap(addr - p) < c.maxBytes && SpanPast(c.entries[p], Wrap(addr - p)) then Empty
                     else c.entries[p]
    decreases c.maxBytes - k
  {
    if k < c.maxBytes {
      var p0 := Wrap(addr - k);
      var c1 := if SpanPast(c.entries[p0], k) then Drop(c, p0) else c;
      DropKeeps(c, p0);
      DropCoveringKeeps(c1, addr, k + 1);
      var r := DropCovering(c1, addr, k + 1);
      forall p: Addr
        ensures r.entries[p] == if k <= Wrap(addr - p) < c.maxBytes
                && SpanPast(c.entries[p], Wrap(addr - p)) then Empty else c.entries[p]
      {
        Distance(addr, p, k);
      }
    }
  }

  /** Only the slot at distance `k` is visited at step `k`. */
  lemma Distance(addr: Addr, p: Addr, k: nat)
    requires k < ADDRESSES
    ensures Wrap(addr - p) == k <==> p == Wrap(addr - k)
  {
  }

  /** A store to a marked byte removes exactly the blocks that cover it, and the refusals in the window; every
      other slot, and every other mark, is left as it was. */
  lemma StoreIsExact(c: Cache, addr: Addr)
    requires LinkInv(c) && MarkInv(c)
    ensures var r := InvalidateForStore(c, addr);
            && Shrinks(c, r)
            && r.maxBytes == c.maxBytes && r.bitmap == c.bitmap[addr := false]
            && forall p: Addr :: r.entries[p]
                 == if Covers(c.entries[p], p, addr)
                     || (c.entries[p].Refused? && Wrap(addr - p) < c.maxBytes) then Empty else c.entries[p]
  {
    DropCoveringKeeps(c, addr, 0);
    var c1, r := DropCovering(c, addr, 0), InvalidateForStore(c, addr);
    forall p | 0 <= p < ADDRESSES ensures Aimed(r, p) { assert Aimed(c1, p); }
    assert OnlyRecorded(r) by {
      forall t <- r.links ensures exists q :: 0 <= q < |r.lists| && t in r.lists[q] {
        var q :| 0 <= q < |c1.lists| && t in c1.lists[q];
        assert t in r.lists[q];
      }
    }
  }

  // ---- sweeps ----

  lemma {:induction false} SweepKeeps(c: Cache, lo: Addr, k: nat, total: nat)
    requires LinkInv(c)
    ensures var r := SweepFrom(c, lo, k, total);
            && Shrinks(c, r)
            && forall j :: k <= j < total ==> !SpanPast(r.entries[Wrap(lo + j - c.maxBytes + 1)], Gap(c.maxBytes, j))
    decreases total - k
  {
    hide Gap, Wrap;
    if k < total {
      var p0 := Wrap(lo + k - c.maxBytes + 1);
      var c1 := if SpanPast(c.entries[p0], Gap(c.maxBytes, k)) then Drop(c, p0) else c;
      DropKeeps(c, p0);
      SweepKeeps(c1, lo, k + 1, total);
    }
  }

  lemma WrapShift(p: Addr, w: int)
    ensures Wrap(p + 0x1_0000 * w) == p
  {
  }

  lemma WrapParts(x: int)
    ensures x == Wrap(x) + 0x1_0000 * (x / 0x1_0000)
  {
  }

  /** Position in the sweep of a block at `p` that covers the written byte at `a`. */
  lemma SweepPosition(p: Addr, a: Addr, lo: Addr, len: nat, window: nat, span: nat) returns (j: nat)
    requires window < ADDRESSES && Wrap(a - lo) < len && Wrap(a - p) < span <= window
    ensures j < len + window && p == Wrap(lo + j - window + 1) && Gap(window, j) < span
  {
    var i, d := Wrap(a - lo), Wrap(a - p);
    j := i - d + window - 1;
    WrapParts(a - lo);
    WrapParts(a - p);
    WrapShift(p, (a - p) / 0x1_0000 - (a - lo) / 0x1_0000);
  }

  /** Every block is no longer than the window, and every byte it covers is marked. */
  ghost predicate MarkInv(c: Cache)
    requires Shaped(c)
  {
    (forall p: Addr :: c.entries[p].Block? ==> c.entries[p].span <= c.maxBytes)
    && forall p: Addr, a: Addr :: Covers(c.entries[p], p, a) ==> c.bitmap[a]
  }

  /** The batched sweep suffices: whether it stops early or not, no surviving block covers a written byte. */
  lemma SweepSuffices(c: Cache, lo: Addr, len: nat)
    requires LinkInv(c) && MarkInv(c)
    ensures var r := Sweep(c, lo, len);
            && Shrinks(c, r) && r.maxBytes == c.maxBytes && r.bitmap == c.bitmap
            && forall p: Addr, a: Addr :: Wrap(a - lo) < len ==> !Covers(r.entries[p], p, a)
  {
    hide Wrap;
    var r := Sweep(c, lo, len);
    forall p: Addr, a: Addr | Wrap(a - lo) < len && Covers(c.entries[p], p, a)
        ensures len > 0 && AnyMarked(c, lo, len) {
      assert c.bitmap[a];
    }
    if len > 0 && AnyMarked(c, lo, len) {
      SweepKeeps(c, lo, 0, len + c.maxBytes);
      forall p: Addr, a: Addr | Wrap(a - lo) < len ensures !Covers(r.entries[p], p, a) {
        if Covers(r.entries[p], p, a) {
          var j := SweepPosition(p, a, lo, len, c.maxBytes, r.entries[p].span);
        }
      }
    } else {
      ShrinksSelf(c);
    }
  }

  lemma ShrinksSelf(c: Cache)
    requires LinkInv(c)
    ensures Shrinks(c, c)
  {
  }

  /** The sweep also reaches one slot past the range: a block that starts right after the last written byte goes too,
      although it covers none of them.  Harmless, but more than the blocks that cover a written byte. */
  lemma SweepReachesOnePast(c: Cache, lo: Addr, len: nat, p: Addr, e: Entry)
    requires LinkInv(c) && c.maxBytes > 0 && len > 0 && AnyMarked(c, lo, len)
    requires p == Wrap(lo + len) && c.entries[p] == e && e.Block? && e.span > 0 && len + e.span <= ADDRESSES
    ensures Sweep(c, lo, len).entries[p] == Empty
    ensures forall a: Addr :: Wrap(a - lo) < len ==> !Covers(e, p, a)
  {
    SweepKeeps(c, lo, 0, len + c.maxBytes);
    var j := len + c.maxBytes - 1;
    var r := Sweep(c, lo, len);
    assert Wrap(lo + j - c.maxBytes + 1) == p;
    assert Gap(c.maxBytes, j) == 0;
    assert !SpanPast(r.entries[Wrap(lo + j - c.maxBytes + 1)], Gap(c.maxBytes, j));
    forall a: Addr | Wrap(a - lo) < len ensures !Covers(e, p, a) {
      PastTheEnd(a, lo, len);
    }
  }

  lemma PastTheEnd(a: Addr, lo: Addr, len: nat)
    requires Wrap(a - lo) < len < ADDRESSES
    ensures Wrap(a - Wrap(lo + len)) == ADDRESSES + Wrap(a - lo) - len
  {
    var i := Wrap(a - lo);
    WrapParts(a - lo);
    WrapParts(lo + len);
    assert Wrap(a - Wrap(lo + len)) == Wrap(i - len + 0x1_0000 * ((a - lo) / 0x1_0000 + (lo + len) / 0x1_0000));
  }
}
