/** End to end: every run of the dispatcher is a run of the interpreter. */
module DispatchProof {
  import opened Bits
  import opened Decoder
  import opened Interp
  import opened Emitter
  import opened FlagsProof
  import opened EmitterProof
  import opened Folds
  import opened FoldsProof
  import opened Translator
  import opened TranslatorProof
  import opened Blocks
  import opened BlockCache
  import opened CacheProof
  import opened Dispatch

  // ---- cached code and memory ----

  /** The block is what memory decodes to at its address. */
  ghost predicate Fresh(t: Translation, m: Memory) { GoodOps(t.ops) && OpsMatch(m, t.pc, t.ops) }

  /** Self-modifying-code safety: every cached block has all its bytes marked, is no longer than the window, and
      holds the instructions memory decodes to now. */
  ghost predicate CodeInv(c: Cache, buf: seq<Translation>, m: Memory)
    requires Shaped(c)
  {
    MarkInv(c) && forall p: Addr :: c.entries[p].Block? ==> SlotOk(c.entries[p], p, buf, m)
  }

  ghost predicate SlotOk(e: Entry, p: Addr, buf: seq<Translation>, m: Memory)
    requires e.Block?
  {
    e.native < |buf| && buf[e.native].pc == p && e.span == Span(buf[e.native].ops) && Fresh(buf[e.native], m)
  }

  /** Dropping blocks and changing only bytes that no remaining block covers keeps the invariant. */
  lemma CodeKeeps(c: Cache, r: Cache, buf: seq<Translation>, m: Memory, m1: Memory)
    requires Shrinks(c, r) && r.maxBytes == c.maxBytes && CodeInv(c, buf, m)
    requires forall p: Addr, a: Addr :: Covers(r.entries[p], p, a) ==> r.bitmap[a] && Rd(m1, a) == Rd(m, a)
    ensures CodeInv(r, buf, m1)
  {
    hide OpsMatch, Rd, Linked, Wrap;
    forall p: Addr | r.entries[p].Block?
      ensures SlotOk(r.entries[p], p, buf, m1)
    {
      assert SlotOk(c.entries[p], p, buf, m);
      var ops := buf[r.entries[p].native].ops;
      assert SameBytes(m, m1, p, Span(ops)) by {
        forall a: Addr | Wrap(a - p) < Span(ops) ensures Rd(m, a) == Rd(m1, a) {
          assert Covers(r.entries[p], p, a);
        }
      }
      MatchLocal(m, m1, p, ops);
    }
  }

  lemma CheckedKeeps(c: Cache, buf: seq<Translation>, m: Memory, w: Store)
    requires LinkInv(c) && CodeInv(c, buf, m)
    ensures var r := AfterStore(c, w.addr);
            Shrinks(c, r) && CodeInv(r, buf, m[w.addr := w.val])
  {
    hide Linked, Wrap, SlotOk;
    var r := AfterStore(c, w.addr);
    if c.bitmap[w.addr] {
      StoreIsExact(c, w.addr);
    } else {
      ShrinksSelf(c);
    }
    CodeKeeps(c, r, buf, m, m[w.addr := w.val]);
  }

  lemma PushedKeeps(c: Cache, buf: seq<Translation>, m: Memory, w: Store)
    requires LinkInv(c) && CodeInv(c, buf, m) && !c.bitmap[w.addr]
    ensures Shrinks(c, c) && CodeInv(c, buf, m[w.addr := w.val])
  {
    hide Linked, Wrap, SlotOk;
    ShrinksSelf(c);
    CodeKeeps(c, c, buf, m, m[w.addr := w.val]);
  }

  /** Every store of the range lies in it. */
  ghost predicate InRange(ws: seq<Store>, lo: Addr, len: nat) {
    forall i :: 0 <= i < |ws| ==> Wrap(ws[i].addr - lo) < len
  }

  lemma {:induction false} ApplyOutside(m: Memory, ws: seq<Store>, a: Addr)
    requires forall i :: 0 <= i < |ws| ==> ws[i].addr != a
    ensures Rd(Apply(m, ws), a) == Rd(m, a)
    decreases |ws|
  {
    if ws != [] {
      ApplyOutside(m[ws[0].addr := ws[0].val], ws[1..], a);
    }
  }

  lemma BulkKeeps(c: Cache, buf: seq<Translation>, m: Memory, ws: seq<Store>, lo: Addr, len: nat)
    requires LinkInv(c) && CodeInv(c, buf, m) && InRange(ws, lo, len)
    ensures var r := Sweep(c, lo, len);
            Shrinks(c, r) && CodeInv(r, buf, Apply(m, ws))
  {
    hide Linked, Wrap, SlotOk, Sweep, Apply, Rd;
    SweepSuffices(c, lo, len);
    var r := Sweep(c, lo, len);
    forall p: Addr, a: Addr | Covers(r.entries[p], p, a)
      ensures r.bitmap[a] && Rd(Apply(m, ws), a) == Rd(m, a)
    {
      assert Covers(c.entries[p], p, a);
      ApplyOutside(m, ws, a);
    }
    CodeKeeps(c, r, buf, m, Apply(m, ws));
  }

  ghost predicate EventOk(c: Cache, ev: Event)
    requires Shaped(c)
  {
    match ev
    case Checked(_) => true
    case Pushed(w) => !c.bitmap[w.addr]
    case Bulk(ws, lo, len) => InRange(ws, lo, len)
  }

  lemma EventKeeps(c: Cache, buf: seq<Translation>, m: Memory, ev: Event)
    requires LinkInv(c) && CodeInv(c, buf, m) && EventOk(c, ev)
    ensures var r := AfterEvent(c, ev);
            Shrinks(c, r) && CodeInv(r, buf, Apply(m, EventStores(ev)))
  {
    hide Linked, CodeInv, AfterStore, Sweep, Apply;
    match ev
    case Checked(w) =>
      CheckedKeeps(c, buf, m, w);
      OneStore(m, w.addr, w.val);
    case Pushed(w) =>
      PushedKeeps(c, buf, m, w);
      OneStore(m, w.addr, w.val);
    case Bulk(ws, lo, len) => BulkKeeps(c, buf, m, ws, lo, len);
  }

  ghost predicate BulksInRange(evs: seq<Event>) {
    forall i :: 0 <= i < |evs| && evs[i].Bulk? ==> InRange(evs[i].ws, evs[i].lo, evs[i].len)
  }

  lemma ShrinksTwice(a: Cache, b: Cache, c: Cache)
    requires Shrinks(a, b) && Shrinks(b, c)
    ensures Shrinks(a, c)
  {
    hide Linked;
  }

  lemma {:induction false} EventsKeep(c: Cache, buf: seq<Translation>, m: Memory, evs: seq<Event>)
    requires LinkInv(c) && CodeInv(c, buf, m) && PushesClear(c, evs) && BulksInRange(evs)
    ensures var r := AfterEvents(c, evs);
            Shrinks(c, r) && CodeInv(r, buf, Apply(m, StoresOf(evs)))
    decreases |evs|
  {
    hide Linked, CodeInv, AfterEvent, Apply;
    if evs == [] {
      ShrinksSelf(c);
      NoStores(m);
    } else {
      assert EventOk(c, evs[0]);
      EventKeeps(c, buf, m, evs[0]);
      var c1, m1 := AfterEvent(c, evs[0]), Apply(m, EventStores(evs[0]));
      assert BulksInRange(evs[1..]);
      EventsKeep(c1, buf, m1, evs[1..]);
      ApplyAppend(m, EventStores(evs[0]), StoresOf(evs[1..]));
      ShrinksTwice(c, c1, AfterEvents(c1, evs[1..]));
    }
  }

  // ---- stores the host makes itself ----

  ghost predicate Uncovered(c: Cache, a: Addr)
    requires Shaped(c)
  {
    forall p: Addr :: !Covers(c.entries[p], p, a)
  }

  lemma StoreUncovers(c: Cache, addr: Addr)
    requires LinkInv(c) && MarkInv(c)
    ensures var r := AfterStore(c, addr);
            && Shrinks(c, r) && MarkInv(r) && r.maxBytes == c.maxBytes
            && Uncovered(r, addr)
  {
    hide Linked, Wrap;
    if c.bitmap[addr] {
      StoreIsExact(c, addr);
    } else {
      ShrinksSelf(c);
    }
  }

  lemma {:induction false} HostWroteUncovers(c: Cache, addr: Addr, i: nat, len: nat)
    requires LinkInv(c) && MarkInv(c)
    ensures var r := HostWrote(c, addr, i, len);
            && Shrinks(c, r) && MarkInv(r) && r.maxBytes == c.maxBytes
            && forall a: Addr :: i <= Wrap(a - addr) < len ==> Uncovered(r, a)
    decreases len - i
  {
    hide Linked, Wrap, AfterStore;
    if i < len {
      StoreUncovers(c, Wrap(addr + i));
      var c1 := AfterStore(c, Wrap(addr + i));
      HostWroteUncovers(c1, addr, i + 1, len);
      var r := HostWrote(c1, addr, i + 1, len);
      forall a: Addr | i <= Wrap(a - addr) < len ensures Uncovered(r, a) {
        if Wrap(a - addr) == i {
          WrapAround(a, addr);
        }
      }
    } else {
      ShrinksSelf(c);
    }
  }

  lemma WrapAround(a: Addr, base: Addr)
    ensures a == Wrap(base + Wrap(a - base))
  {
  }

  /** However the host changed the bytes of a range behind the translator's back, reporting the range makes the
      cache agree with memory again. */
  lemma HostWroteKeeps(c: Cache, buf: seq<Translation>, m: Memory, m1: Memory, addr: Addr, len: nat)
    requires LinkInv(c) && CodeInv(c, buf, m) && forall a: Addr :: Wrap(a - addr) >= len ==> Rd(m1, a) == Rd(m, a)
    ensures var r := HostWrote(c, addr, 0, len);
            LinkInv(r) && CodeInv(r, buf, m1)
  {
    hide Linked, Rd, HostWrote, SlotOk;
    HostWroteUncovers(c, addr, 0, len);
    var r := HostWrote(c, addr, 0, len);
    forall p: Addr, a: Addr | Covers(r.entries[p], p, a) ensures Rd(m1, a) == Rd(m, a) {
      assert !Uncovered(r, a);
    }
    CodeKeeps(c, r, buf, m, m1);
  }

  /** Marking reaches every byte of a block exactly when the block does not wrap: the loop over a 16-bit end address
      marks nothing of a block whose end wraps past 0xFFFF. */
  lemma MarksUnlessWrapping(c: Cache, pc: Addr, span: nat)
    requires Shaped(c) && 0 < span < ADDRESSES && !c.bitmap[pc]
    ensures AllMarked(MarkBytes(c, pc, Wrap(pc + span)).bitmap, pc, span) <==> pc + span <= 0xFFFF
  {
    var r := MarkBytes(c, pc, Wrap(pc + span));
    if pc + span > 0xFFFF {
      assert Wrap(pc - pc) < span && !r.bitmap[pc];
    } else {
      forall a: Addr | Wrap(a - pc) < span ensures r.bitmap[a] {
        assert pc <= a < pc + span;
      }
    }
  }

  ghost predicate AllMarked(bitmap: seq<bool>, pc: Addr, span: nat)
    requires |bitmap| == ADDRESSES
  {
    forall a: Addr :: Wrap(a - pc) < span ==> bitmap[a]
  }

  // ---- helpers store inside the range they sweep ----

  lemma {:induction false} HelperAddresses(m: Memory, hl: Addr, de: Addr, i: nat, bc: nat, incr: int)
    requires i <= bc
    ensures var ws := HelperStores(m, hl, de, i, bc, incr);
            |ws| == bc - i && forall k :: 0 <= k < |ws| ==> ws[k].addr == Moved(de, incr, i + k)
    decreases bc - i
  {
    hide Moved, Rd;
    if i < bc {
      var v := Rd(m, Moved(hl, incr, i));
      var rest := HelperStores(m[Moved(de, incr, i) := v], hl, de, i + 1, bc, incr);
      HelperAddresses(m[Moved(de, incr, i) := v], hl, de, i + 1, bc, incr);
      var ws := HelperStores(m, hl, de, i, bc, incr);
      assert ws == [Store(Moved(de, incr, i), v)] + rest;
      forall k | 0 <= k < |ws| ensures ws[k].addr == Moved(de, incr, i + k) {
        if k > 0 {
          assert ws[k] == rest[k - 1] && i + 1 + (k - 1) == i + k;
        }
      }
    }
  }

  lemma UpFrom(lo: Addr, k: nat)
    requires k < ADDRESSES
    ensures Wrap(Wrap(lo + k) - lo) == k
  {
  }

  lemma DownFrom(de: Addr, n: nat, k: nat)
    requires k < n < ADDRESSES
    ensures Wrap(Wrap(de - k) - Wrap(de - (n - 1))) == n - 1 - k
  {
  }

  lemma CopyInRange(m: Memory, src: Addr, dst: Addr, n: nat)
    requires n < ADDRESSES
    ensures InRange(HelperStores(m, src, dst, 0, n, 1), dst, n) && |HelperStores(m, src, dst, 0, n, 1)| == n
  {
    hide Wrap, Moved, HelperStores;
    HelperAddresses(m, src, dst, 0, n, 1);
    var ws := HelperStores(m, src, dst, 0, n, 1);
    forall k | 0 <= k < |ws| ensures Wrap(ws[k].addr - dst) < n {
      assert ws[k].addr == Moved(dst, 1, 0 + k);
      MovedUp(dst, k);
      UpFrom(dst, k);
    }
  }

  lemma CopyDownInRange(m: Memory, src: Addr, dst: Addr, n: nat)
    requires n < ADDRESSES
    ensures InRange(HelperStores(m, src, dst, 0, n, -1), Wrap(dst - (n - 1)), n)
  {
    hide Wrap, Moved, HelperStores;
    HelperAddresses(m, src, dst, 0, n, -1);
    var ws := HelperStores(m, src, dst, 0, n, -1);
    forall k | 0 <= k < |ws| ensures Wrap(ws[k].addr - Wrap(dst - (n - 1))) < n {
      assert ws[k].addr == Moved(dst, -1, 0 + k);
      MovedUp(dst, k);
      DownFrom(dst, n, k);
    }
  }

  lemma {:induction false} FillAddresses(dst: Addr, v: bv8, i: nat, n: nat)
    requires i <= n
    ensures var ws := FillStores(dst, v, i, n);
            |ws| == n - i && forall k :: 0 <= k < |ws| ==> ws[k].addr == Wrap(dst + i + k)
    decreases n - i
  {
    hide Wrap;
    if i < n {
      FillAddresses(dst, v, i + 1, n);
      var ws, rest := FillStores(dst, v, i, n), FillStores(dst, v, i + 1, n);
      assert ws == [Store(Wrap(dst + i), v)] + rest;
      forall k | 0 <= k < |ws| ensures ws[k].addr == Wrap(dst + i + k) {
        if k > 0 {
          assert ws[k] == rest[k - 1] && rest[k - 1].addr == Wrap(dst + (i + 1) + (k - 1));
          assert dst + (i + 1) + (k - 1) == dst + i + k;
        } else {
          assert dst + i + k == dst + i;
        }
      }
    }
  }

  lemma FillInRange(dst: Addr, v: bv8, n: nat)
    requires n < ADDRESSES
    ensures InRange(FillStores(dst, v, 0, n), dst, n)
  {
    hide Wrap, FillStores;
    FillAddresses(dst, v, 0, n);
    var ws := FillStores(dst, v, 0, n);
    forall k | 0 <= k < |ws| ensures Wrap(ws[k].addr - dst) < n {
      assert ws[k].addr == Wrap(dst + 0 + k);
      UpFrom(dst, k);
    }
  }

  lemma {:induction false} FilterAddresses(spec: FilterSpec, m: Memory, hl: Addr, de: Addr, b: bv8, c: bv8)
    requires spec.Filter?
    ensures var ws := FilterLoop(spec, m, hl, de, b, c).writes;
            forall k :: 0 <= k < |ws| ==> ws[k].addr == Wrap(hl + k)
    decreases Iterations(c)
  {
    hide Wrap, MaskedByte, Below, Iterations, FilterLoop;
    FilterUnfold(spec, m, hl, de, b, c);
    assert Wrap(hl + 0) == hl by { WrapSelf(hl); }
    var a := MaskedByte(m, de, spec.mask);
    if !Below(a, spec.lo) && a != spec.sen && c != 1 {
      FewerIterations(c);
      FilterAddresses(spec, m[hl := a], Wrap(hl + 1), Wrap(de + 1), b + 1, c - 1);
      var ws := FilterLoop(spec, m, hl, de, b, c).writes;
      var rest := FilterLoop(spec, m[hl := a], Wrap(hl + 1), Wrap(de + 1), b + 1, c - 1).writes;
      forall k | 0 <= k < |ws| ensures ws[k].addr == Wrap(hl + k) {
        if k > 0 {
          assert ws[k] == rest[k - 1];
          WrapAdd(hl, 1, k - 1);
        }
      }
    }
  }

  lemma FilterInRange(spec: FilterSpec, m: Memory, hl: Addr, de: Addr, b: bv8, c: bv8)
    requires spec.Filter?
    ensures var ws := FilterLoop(spec, m, hl, de, b, c).writes;
            InRange(ws, hl, |ws|)
  {
    hide Wrap, FilterLoop, Iterations;
    FilterAddresses(spec, m, hl, de, b, c);
    FilterBound(spec, m, hl, de, b, c);
    var ws := FilterLoop(spec, m, hl, de, b, c).writes;
    forall k | 0 <= k < |ws| ensures Wrap(ws[k].addr - hl) < |ws| {
      UpFrom(hl, k);
    }
  }

  lemma OpBulks(c: Chunk, e: Regs, m: Memory)
    requires c.COp?
    ensures BulksInRange(EventsOf(c.d, e, EmitOp(c.d, c.prevQ, c.fmask, c.mstore, e, m).writes))
  {
    hide Wrap, HelperStores, InRange, EmitAlu, EmitIncDec, EmitCb, EmitAccRotate, EmitScfCcf, DaaStep, GetReg8,
         SetReg8, EmitLoad, EmitPtr, EmitStack, LastByte, BlockFlags, EmitCpl, IdxAddr, MemAddr;
    if c.d.ty == Flag(Ldir) {
      CopyInRange(m, e.hl, e.de, e.bc);
    } else if c.d.ty == Flag(Lddr) {
      CopyDownInRange(m, e.hl, e.de, e.bc);
    }
  }

  lemma FoldBulks(c: Chunk, e: Regs, m: Memory)
    requires IsFold(c)
    ensures BulksInRange(FoldEvents(c, e, FoldRun(c, e, m)))
  {
    hide Wrap, HelperStores, FillStores, FilterLoop, InRange, GetReg8, SetReg8, Spins, LastDecF, LastByte, Iterations,
         Word, Hi, Lo, FilterRegs;
    match c
    case CCountdown(_, _, _) =>
    case CCopy(counter, fromDe, _, _) =>
      CopyInRange(m, if fromDe then e.de else e.hl, if fromDe then e.hl else e.de, Iterations(GetReg8(e, counter, 0)));
    case CFill(counter, _, _) => FillInRange(e.hl, e.a, Iterations(GetReg8(e, counter, 0)));
    case CFilter(mask, lo, sen, _, _) => FilterInRange(Filter(mask, lo, sen), m, e.hl, e.de, Hi(e.bc), Lo(e.bc));
  }

  lemma BulksAppend(a: seq<Event>, b: seq<Event>)
    requires BulksInRange(a) && BulksInRange(b)
    ensures BulksInRange(a + b)
  {
  }

  /** Whatever the emitted code, its bulk stores stay inside the ranges it sweeps. */
  lemma {:induction false} RunBulks(code: seq<Chunk>, e: Regs, m: Memory, count: int)
    ensures BulksInRange(Run(code, e, m, count).events)
    decreases |code|
  {
    hide EmitOp, EventsOf, FoldRun, FoldEvents, Apply, Wrap, SideInline, SideTaken, TailQ, BulksInRange;
    if code == [] {
      NoBulks();
    } else {
      var c, rest := code[0], code[1..];
      assert code == [c] + rest;
      RunUnfold(c, rest, e, m, count);
      if c.COp? {
        var o := EmitOp(c.d, c.prevQ, c.fmask, c.mstore, e, m);
        OpBulks(c, e, m);
        RunBulks(rest, o.regs, Apply(m, o.writes), count);
        BulksAppend(EventsOf(c.d, e, o.writes), Run(rest, o.regs, Apply(m, o.writes), count).events);
      } else if c.CSide? {
        TakenBulks(c.d, c.after, c.slot, SideInline(c.d, e).(q := false), m);
        RunBulks(rest, SideInline(c.d, e), m, count);
      } else if IsFold(c) {
        var x := FoldRun(c, e, m);
        FoldBulks(c, e, m);
        RunBulks(rest, x.regs, Apply(m, x.writes), count + x.extra);
        BulksAppend(FoldEvents(c, e, x), Run(rest, x.regs, Apply(m, x.writes), count + x.extra).events);
      } else if c.CEnder? {
        EnderBulks(c.d, c.after, c.slot, e.(q := false), m);
      } else {
        NoBulks();
      }
    }
  }

  lemma NoBulks()
    ensures BulksInRange([])
  {
  }

  lemma TakenBulks(d: Decoded, after: Addr, slot: nat, e: Regs, m: Memory)
    ensures BulksInRange(TakenTail(d, after, slot, e, m).events)
  {
    hide Wrap, Signed, Rd, Word, Hi, Lo;
  }

  lemma EnderBulks(d: Decoded, after: Addr, slot: nat, e: Regs, m: Memory)
    ensures BulksInRange(EnderTail(d, after, slot, e, m).events)
  {
    hide Wrap, Signed, Rd, Word, Hi, Lo, TakenTail, SideInline, SideTaken;
    TakenBulks(d, after, slot + 1, SideInline(d, e), m);
  }

  // ---- static edges ----

  lemma ArcsCons(c: Chunk, rest: seq<Chunk>)
    ensures TailArcs([c] + rest)
         == (if c.CEnder? then EnderArcs(c.d, c.after, c.slot) else if c.CTail? then [Arc(c.slot, c.pc)]
             else []) + TailArcs(rest)
    ensures SideArcs([c] + rest) == (if c.CSide? then TakenArcs(c.d, c.after, c.slot) else []) + SideArcs(rest)
  {
    assert ([c] + rest)[1..] == rest;
  }

  lemma TakenArc(d: Decoded, after: Addr, slot: nat, e: Regs, m: Memory)
    requires IsCondEnder(d)
    ensures var x := TakenTail(d, after, slot, e, m);
            x.edge.Direct? ==> Arc(x.edge.slot, x.regs.pc) in TakenArcs(d, after, slot)
  {
    hide Wrap, Signed, Rd, Word, Hi, Lo;
  }

  lemma EnderArc(d: Decoded, after: Addr, slot: nat, e: Regs, m: Memory)
    requires d.ty.Branch?
    ensures var x := EnderTail(d, after, slot, e, m);
            x.edge.Direct? ==> Arc(x.edge.slot, x.regs.pc) in EnderArcs(d, after, slot)
  {
    hide Wrap, Signed, Rd, Word, Hi, Lo, TakenTail, TakenArcs, SideInline, SideTaken;
    if IsCondEnder(d) {
      TakenArc(d, after, slot + 1, SideInline(d, e), m);
    }
  }

  /** Branch chunks hold branches. */
  ghost predicate BranchChunks(code: seq<Chunk>) {
    forall i :: 0 <= i < |code| ==>
      (code[i].CSide? ==> IsCondEnder(code[i].d)) && (code[i].CEnder? ==> code[i].d.ty.Branch?)
  }

  /** Code that leaves through a patchable edge leaves for the address that edge was recorded with. */
  lemma {:induction false} RunArc(code: seq<Chunk>, e: Regs, m: Memory, count: int)
    requires BranchChunks(code)
    ensures var x := Run(code, e, m, count);
            x.edge.Direct? ==> Arc(x.edge.slot, x.regs.pc) in Arcs(code)
    decreases |code|
  {
    hide EmitOp, EventsOf, FoldRun, FoldEvents, Apply, Wrap, SideInline, SideTaken, TailQ, TakenTail, EnderTail,
         TakenArcs, EnderArcs;
    if code != [] {
      var c, rest := code[0], code[1..];
      assert code == [c] + rest;
      ArcsCons(c, rest);
      RunUnfold(c, rest, e, m, count);
      assert BranchChunks(rest);
      if c.COp? {
        var o := EmitOp(c.d, c.prevQ, c.fmask, c.mstore, e, m);
        RunArc(rest, o.regs, Apply(m, o.writes), count);
      } else if c.CSide? {
        TakenArc(c.d, c.after, c.slot, SideInline(c.d, e).(q := false), m);
        RunArc(rest, SideInline(c.d, e), m, count);
      } else if IsFold(c) {
        var x := FoldRun(c, e, m);
        RunArc(rest, x.regs, Apply(m, x.writes), count + x.extra);
      } else if c.CEnder? {
        EnderArc(c.d, c.after, c.slot, e.(q := false), m);
      }
    }
  }

  ghost predicate DistinctSlots(arcs: seq<Arc>) {
    forall i, j :: 0 <= i < |arcs| && 0 <= j < |arcs| && arcs[i].slot == arcs[j].slot ==> i == j
  }

  /** All slots lie in [lo, hi). */
  ghost predicate SlotsIn(arcs: seq<Arc>, lo: nat, hi: nat) { forall i :: 0 <= i < |arcs| ==> lo <= arcs[i].slot < hi }

  lemma DistinctAppend(a: seq<Arc>, b: seq<Arc>, lo: nat, mid: nat, hi: nat)
    requires DistinctSlots(a) && DistinctSlots(b) && lo <= mid <= hi
    requires (SlotsIn(a, lo, mid) && SlotsIn(b, mid, hi)) || (SlotsIn(b, lo, mid) && SlotsIn(a, mid, hi))
    ensures DistinctSlots(a + b) && SlotsIn(a + b, lo, hi)
  {
  }

  /** Slots of the code from instruction `i` on: side exits below `mid`, the tail's from there on, all at or above 3
      * i. */
  ghost predicate SlotsFrom(code: seq<Chunk>, i: nat, mid: nat, n: nat) {
    BranchChunks(code) && DistinctSlots(TailArcs(code)) && DistinctSlots(SideArcs(code))
    && 3 * i <= mid <= 3 * n + 3 && SlotsIn(SideArcs(code), 3 * i, mid) && SlotsIn(TailArcs(code), mid, 3 * n + 3)
  }

  lemma EnderSlots(d: Decoded, after: Addr, slot: nat)
    ensures DistinctSlots(EnderArcs(d, after, slot)) && SlotsIn(EnderArcs(d, after, slot), slot, slot + 3)
    ensures DistinctSlots(TakenArcs(d, after, slot)) && SlotsIn(TakenArcs(d, after, slot), slot, slot + 2)
  {
    hide Wrap, Signed;
  }

  lemma PieceSlots(ops: seq<Decoded>, at: seq<Addr>, i: nat, prevQ: PrevQ, fmask: bv8, mstore: bool)
    requires i < |ops| && |at| == |ops| + 1
    ensures var p := PieceAt(ops, at, i, prevQ, fmask, mstore);
            && (p.last <==> p.chunk.CEnder?) && !p.chunk.CTail?
            && (p.chunk.CSide? ==> p.chunk.slot == 3 * i + 1 && IsCondEnder(p.chunk.d))
            && (p.chunk.CEnder? ==> p.chunk.slot == 3 * i && p.chunk.d.ty.Branch?)
  {
    hide FilterKind, CopyFillKind, CountdownKind, Wrap, QModeOf;
  }

  lemma {:induction false} EmitSlots(ops: seq<Decoded>, at: seq<Addr>, i: nat, prevQ: PrevQ, qmode: QMode)
    returns (mid: nat)
    requires i <= |ops| && |at| == |ops| + 1
    ensures SlotsFrom(EmitFrom(ops, at, i, prevQ, qmode), i, mid, |ops|)
    decreases |ops| - i
  {
    hide PieceAt, LiveAt, MemptrLiveAt, MemptrStored, SlotsFrom, EmitFrom;
    EmitCons(ops, at, i, prevQ, qmode);
    var n := |ops|;
    if i == n {
      SlotsOne(CTail(at[i], n, qmode, 3 * i), i, n);
      mid := 3 * i;
    } else {
      var live, mstore := LiveAt(ops, i + 1), MemptrStored(ops[i], MemptrLiveAt(ops, i + 1));
      var p := PieceAt(ops, at, i, prevQ, live, mstore);
      PieceSlots(ops, at, i, prevQ, live, mstore);
      if p.last {
        SlotsOne(p.chunk, i, n);
        mid := 3 * i;
      } else {
        var rest := EmitFrom(ops, at, i + p.used, p.prevQ, p.qmode);
        mid := EmitSlots(ops, at, i + p.used, p.prevQ, p.qmode);
        SlotsCons(p.chunk, rest, i, i + p.used, mid, n);
      }
    }
  }

  lemma SlotsOne(c: Chunk, i: nat, n: nat)
    requires i <= n && (c.CTail? || (c.CEnder? && c.d.ty.Branch? && i < n)) && c.slot == 3 * i
    ensures SlotsFrom([c], i, 3 * i, n)
  {
    hide EnderArcs;
    ArcsCons(c, []);
    assert [c] + [] == [c];
    if c.CEnder? {
      EnderSlots(c.d, c.after, c.slot);
    }
    assert SlotsIn(SideArcs([c]), 3 * i, 3 * i) && SlotsIn(TailArcs([c]), 3 * i, 3 * n + 3);
  }

  lemma SlotsCons(c: Chunk, rest: seq<Chunk>, i: nat, j: nat, mid: nat, n: nat)
    requires SlotsFrom(rest, j, mid, n) && i < j && !c.CEnder? && !c.CTail?
    requires c.CSide? ==> c.slot == 3 * i + 1 && IsCondEnder(c.d)
    ensures SlotsFrom([c] + rest, i, mid, n)
  {
    hide TakenArcs, TailArcs, SideArcs;
    ArcsCons(c, rest);
    assert TailArcs([c] + rest) == TailArcs(rest);
    if c.CSide? {
      EnderSlots(c.d, c.after, c.slot);
      DistinctAppend(TakenArcs(c.d, c.after, c.slot), SideArcs(rest), 3 * i, 3 * j, mid);
    } else {
      assert SideArcs([c] + rest) == SideArcs(rest);
    }
    assert SlotsIn(SideArcs([c] + rest), 3 * i, mid);
  }

  /** The edges of one block have different slots. */
  lemma BlockArcs(pc: Addr, ops: seq<Decoded>)
    ensures BranchChunks(EmitBlock(pc, ops)) && DistinctSlots(Arcs(EmitBlock(pc, ops)))
  {
    hide EmitFrom, TailArcs, SideArcs;
    var code, n := EmitBlock(pc, ops), |ops|;
    var mid := EmitSlots(ops, Addresses(pc, ops), 0, Runtime, QClear);
    DistinctAppend(TailArcs(code), SideArcs(code), 0, mid, 3 * n + 3);
  }

  // ---- the system invariant ----

  /** Every recorded site is an edge of the block it belongs to, recorded under that edge's target. */
  ghost predicate EdgeInv(c: Cache, buf: seq<Translation>)
    requires Shaped(c)
  {
    forall p, s :: 0 <= p < ADDRESSES && s in c.lists[p] ==>
      s.native < |buf| && Arc(s.slot, p) in Arcs(CodeFor(buf[s.native]))
  }

  /** Control may enter the code it is about to enter: it is the translation of what memory holds at pc. */
  ghost predicate MayEnter(buf: seq<Translation>, native: nat, st: State) {
    native < |buf| && buf[native].pc == st.regs.pc && Fresh(buf[native], st.mem)
  }

  ghost predicate Inv(sys: Sys) {
    LinkInv(sys.cache) && CodeInv(sys.cache, sys.buf, sys.st.mem) && EdgeInv(sys.cache, sys.buf)
    && (sys.where.InCode? ==> MayEnter(sys.buf, sys.where.native, sys.st))
  }

  lemma EdgeKeeps(c: Cache, r: Cache, buf: seq<Translation>)
    requires Shrinks(c, r) && EdgeInv(c, buf)
    ensures EdgeInv(r, buf)
  {
    hide Linked, Arcs;
  }

  // ---- translating ----

  lemma NewIndex(buf: seq<Translation>, t: Translation)
    ensures (buf + [t])[|buf|] == t && forall i :: 0 <= i < |buf| ==> (buf + [t])[i] == buf[i]
  {
  }

  lemma EdgeGrow(c: Cache, buf: seq<Translation>, t: Translation)
    requires Shaped(c) && EdgeInv(c, buf)
    ensures EdgeInv(c, buf + [t])
    ensures forall s: Site :: s.native == |buf| ==> Unrecorded(c, s)
  {
    hide Arcs;
    NewIndex(buf, t);
  }

  /** Recording a block's edges, one after another: `done` are recorded already. */
  lemma {:induction false} EdgesKeep(c: Cache, buf: seq<Translation>, native: nat, done: seq<Arc>, arcs: seq<Arc>)
    requires LinkInv(c) && EdgeInv(c, buf) && native < |buf| && Arcs(CodeFor(buf[native])) == done + arcs
             && DistinctSlots(done + arcs)
    requires forall p, s :: 0 <= p < ADDRESSES && s in c.lists[p] && s.native == native ==>
             exists i :: 0 <= i < |done| && done[i].slot == s.slot
    ensures var r := EmitEdges(c, native, arcs);
            && LinkInv(r) && EdgeInv(r, buf)
            && r.entries == c.entries && r.bitmap == c.bitmap && r.maxBytes == c.maxBytes
    decreases |arcs|
  {
    hide Linked, Arcs, EmitEdge;
    if arcs != [] {
      var a := arcs[0];
      var site := Site(native, a.slot);
      forall i | 0 <= i < |done| ensures done[i].slot != a.slot {
        assert (done + arcs)[i] == done[i] && (done + arcs)[|done|] == a;
      }
      assert Unrecorded(c, site);
      EmitEdgeKeeps(c, a.target, site);
      var c1 := EmitEdge(c, a.target, site);
      assert done + arcs == (done + [a]) + arcs[1..];
      assert (done + arcs)[|done|] == a;
      forall p, s | 0 <= p < ADDRESSES && s in c1.lists[p] && s.native == native
        ensures exists i :: 0 <= i < |done + [a]| && (done + [a])[i].slot == s.slot
      {
        if s == site {
          assert (done + [a])[|done|].slot == s.slot;
        } else {
          var i :| 0 <= i < |done| && done[i].slot == s.slot;
          assert (done + [a])[i].slot == s.slot;
        }
      }
      EdgesKeep(c1, buf, native, done + [a], arcs[1..]);
    }
  }

  lemma MarkKeepsLinks(c: Cache, start: Addr, end: Addr)
    requires LinkInv(c)
    ensures LinkInv(MarkBytes(c, start, end))
  {
    var r := MarkBytes(c, start, end);
    forall p | 0 <= p < ADDRESSES ensures Aimed(r, p) { assert Aimed(c, p); }
    forall t <- r.links ensures exists q :: 0 <= q < |r.lists| && t in r.lists[q] {
      var q :| 0 <= q < |c.lists| && t in c.lists[q];
      assert t in r.lists[q];
    }
  }

  /** A block that does not wrap past the end of memory. */
  predicate NonWrapping(pc: Addr, ops: seq<Decoded>) { pc + Span(ops) <= 0xFFFF }

  /** Marking and inserting a non-wrapping block. */
  lemma InsertKeepsCode(c: Cache, buf: seq<Translation>, m: Memory, pc: Addr, ops: seq<Decoded>)
    requires LinkInv(c) && CodeInv(c, buf, m) && c.entries[pc] == Empty
    requires GoodOps(ops) && OpsMatch(m, pc, ops) && NonWrapping(pc, ops)
    ensures var r := Insert(MarkBytes(c, pc, Wrap(pc + Span(ops))), pc, Some(|buf|));
            LinkInv(r) && CodeInv(r, buf + [Translation(pc, ops)], m)
  {
    hide Linked, Fresh, GoodOps, OpsMatch, Repatch;
    var end := Wrap(pc + Span(ops));
    assert end == pc + Span(ops);
    var c1 := MarkBytes(c, pc, end);
    MarkKeepsLinks(c, pc, end);
    InsertKeeps(c1, pc, Some(|buf|));
    var r := Insert(c1, pc, Some(|buf|));
    NewIndex(buf, Translation(pc, ops));
    forall p: Addr, a: Addr | Covers(r.entries[p], p, a) ensures r.bitmap[a] {
      if p == pc {
        assert pc <= a < end;
      } else {
        assert Covers(c.entries[p], p, a);
      }
    }
    assert Fresh(Translation(pc, ops), m) by { NewFresh(pc, ops, m); }
    forall p: Addr | r.entries[p].Block? ensures SlotOk(r.entries[p], p, buf + [Translation(pc, ops)], m) {
      if p != pc {
        assert SlotOk(c.entries[p], p, buf, m);
      }
    }
  }

  lemma NewFresh(pc: Addr, ops: seq<Decoded>, m: Memory)
    requires GoodOps(ops) && OpsMatch(m, pc, ops)
    ensures Fresh(Translation(pc, ops), m)
  {
  }

  lemma EmptyKeeps(lastBytes: nat, m: Memory)
    ensures var c := EmptyCache(lastBytes);
            LinkInv(c) && CodeInv(c, [], m) && EdgeInv(c, [])
  {
    EmptyLinkInv(lastBytes);
  }

  /** Translating a non-wrapping block, or refusing one, keeps the invariant. */
  lemma TranslateKeeps(sys: Sys, full: bool)
    requires Inv(sys) && sys.where == AtDispatch && sys.cache.entries[sys.st.regs.pc] == Empty
    requires NonWrapping(sys.st.regs.pc, BlockOps(sys.st.mem, sys.st.regs.pc))
    ensures Inv(Translate(sys, full))
  {
    hide Linked, CodeInv, EmptyCache, EmitEdges, Insert, MarkBytes, Arcs, CodeFor, OpsFrom, EdgeInv, Fresh, NonWrapping;
    var pc, m := sys.st.regs.pc, sys.st.mem;
    var c0 := if full then EmptyCache(sys.cache.lastBytes) else sys.cache;
    var buf := if full then [] else sys.buf;
    EmptyKeeps(sys.cache.lastBytes, m);
    var ops := BlockOps(m, pc);
    assert c0.entries[pc] == Empty by { EmptySlot(sys.cache.lastBytes, pc); }
    if ops == [] {
      RefuseKeeps(c0, buf, m, pc);
    } else {
      AddKeeps(c0, buf, m, pc);
    }
  }

  lemma EmptySlot(lastBytes: nat, pc: Addr)
    ensures EmptyCache(lastBytes).entries[pc] == Empty
  {
  }

  lemma RefuseKeeps(c: Cache, buf: seq<Translation>, m: Memory, pc: Addr)
    requires LinkInv(c) && CodeInv(c, buf, m) && EdgeInv(c, buf) && c.entries[pc] == Empty
    ensures var r := Insert(c, pc, None);
            LinkInv(r) && CodeInv(r, buf, m) && EdgeInv(r, buf)
  {
    hide Linked, Fresh, Arcs;
    InsertKeeps(c, pc, None);
    var r := Insert(c, pc, None);
    forall p: Addr | r.entries[p].Block? ensures SlotOk(r.entries[p], p, buf, m) {
      assert SlotOk(c.entries[p], p, buf, m);
    }
  }

  lemma AddKeeps(c: Cache, buf: seq<Translation>, m: Memory, pc: Addr)
    requires LinkInv(c) && CodeInv(c, buf, m) && EdgeInv(c, buf) && c.entries[pc] == Empty
    requires BlockOps(m, pc) != [] && NonWrapping(pc, BlockOps(m, pc))
    ensures var ops := BlockOps(m, pc);
            var t := Translation(pc, ops);
            var c2 := MarkBytes(EmitEdges(c, |buf|, Arcs(CodeFor(t))), pc, Addresses(pc, ops)[|ops|]);
            var r := Insert(c2, pc, Some(|buf|));
            LinkInv(r) && CodeInv(r, buf + [t], m) && EdgeInv(r, buf + [t]) && Fresh(t, m)
  {
    hide Linked, Arcs, CodeFor, OpsFrom, OpsMatch, BlockShape, NonWrapping, EmitEdges, Wrap, Span, MarkBytes, Insert,
         CodeInv, EdgeInv, Addresses, Fresh;
    var ops := BlockOps(m, pc);
    var t := Translation(pc, ops);
    OpsFromMatch(m, pc, pc, 0);
    EndAddress(pc, ops);
    StageEdges(c, buf, m, t);
    var c1 := EmitEdges(c, |buf|, Arcs(CodeFor(t)));
    InsertKeepsCode(c1, buf, m, pc, ops);
    NewFresh(pc, ops, m);
    EdgeInsert(c1, pc, Wrap(pc + Span(ops)), Some(|buf|), buf + [t]);
  }

  lemma StageEdges(c: Cache, buf: seq<Translation>, m: Memory, t: Translation)
    requires LinkInv(c) && CodeInv(c, buf, m) && EdgeInv(c, buf)
    ensures var r := EmitEdges(c, |buf|, Arcs(CodeFor(t)));
            LinkInv(r) && CodeInv(r, buf, m) && EdgeInv(r, buf + [t]) && r.entries == c.entries && r.bitmap == c.bitmap
  {
    hide Linked, Arcs, CodeFor, EmitEdges, CodeInv, DistinctSlots;
    EdgeGrow(c, buf, t);
    NewIndex(buf, t);
    ArcsOf(t);
    var arcs := Arcs(CodeFor(t));
    assert [] + arcs == arcs;
    EdgesKeep(c, buf + [t], |buf|, [], arcs);
    SameCode(c, EmitEdges(c, |buf|, arcs), buf, m);
  }

  lemma ArcsOf(t: Translation)
    ensures DistinctSlots(Arcs(CodeFor(t))) && BranchChunks(CodeFor(t))
  {
    hide Arcs, EmitBlock;
    BlockArcs(t.pc, t.ops);
  }

  lemma SameCode(c: Cache, r: Cache, buf: seq<Translation>, m: Memory)
    requires Shaped(c) && Shaped(r) && CodeInv(c, buf, m) && r.entries == c.entries && r.bitmap == c.bitmap
             && r.maxBytes == c.maxBytes
    ensures CodeInv(r, buf, m)
  {
    hide SlotOk;
  }

  lemma EdgeInsert(c: Cache, pc: Addr, end: Addr, code: Option<nat>, buf: seq<Translation>)
    requires LinkInv(c) && EdgeInv(c, buf) && c.entries[pc] == Empty
    ensures EdgeInv(Insert(MarkBytes(c, pc, end), pc, code), buf)
  {
    hide Linked, Arcs;
    MarkKeepsLinks(c, pc, end);
    InsertKeeps(MarkBytes(c, pc, end), pc, code);
  }

  // ---- one step of the system ----

  lemma {:induction false} CheckedClear(c: Cache, evs: seq<Event>)
    requires Shaped(c) && forall i :: 0 <= i < |evs| ==> evs[i].Checked?
    ensures PushesClear(c, evs)
    decreases |evs|
  {
    hide AfterEvent;
    if evs != [] {
      CheckedClear(AfterEvent(c, evs[0]), evs[1..]);
    }
  }

  /** What the design takes for granted about one step.  In a block: the code it runs is not overwritten before it
      is reached, pushes miss cached code, RET does not pop address 0.  In the loop: a new block does not wrap. */
  ghost predicate Admissible(host: Host, sys: Sys)
    requires Shaped(sys.cache) && (sys.where.InCode? ==> sys.where.native < |sys.buf|)
  {
    if sys.where.InCode? then
      var x := ExitOf(sys);
      (x.count >= 0 ==> Undisturbed(host, sys.st, x.count)) && PushesClear(sys.cache, x.events)
          && !(x.edge == Return && x.regs.pc == 0)
    else
      match sys.cache.entries[sys.st.regs.pc]
      case Block(_, _) => true
      case Refused => NotFinalRet(host, sys.st)
      case Empty => NonWrapping(sys.st.regs.pc, BlockOps(sys.st.mem, sys.st.regs.pc)) && NotFinalRet(host, sys.st)
  }

  /** The condition on stores can be read off the block's own events: if none lands on the block's bytes, the code is
      not overwritten before it is reached. */
  lemma MissingIsAdmissible(host: Host, sys: Sys)
    requires Inv(sys) && sys.where.InCode?
    requires var x := ExitOf(sys);
             && MissesBlock(StoresOf(x.events), sys.st.regs.pc, Span(sys.buf[sys.where.native].ops))
             && PushesClear(sys.cache, x.events) && !(x.edge == Return && x.regs.pc == 0)
    ensures Admissible(host, sys)
  {
    hide Linked, CodeInv, EdgeInv, Run, EmitBlock, OpsMatch, GoodOps, StoresOf, Span, MissesBlock, PushesClear,
         Undisturbed;
    var x := ExitOf(sys);
    if x.count >= 0 {
      MissingIsUndisturbed(host, sys.buf[sys.where.native].ops, sys.st, x, x.count);
    }
  }

  /** `t` is what the interpreter makes of `s` in the instructions counted between them. */
  ghost predicate Follows(host: Host, s: State, t: State) {
    t.count >= s.count && t == Steps(host, s, t.count - s.count)
  }

  lemma InterpretKeeps(host: Host, sys: Sys)
    requires Inv(sys) && NotFinalRet(host, sys.st)
    ensures Inv(Interpret(host, sys)) && Follows(host, sys.st, Interpret(host, sys).st)
  {
    hide Linked, CodeInv, EdgeInv, AfterEvents, Exec, Decode, Apply;
    var d := Decode(sys.st.mem, sys.st.regs.pc);
    var o := Exec(host, d, sys.st.regs, sys.st.mem);
    var evs := AllChecked(o.writes);
    CheckedClear(sys.cache, evs);
    PushedStores(o.writes);
    assert BulksInRange(evs);
    EventsKeep(sys.cache, sys.buf, sys.st.mem, evs);
    EdgeKeeps(sys.cache, AfterEvents(sys.cache, evs), sys.buf);
    var t := Step(host, sys.st);
    assert t.count == sys.st.count + 1 by { CountedStep(host, sys.st); }
    assert Steps(host, t, 0) == t;
    assert Steps(host, sys.st, 1) == t;
  }

  lemma CountedStep(host: Host, st: State)
    requires NotFinalRet(host, st)
    ensures Step(host, st).count == st.count + 1
  {
    hide Decode, Apply, Rd16, ExecLoad, ExecPtr, ExecFlag, ExecStack;
  }

  /** Following a patched edge, or finding the target in the cache, enters a live translation of the target. */
  lemma EdgeEnters(c: Cache, buf: seq<Translation>, native: nat, x: Exit, st: State)
    requires LinkInv(c) && CodeInv(c, buf, st.mem) && EdgeInv(c, buf) && native < |buf| && st.regs.pc == x.regs.pc
    requires x.edge.Direct? ==> Arc(x.edge.slot, x.regs.pc) in Arcs(CodeFor(buf[native]))
    ensures var site := Site(native, if x.edge.Direct? then x.edge.slot else 0);
            x.edge.Direct? && site in c.links ==> MayEnter(buf, c.links[site], st)
    ensures ProbeCache(c, st.regs.pc).InCode? ==> MayEnter(buf, ProbeCache(c, st.regs.pc).native, st)
  {
    hide Arcs, CodeFor, Fresh;
    var pc := st.regs.pc;
    assert c.entries[pc].Block? ==> SlotOk(c.entries[pc], pc, buf, st.mem);
    if x.edge.Direct? && Site(native, x.edge.slot) in c.links {
      var site := Site(native, x.edge.slot);
      var p :| 0 <= p < |c.lists| && site in c.lists[p];
      NoStaleLink(c, site, p);
      ArcsOf(buf[native]);
      SlotTarget(Arcs(CodeFor(buf[native])), x.edge.slot, p, pc);
    }
  }

  lemma SlotTarget(arcs: seq<Arc>, slot: nat, a: Addr, b: Addr)
    requires DistinctSlots(arcs) && Arc(slot, a) in arcs && Arc(slot, b) in arcs
    ensures a == b
  {
  }

  lemma BlockStepKeeps(host: Host, sys: Sys)
    requires Inv(sys) && sys.where.InCode? && Admissible(host, sys)
    ensures Inv(RunBlock(sys)) && Follows(host, sys.st, RunBlock(sys).st)
  {
    hide Linked, CodeInv, EdgeInv, AfterEvents, Run, EmitBlock, Arcs, Apply, StoresOf, Undisturbed, PushesClear,
         GoodOps, OpsMatch, ProbeCache, Steps, BranchChunks;
    var native := sys.where.native;
    var t := sys.buf[native];
    var x := ExitOf(sys);
    RunBulks(CodeFor(t), sys.st.regs, sys.st.mem, 0);
    EventsKeep(sys.cache, sys.buf, sys.st.mem, x.events);
    var c := AfterEvents(sys.cache, x.events);
    EdgeKeeps(sys.cache, c, sys.buf);
    ArcsOf(t);
    RunArc(CodeFor(t), sys.st.regs, sys.st.mem, 0);
    var st := RunBlock(sys).st;
    EdgeEnters(c, sys.buf, native, x, st);
    BlockSound(host, t.ops, sys.st);
    BlockIsSteps(host, t.ops, sys.st, x, x.count);
  }

  /** Every admissible step of the dispatcher keeps the invariant and is a number of interpreter steps. */
  lemma NextIsSteps(host: Host, sys: Sys, full: bool)
    requires Inv(sys) && Admissible(host, sys)
    ensures Inv(Next(host, sys, full)) && Follows(host, sys.st, Next(host, sys, full).st)
  {
    hide Linked, CodeInv, EdgeInv, Fresh, RunBlock, Interpret, Translate, NonWrapping, NotFinalRet, Step, Undisturbed,
         PushesClear, ExitOf;
    var pc := sys.st.regs.pc;
    if sys.where.InCode? {
      BlockStepKeeps(host, sys);
    } else if sys.cache.entries[pc].Block? {
      assert MayEnter(sys.buf, sys.cache.entries[pc].native, sys.st) by { SlotEnters(sys, pc); }
    } else if sys.cache.entries[pc].Refused? {
      InterpretKeeps(host, sys);
    } else {
      TranslateKeeps(sys, full);
      if Translate(sys, full).where == AtDispatch {
        InterpretKeeps(host, Translate(sys, full));
      }
    }
  }

  lemma SlotEnters(sys: Sys, pc: Addr)
    requires Shaped(sys.cache) && CodeInv(sys.cache, sys.buf, sys.st.mem) && sys.cache.entries[pc].Block?
             && pc == sys.st.regs.pc
    ensures MayEnter(sys.buf, sys.cache.entries[pc].native, sys.st)
  {
    assert SlotOk(sys.cache.entries[pc], pc, sys.buf, sys.st.mem);
  }

  // ---- whole runs ----

  lemma {:induction false} StepsAdd(host: Host, s: State, a: nat, b: nat)
    ensures Steps(host, s, a + b) == Steps(host, Steps(host, s, a), b)
    decreases a
  {
    hide Step;
    if a > 0 {
      StepsAdd(host, Step(host, s), a - 1, b);
    }
  }

  /** A run of the dispatcher: block entries, chained edges, invalidations in mid-run, translations and wipes,
      interpreter fallbacks.  `full[i]` says whether step i finds the code buffer full. */
  ghost predicate IsRun(host: Host, run: seq<Sys>, full: seq<bool>) {
    |run| == |full| + 1
    && forall i :: 0 <= i < |full| ==>
         && Shaped(run[i].cache) && (run[i].where.InCode? ==> run[i].where.native < |run[i].buf|)
         && Admissible(host, run[i]) && run[i + 1] == Next(host, run[i], full[i])
  }

  /** End-to-end simulation: at every point of every run that starts in the invariant, the guest's registers,
      memory, memptr, q and instruction count are those of the interpreter after the same number of instructions,
      and the invariant still holds. */
  lemma {:induction false} RunIsSteps(host: Host, run: seq<Sys>, full: seq<bool>, i: nat)
    requires IsRun(host, run, full) && Inv(run[0]) && i < |run|
    ensures Inv(run[i]) && Follows(host, run[0].st, run[i].st)
    decreases i
  {
    hide Inv, Admissible, Next, Steps;
    if i == 0 {
      assert Follows(host, run[0].st, run[0].st) by { NoSteps(host, run[0].st); }
    } else {
      RunIsSteps(host, run, full, i - 1);
      var k := i - 1;
      assert run[k + 1] == Next(host, run[k], full[k]);
      NextIsSteps(host, run[k], full[k]);
      var a, b := run[k].st.count - run[0].st.count, run[i].st.count - run[k].st.count;
      StepsAdd(host, run[0].st, a, b);
    }
  }

  lemma NoSteps(host: Host, s: State)
    ensures Steps(host, s, 0) == s
  {
    hide Step;
  }

  /** The dispatcher starts in the invariant: nothing cached, any guest state. */
  lemma StartInv(st: State)
    ensures Inv(Sys(st, EmptyCache(0), [], AtDispatch))
  {
    hide EmptyCache;
    EmptyKeeps(0, st.mem);
  }
}
