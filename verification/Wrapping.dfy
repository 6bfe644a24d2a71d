/** Blocks that wrap past 0xFFFF: exactly when inserting one is safe, and a run that goes wrong when it is not. */
module Wrapping {
  import opened Bits
  import opened Decoder
  import opened Interp
  import opened Emitter
  import opened Folds
  import opened Translator
  import opened TranslatorProof
  import opened Blocks
  import opened BlockCache
  import opened CacheProof
  import opened Dispatch
  import opened DispatchProof

  // ---- when inserting a block is safe ----

  /** Every byte of the block ends up marked: it does not wrap, or other blocks have marked its bytes before. */
  ghost predicate Markable(c: Cache, pc: Addr, ops: seq<Decoded>)
    requires Shaped(c)
  {
    NonWrapping(pc, ops) || AllMarked(c.bitmap, pc, Span(ops))
  }

  lemma WrappedEnd(pc: Addr, span: nat)
    requires 0 < span < ADDRESSES
    ensures Wrap(Wrap(pc + span) - pc) == span
    ensures pc + span > 0xFFFF ==> Wrap(pc + span) <= pc
  {
  }

  /** Marking a wrapping block only widens the window. */
  lemma WrappedMarks(c: Cache, pc: Addr, span: nat)
    requires Shaped(c) && 0 < span < ADDRESSES && pc + span > 0xFFFF
    ensures var r := MarkBytes(c, pc, Wrap(pc + span));
            && r.bitmap == c.bitmap && r.lastBytes == span && r.entries == c.entries
            && r.maxBytes == if span > c.maxBytes then span else c.maxBytes
  {
    hide Wrap;
    WrappedEnd(pc, span);
  }

  lemma WrappedSlots(c: Cache, r: Cache, buf: seq<Translation>, m: Memory, pc: Addr, ops: seq<Decoded>)
    requires Shaped(c) && CodeInv(c, buf, m) && Fresh(Translation(pc, ops), m) && Shaped(r)
    requires r.entries == c.entries[pc := Block(Span(ops), |buf|)] && r.bitmap == c.bitmap
    requires r.maxBytes == if Span(ops) > c.maxBytes then Span(ops) else c.maxBytes
    ensures CodeInv(r, buf + [Translation(pc, ops)], m) <==> AllMarked(c.bitmap, pc, Span(ops))
  {
    hide Fresh, Span, Wrap;
    var e := r.entries[pc];
    var buf1 := buf + [Translation(pc, ops)];
    NewIndex(buf, Translation(pc, ops));
    if AllMarked(c.bitmap, pc, Span(ops)) {
      forall p: Addr, a: Addr | Covers(r.entries[p], p, a) ensures r.bitmap[a] {
        if p != pc {
          assert Covers(c.entries[p], p, a);
        }
      }
      forall p: Addr | r.entries[p].Block? ensures SlotOk(r.entries[p], p, buf1, m) {
        if p != pc {
          assert SlotOk(c.entries[p], p, buf, m);
        }
      }
    } else {
      var a: Addr :| Wrap(a - pc) < Span(ops) && !c.bitmap[a];
      assert Covers(e, pc, a);
    }
  }

  /** Inserting a block keeps cache and memory in step exactly when all its bytes end up marked. */
  lemma InsertExact(c: Cache, buf: seq<Translation>, m: Memory, pc: Addr, ops: seq<Decoded>)
    requires LinkInv(c) && CodeInv(c, buf, m) && c.entries[pc] == Empty && GoodOps(ops) && OpsMatch(m, pc, ops)
    ensures var r := Insert(MarkBytes(c, pc, Wrap(pc + Span(ops))), pc, Some(|buf|));
            LinkInv(r) && (CodeInv(r, buf + [Translation(pc, ops)], m) <==> Markable(c, pc, ops))
  {
    hide Linked, CodeInv, OpsMatch, BlockShape, Insert, MarkBytes, Span, Wrap, AllMarked;
    SpanBound(m, pc, ops);
    var end := Wrap(pc + Span(ops));
    MarkKeepsLinks(c, pc, end);
    MarkedSlots(c, pc, end);
    InsertKeeps(MarkBytes(c, pc, end), pc, Some(|buf|));
    if NonWrapping(pc, ops) {
      InsertKeepsCode(c, buf, m, pc, ops);
    } else {
      WrappedMarks(c, pc, Span(ops));
      WrappedSlots(c, Insert(MarkBytes(c, pc, end), pc, Some(|buf|)), buf, m, pc, ops);
    }
  }

  lemma MarkedSlots(c: Cache, start: Addr, end: Addr)
    requires Shaped(c)
    ensures MarkBytes(c, start, end).entries == c.entries
  {
  }

  /** For a block whose first byte is unmarked, the condition is that it does not wrap. */
  lemma UnmarkedMarkable(c: Cache, pc: Addr, ops: seq<Decoded>)
    requires Shaped(c) && !c.bitmap[pc] && Span(ops) > 0
    ensures Markable(c, pc, ops) <==> NonWrapping(pc, ops)
  {
    hide Span;
    assert Wrap(pc - pc) == 0;
  }

  /** Translating keeps the whole invariant exactly when all bytes of the new block end up marked. */
  lemma TranslateExact(sys: Sys, full: bool)
    requires Inv(sys) && sys.where == AtDispatch && sys.cache.entries[sys.st.regs.pc] == Empty
    requires BlockOps(sys.st.mem, sys.st.regs.pc) != []
    ensures var c := if full then EmptyCache(sys.cache.lastBytes) else sys.cache;
            Inv(Translate(sys, full)) <==> Markable(c, sys.st.regs.pc, BlockOps(sys.st.mem, sys.st.regs.pc))
  {
    hide Linked, CodeInv, EmptyCache, EmitEdges, Insert, MarkBytes, Arcs, CodeFor, OpsFrom, EdgeInv, OpsMatch,
         BlockShape,
         NonWrapping, AllMarked, Addresses, Wrap, Span;
    var pc, m := sys.st.regs.pc, sys.st.mem;
    var c := if full then EmptyCache(sys.cache.lastBytes) else sys.cache;
    var buf := if full then [] else sys.buf;
    EmptyKeeps(sys.cache.lastBytes, m);
    EmptySlot(sys.cache.lastBytes, pc);
    var ops := BlockOps(m, pc);
    var t := Translation(pc, ops);
    OpsFromMatch(m, pc, pc, 0);
    EndAddress(pc, ops);
    StageEdges(c, buf, m, t);
    var c1 := EmitEdges(c, |buf|, Arcs(CodeFor(t)));
    InsertExact(c1, buf, m, pc, ops);
    EdgeInsert(c1, pc, Wrap(pc + Span(ops)), Some(|buf|), buf + [t]);
    NewIndex(buf, t);
  }

  // ---- a run that goes wrong ----

  const TOP: Addr := 0xFFFF

  /** JP (HL) in the last byte of memory. */
  function JpHlAtTop(): Memory { map[TOP := 0xE9] }

  /** The same memory once the guest has stored a NOP over it. */
  function NopAtTop(): Memory { JpHlAtTop()[TOP := 0] }

  lemma DecodeJpHl(m: Memory)
    requires Rd(m, TOP) == 0xE9
    ensures var d := Decode(m, TOP);
            d.ty == Branch(JpHl) && d.bytes == 1 && d.prefix == 0
  {
    hide Wrap;
  }

  lemma DecodeNop(m: Memory)
    requires Rd(m, TOP) == 0
    ensures var d := Decode(m, TOP);
            d.ty == Load(Nop) && d.bytes == 1
  {
    hide Wrap;
  }

  /** The block at the last byte is that one instruction, and it wraps. */
  lemma TopBlock()
    ensures var ops := BlockOps(JpHlAtTop(), TOP);
            |ops| == 1 && ops[0].ty == Branch(JpHl) && ops[0].bytes == 1 && Span(ops) == 1 && !NonWrapping(TOP, ops)
  {
    hide Decode;
    DecodeJpHl(JpHlAtTop());
    var d := Decode(JpHlAtTop(), TOP);
    var ops := BlockOps(JpHlAtTop(), TOP);
    assert ops == [d];
    assert ops[1..] == [];
  }

  lemma TopPiece(pc: Addr, ops: seq<Decoded>, at: seq<Addr>, fmask: bv8, mstore: bool)
    requires |ops| == 1 && |at| == 2 && ops[0].ty == Branch(JpHl)
    ensures PieceAt(ops, at, 0, Runtime, fmask, mstore)
            == Piece(CEnder(ops[0], at[1], 1, 0), 1, Known(false), QClear, true)
  {
    hide Wrap;
  }

  /** Its code leaves for HL, whatever memory holds by then. */
  lemma TopCode(pc: Addr, ops: seq<Decoded>, e: Regs, m: Memory)
    requires |ops| == 1 && ops[0].ty == Branch(JpHl)
    ensures Run(EmitBlock(pc, ops), e, m, 0) == Exit(e.(q := false, pc := e.hl), [], 1, Probe)
    ensures Arcs(EmitBlock(pc, ops)) == []
  {
    hide PieceAt, LiveAt, MemptrLiveAt, MemptrStored, EmitOp, FoldRun, PopReturn, PushReturn, TakenTail, HostTest, Wrap;
    var at := Addresses(pc, ops);
    TopPiece(pc, ops, at, LiveAt(ops, 1), MemptrStored(ops[0], MemptrLiveAt(ops, 1)));
    var c := CEnder(ops[0], at[1], 1, 0);
    assert EmitBlock(pc, ops) == [c];
    hide EmitBlock, EmitFrom, Addresses;
    assert [c][1..] == [];
    NoArcs(c);
  }

  lemma NoArcs(c: Chunk)
    requires c.CEnder? && c.d.ty == Branch(JpHl)
    ensures Arcs([c]) == []
  {
    assert [c][1..] == [];
    assert EnderArcs(c.d, c.after, c.slot) == [];
    assert TailArcs([c]) == [] + TailArcs([]) && SideArcs([c]) == [] + SideArcs([]);
  }

  /** What the dispatcher has after translating it with nothing cached: a block no byte of which is marked. */
  lemma TopTranslated(r: Regs)
    requires r.pc == TOP
    ensures var sys := Translate(Sys(State(r, JpHlAtTop(), 0), EmptyCache(0), [], AtDispatch), false);
            && sys.where == InCode(0) && sys.buf == [Translation(TOP, BlockOps(JpHlAtTop(), TOP))]
            && sys.cache.entries[TOP] == Block(1, 0) && !sys.cache.bitmap[TOP]
  {
    hide Linked, OpsFrom, EmitBlock, Arcs, Insert, MarkBytes, Span, OpsMatch, BlockShape, Addresses, EmptyCache, Wrap;
    TopBlock();
    var ops, c := BlockOps(JpHlAtTop(), TOP), EmptyCache(0);
    TopCode(TOP, ops, r, JpHlAtTop());
    EmptyLinkInv(0);
    EmptyBitmap(0, TOP);
    EndAddress(TOP, ops);
    WrappedMarks(c, TOP, 1);
    MarkKeepsLinks(c, TOP, Wrap(TOP + 1));
    InsertKeeps(MarkBytes(c, TOP, Wrap(TOP + 1)), TOP, Some(0));
    var t := Translation(TOP, ops);
    assert EmitEdges(c, 0, Arcs(CodeFor(t))) == c;
    assert [] + [t] == [t];
    var sys := Translate(Sys(State(r, JpHlAtTop(), 0), EmptyCache(0), [], AtDispatch), false);
    assert sys.cache == Insert(MarkBytes(c, TOP, Wrap(TOP + 1)), TOP, Some(0));
    assert sys.buf == [t] && sys.cache.entries[TOP] == Block(1, 0);
    assert sys.cache.bitmap == c.bitmap;
  }

  lemma EmptyBitmap(lastBytes: nat, a: Addr)
    ensures !EmptyCache(lastBytes).bitmap[a] && EmptyCache(lastBytes).entries[a] == Empty
  {
  }

  /** One NOP at the top of memory goes on at address 0. */
  lemma NopStep(host: Host, st: State)
    requires st.regs.pc == TOP && Rd(st.mem, TOP) == 0
    ensures Steps(host, st, 1).regs.pc == 0
  {
    hide Decode, Apply;
    DecodeNop(st.mem);
    assert Steps(host, st, 1) == Steps(host, Step(host, st), 0);
  }

  /** The guest stores a NOP over the instruction and comes back to it: the store finds its byte unmarked, the cache
      keeps the block, and the dispatcher runs it.  It jumps to HL where the interpreter goes on at address 0. */
  lemma WrappedBlockGoesStale(host: Host, r: Regs, first: Sys, cached: Sys, back: Sys, entered: Sys)
    requires r.pc == TOP && r.hl != 0
    requires first == Sys(State(r, JpHlAtTop(), 0), EmptyCache(0), [], AtDispatch)
    requires cached == Next(host, first, false)
    requires back == Sys(State(r, NopAtTop(), 0), AfterStore(cached.cache, TOP), cached.buf, AtDispatch)
    requires entered == Next(host, back, false)
    ensures Inv(first) && cached.where == InCode(0) && back.cache == cached.cache
    ensures !CodeInv(back.cache, back.buf, back.st.mem)
    ensures entered.where == InCode(0) && |entered.buf| == 1 && !MayEnter(entered.buf, 0, entered.st)
    ensures !Follows(host, back.st, Next(host, entered, false).st)
  {
    hide EmptyCache, Linked, EdgeInv, Translate, OpsFrom, EmitBlock, Arcs, AfterEvents, InvalidateForStore, Decode,
         BlockShape,
         Steps, Run, Apply, StoresOf;
    TopTranslated(r);
    EmptyBitmap(0, TOP);
    StartHolds(r);
    TopBlock();
    TopCode(TOP, BlockOps(JpHlAtTop(), TOP), r, NopAtTop());
    assert cached == Translate(first, false);
    DecodeNop(NopAtTop());
    assert !Fresh(cached.buf[0], NopAtTop());
    assert !SlotOk(cached.cache.entries[TOP], TOP, cached.buf, NopAtTop());
    NopStep(host, back.st);
    assert entered == back.(where := InCode(0));
    assert RunBlock(entered).st.count == 1 && RunBlock(entered).st.regs.pc == r.hl;
  }

  lemma StartHolds(r: Regs)
    ensures Inv(Sys(State(r, JpHlAtTop(), 0), EmptyCache(0), [], AtDispatch))
  {
    hide Inv;
    StartInv(State(r, JpHlAtTop(), 0));
  }
}
