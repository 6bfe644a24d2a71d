/** Each translated instruction refines the interpreter's, on the bits the liveness pass keeps. */
module EmitterProof {
  import opened Bits
  import opened Decoder
  import opened Interp
  import opened Emitter
  import opened FlagsProof
  import opened X64Flags

  // ---- whole instructions ----

  /** A translated instruction and the interpreted one store the same bytes and end related:
      all registers, every live F bit, memptr if live, and q as the translator predicts it. */
  ghost predicate Matches(o: EmitOut, i: Out, live: bv8, mlive: bool, pc: Addr) {
    && o.writes == i.writes
    && Sim(o.regs, i.regs, live, mlive, PrevQAfter(o.qmode))
    && i.regs.pc == pc
    && (o.qmode == QKeep ==> o.regs.q)
  }

  /** Register reads see the same value, and register writes keep the states related and touch nothing else. */
  ghost predicate SameFrame(e: Regs, e1: Regs) { e1.f == e.f && e1.memptr == e.memptr && e1.q == e.q && e1.pc == e.pc }

  lemma Reg8Sim(e: Regs, s: Regs, code: bv8, prefix: bv8, v: bv8)
    requires SameCore(e, s)
    ensures GetReg8(e, code, prefix) == GetReg8(s, code, prefix)
    ensures SameCore(SetReg8(e, code, prefix, v), SetReg8(s, code, prefix, v))
    ensures SameFrame(e, SetReg8(e, code, prefix, v)) && SameFrame(s, SetReg8(s, code, prefix, v))
  {
    hide Hi, Lo, SetHi, SetLo;
  }

  lemma PairSim(e: Regs, s: Regs, code: bv8, prefix: bv8, v: Addr)
    requires SameCore(e, s)
    ensures GetPair(e, code) == GetPair(s, code) && GetPairP(e, code, prefix) == GetPairP(s, code, prefix)
    ensures GetHlLike(e, prefix) == GetHlLike(s, prefix)
    ensures SameCore(SetPair(e, code, v), SetPair(s, code, v))
    ensures SameFrame(e, SetPair(e, code, v)) && SameFrame(s, SetPair(s, code, v))
    ensures SameCore(SetPairP(e, code, prefix, v), SetPairP(s, code, prefix, v))
    ensures SameFrame(e, SetPairP(e, code, prefix, v)) && SameFrame(s, SetPairP(s, code, prefix, v))
    ensures SameCore(SetHlLike(e, prefix, v), SetHlLike(s, prefix, v))
    ensures SameFrame(e, SetHlLike(e, prefix, v)) && SameFrame(s, SetHlLike(s, prefix, v))
  {
  }

  lemma AddrSim(e: Regs, s: Regs, d: Decoded)
    requires SameCore(e, s)
    ensures MemAddr(e, d) == EffectiveAddr(s, d)
    ensures IsIndexPrefix(d.prefix) ==> IdxAddr(e, d) == EffectiveAddr(s, d)
    ensures !IsIndexPrefix(d.prefix) ==> EffectiveAddr(s, d) == s.hl
  {
    hide Wrap, Signed;
  }

  /** The states are related before the instruction; `r` has pc advanced and q cleared. */
  ghost predicate Ready(e: Regs, r: Regs, live: bv8, mlive: bool) {
    !r.q && SameCore(e, r) && Agree(e.f, r.f, live) && (mlive ==> e.memptr == r.memptr)
  }

  predicate IsPairLoad(op: LoadOp) {
    op.Nop? || op.LdRrNn? || op.IncRr? || op.DecRr? || op.LdSpHl? || op.ExDeHl?
  }

  lemma PairLoadMatches(op: LoadOp, d: Decoded, live: bv8, mlive: bool, e: Regs, r: Regs, m: Memory)
    requires IsPairLoad(op) && Ready(e, r, live, mlive)
    ensures Matches(EmitLoad(op, d, e, m), ExecLoad(op, r, m, d), live, mlive, r.pc)
  {
    hide Wrap, Agree, GetPairP, SetPairP, GetHlLike;
    if op.LdRrNn? {
      PairSim(e, r, d.reg1, d.prefix, d.imm16);
    } else if op.IncRr? {
      PairSim(e, r, d.reg1, d.prefix, Wrap(GetPairP(r, d.reg1, d.prefix) + 1));
    } else if op.DecRr? {
      PairSim(e, r, d.reg1, d.prefix, Wrap(GetPairP(r, d.reg1, d.prefix) - 1));
    } else if op.LdSpHl? {
      PairSim(e, r, 0, d.prefix, 0);
    }
  }

  lemma LoadMatches(op: LoadOp, d: Decoded, live: bv8, mlive: bool, e: Regs, r: Regs, m: Memory)
    requires d.ty == Load(op) && CanTranslate(d) && Ready(e, r, live, mlive)
    ensures Matches(EmitLoad(op, d, e, m), ExecLoad(op, r, m, d), live, mlive, r.pc)
  {
    hide Rd, Wrap, Agree, GetReg8, SetReg8, GetPairP, SetPairP, GetHlLike, MemAddr, IdxAddr, EffectiveAddr;
    AddrSim(e, r, d);
    if IsPairLoad(op) {
      PairLoadMatches(op, d, live, mlive, e, r, m);
    } else if op.LdRR? {
      LdRRMatches(d, live, mlive, e, r, m);
    } else if op.LdRN? {
      Reg8Sim(e, r, d.reg1, d.prefix, d.imm8);
    } else if op.LdRInd? {
      Reg8Sim(e, r, d.reg2, d.prefix, Rd(m, EffectiveAddr(r, d)));
    } else if op.LdIndR? {
      Reg8Sim(e, r, d.reg2, d.prefix, 0);
    }
  }

  lemma SetOwnReg8(r: Regs, code: bv8, prefix: bv8)
    ensures SetReg8(r, code, prefix, GetReg8(r, code, prefix)) == r
  {
    hide Hi, Lo, SetHi, SetLo;
    SetSame(r.bc);
    SetSame(r.de);
    SetSame(r.hl);
    SetSame(r.ix);
    SetSame(r.iy);
  }

  lemma PrefixFree(r: Regs, code: bv8, prefix: bv8, v: bv8)
    requires !IsIndexPrefix(prefix)
    ensures GetReg8(r, code, prefix) == GetReg8(r, code, 0) && SetReg8(r, code, prefix, v) == SetReg8(r, code, 0, v)
  {
    hide Hi, Lo, SetHi, SetLo;
  }

  lemma LdRRMatches(d: Decoded, live: bv8, mlive: bool, e: Regs, r: Regs, m: Memory)
    requires d.ty == Load(LdRR) && CanTranslate(d) && Ready(e, r, live, mlive)
    ensures Matches(EmitLoad(LdRR, d, e, m), ExecLoad(LdRR, r, m, d), live, mlive, r.pc)
  {
    hide Rd, Wrap, Agree, GetReg8, SetReg8, MemAddr, IdxAddr, EffectiveAddr;
    AddrSim(e, r, d);
    if d.reg1 == 6 {
      Reg8Sim(e, r, d.reg2, 0, 0);
      PrefixFree(r, d.reg2, d.prefix, 0);
    } else if d.reg2 == 6 {
      Reg8Sim(e, r, d.reg1, 0, Rd(m, r.hl));
      PrefixFree(r, d.reg1, d.prefix, Rd(m, r.hl));
    } else if d.reg1 == d.reg2 {
      SetOwnReg8(r, d.reg1, d.prefix);
    } else {
      Reg8Sim(e, r, d.reg2, d.prefix, 0);
      Reg8Sim(e, r, d.reg1, d.prefix, GetReg8(r, d.reg2, d.prefix));
    }
  }

  lemma PtrMatches(op: PtrOp, d: Decoded, live: bv8, mlive: bool, e: Regs, r: Regs, m: Memory)
    requires !op.AddHlRr? && Ready(e, r, live, false)
    ensures Matches(EmitPtr(op, d, live, mlive, e, m), ExecPtr(op, r, m, d), live, mlive, r.pc)
  {
    hide Rd, Wrap, Agree, Word, Hi, Lo, SetHlLike, GetHlLike;
    PairSim(e, r, 0, d.prefix, Word(Rd(m, Wrap(d.imm16 + 1)), Rd(m, d.imm16)));
    PairSim(e, r, 0, d.prefix, Word(Rd(m, Wrap(r.sp + 1)), Rd(m, r.sp)));
  }

  lemma AddHlAgreesW(x: Addr, y: Addr, self: bool, fe: bv8, fs: bv8, fmask: bv8)
    requires Agree(fe, fs, (fmask & 0xC4) | FLAG_SZP) && (self ==> x == y)
    ensures Agree(EmitAddHlW(x, y, self, fe, fmask), AddHlFlagsW(x, y, fs), fmask)
  {
    hide EmitAddHl, AddHlFlags, TableAddHl;
    TableAddHlAgrees(x as bv16, y as bv16, self, fe, fs, fmask);
    AgreeLess(fe, fs, (fmask & 0xC4) | FLAG_SZP, FLAG_SZP);
    AddHlAgrees(x as bv16, y as bv16, fe, fs, fmask);
  }

  lemma AddHlMatches(d: Decoded, live: bv8, mlive: bool, e: Regs, r: Regs)
    requires Ready(e, r, (live & 0xC4) | FLAG_SZP, false)
    ensures Matches(EmitAddHlOp(d, live, mlive, e), ExecAddHl(r, d), live, mlive, r.pc)
  {
    hide Wrap, Agree, SetHlLike, GetHlLike, GetPair, EmitAddHlW, AddHlFlagsW;
    PairSim(e, r, d.reg1, d.prefix, 0);
    var dst := GetHlLike(r, d.prefix);
    var src := if d.reg1 == 2 then dst else GetPair(r, d.reg1);
    assert d.reg1 == 3 ==> GetPair(r, d.reg1) == r.sp by { SpIsPair(r); }
    PairSim(Memptr(e, mlive, Wrap(dst + 1)), r, d.reg1, d.prefix, Wrap(dst + src));
    AddHlAgreesW(dst, src, d.reg1 == 2, e.f, r.f, live);
  }

  lemma SpIsPair(r: Regs)
    ensures GetPair(r, 3) == r.sp
  {
  }

  lemma AgreeAll(fe: bv8, fs: bv8)
    requires Agree(fe, fs, 0xFF)
    ensures fe == fs
  {
  }

  lemma SameAgree(f: bv8, mask: bv8)
    ensures Agree(f, f, mask)
  {
  }

  lemma LiveAroundStack(d: Decoded, live: bv8, fe: bv8, fs: bv8)
    requires d.ty.Stack? && Agree(fe, fs, LiveBefore(d, live))
    ensures d.ty.stack.PushRr? ==> Agree(fe, fs, live)
    ensures d.ty.stack.PushRr? && d.reg1 == 3 ==> fe == fs
    ensures d.ty.stack.PopRr? && d.reg1 != 3 ==> Agree(fe, fs, live)
  {
  }

  lemma PushMatches(d: Decoded, live: bv8, mlive: bool, e: Regs, r: Regs, m: Memory)
    requires d.ty == Stack(PushRr) && CanTranslate(d) && Ready(e, r, LiveBefore(d, live), mlive)
    ensures Matches(EmitStack(PushRr, d, e, m), ExecStack(PushRr, r, m, d), live, mlive, r.pc)
  {
    hide Wrap, Word, Hi, Lo, GetPair, Agree, LiveBefore;
    LiveAroundStack(d, live, e.f, r.f);
    PairSim(e, r, d.reg1, 0, 0);
  }

  lemma PopPairMatches(d: Decoded, live: bv8, mlive: bool, e: Regs, r: Regs, m: Memory)
    requires d.reg1 <= 2 && Ready(e, r, live, mlive)
    ensures Matches(EmitStack(PopRr, d, e, m), ExecStack(PopRr, r, m, d), live, mlive, r.pc)
  {
    hide Rd, Wrap, Word, SetPair, Agree;
    var v := Word(Rd(m, Wrap(r.sp + 1)), Rd(m, r.sp));
    PairSim(e, r, d.reg1, 0, v);
    SpFree(r, d.reg1, v);
    assert d.reg1 != 3 && d.reg1 != 4;
  }

  lemma PopOtherMatches(d: Decoded, live: bv8, mlive: bool, e: Regs, r: Regs, m: Memory)
    requires (d.reg1 == 3 || d.reg1 == 4) && Ready(e, r, if d.reg1 == 3 then 0 else live, mlive)
    ensures Matches(EmitStack(PopRr, d, e, m), ExecStack(PopRr, r, m, d), live, mlive, r.pc)
  {
    hide Rd, Wrap, Word, SetPair, Agree;
    SameAgree(Rd(m, r.sp), live);
  }

  lemma PopMatches(d: Decoded, live: bv8, mlive: bool, e: Regs, r: Regs, m: Memory)
    requires d.ty == Stack(PopRr) && CanTranslate(d) && Ready(e, r, LiveBefore(d, live), mlive)
    ensures Matches(EmitStack(PopRr, d, e, m), ExecStack(PopRr, r, m, d), live, mlive, r.pc)
  {
    hide EmitStack, ExecStack, Matches, Agree, LiveBefore;
    LiveAroundStack(d, live, e.f, r.f);
    NoBits(e.f, r.f);
    if d.reg1 <= 2 {
      PopPairMatches(d, live, mlive, e, r, m);
    } else {
      PopOtherMatches(d, live, mlive, e, r, m);
    }
  }

  lemma NoBits(f: bv8, g: bv8)
    ensures Agree(f, g, 0)
  {
  }

  /** POP writes its pair before or after moving SP, which no poppable pair is. */
  lemma SpFree(r: Regs, code: bv8, v: Addr)
    ensures code <= 2 ==> SetPair(r, code, v).(sp := Wrap(r.sp + 2)) == SetPair(r.(sp := Wrap(r.sp + 2)), code, v)
  {
  }

  // ---- instructions that write F ----

  /** Either backend's ALU code agrees with the interpreter on the result and on every live flag bit. */
  lemma AluCodeAgrees(alu: Alu, a: bv8, b: bv8, fe: bv8, fs: bv8, live: bv8)
    requires Agree(fe, fs, (live & !AluEffects(alu).wr) | AluEffects(alu).rd)
    ensures AluCode(alu, a, b, fe, live).v == Alu8(alu, a, b, fs).v
    ensures Agree(AluCode(alu, a, b, fe, live).f, Alu8(alu, a, b, fs).f, live)
  {
    hide Agree, EmitAlu, NativeAlu, Alu8, AluEffects, Parity8;
    if BACKEND.X64? {
      NativeAgrees(alu, a, b, fe, fs, Parity8(if alu.Cp? then a - b else Alu8(alu, a, b, fe).v) != 0, live);
    } else {
      AluAgrees(alu, a, b, fe, fs, live);
    }
  }

  lemma AluMatches(alu: Alu, b: bv8, live: bv8, mlive: bool, e: Regs, r: Regs)
    requires Ready(e, r, (live & !AluEffects(alu).wr) | AluEffects(alu).rd, mlive)
    ensures Matches(EmitAluOn(e, alu, b, live), WithAlu(r, Alu8(alu, r.a, b, r.f)), live, mlive, r.pc)
  {
    hide Agree, AluCode, Alu8, AluEffects;
    AluCodeAgrees(alu, r.a, b, e.f, r.f, live);
  }

  lemma IncDecMatches(isInc: bool, d: Decoded, code: bv8, live: bv8, mlive: bool, e: Regs, r: Regs, m: Memory)
    requires code != 6 && Ready(e, r, (live & 0x01) | FLAG_C, mlive)
    ensures var x := EmitIncDec(isInc, GetReg8(e, code, d.prefix), e.f, live);
      Matches(EmitOut(SetReg8(e.(f := x.f), code, d.prefix, x.v), [], QSet), ExecIncDec(r, m, d, code, isInc), live,
          mlive, r.pc)
  {
    hide Agree, EmitIncDec, IncDec8, GetReg8, SetReg8;
    Reg8Sim(e, r, code, d.prefix, 0);
    var v := GetReg8(r, code, d.prefix);
    IncDecAgrees(isInc, v, e.f, r.f, live);
    var x, y := EmitIncDec(isInc, v, e.f, live), IncDec8(isInc, v, r.f);
    Reg8Sim(e.(f := x.f), r.(f := y.f, q := true), code, d.prefix, x.v);
  }

  lemma IncDecMemMatches(isInc: bool, d: Decoded, addr: Addr, live: bv8, mlive: bool, e: Regs, r: Regs, m: Memory)
    requires addr == EffectiveAddr(r, d) && Ready(e, r, (live & 0x01) | FLAG_C, mlive)
    ensures Matches(EmitIncDecAt(e, m, addr, isInc, live), ExecIncDec(r, m, d, 6, isInc), live, mlive, r.pc)
  {
    hide Agree, EmitIncDec, IncDec8, EffectiveAddr, Rd;
    IncDecAgrees(isInc, Rd(m, addr), e.f, r.f, live);
    var y := IncDec8(isInc, Rd(m, addr), r.f);
    assert EffectiveAddr(r.(f := y.f, q := true), d) == EffectiveAddr(r, d) by { AddrFrame(r, d, y.f); }
  }

  lemma AddrFrame(r: Regs, d: Decoded, f: bv8)
    ensures EffectiveAddr(r.(f := f, q := true), d) == EffectiveAddr(r, d)
  {
  }

  lemma CbOperandSim(e: Regs, r: Regs, m: Memory, d: Decoded, code: bv8)
    requires SameCore(e, r)
    ensures EmitCbOperand(e, m, d, code) == CbOperand(r, m, d, code)
  {
    hide GetReg8, IdxAddr, EffectiveAddr, Rd;
    AddrSim(e, r, d);
    Reg8Sim(e, r, code, 0, 0);
  }

  lemma WriteBackMatches(e: Regs, r: Regs, d: Decoded, code: bv8, res: bv8, qmode: QMode, live: bv8, mlive: bool)
    requires SameCore(e, r) && Agree(e.f, r.f, live) && (mlive ==> e.memptr == r.memptr)
    requires qmode != QKeep && r.q == (qmode == QSet)
    ensures Matches(EmitCbWriteBack(e, d, code, res, qmode), CbWriteBack(r, d, code, res), live, mlive, r.pc)
  {
    hide SetReg8, IdxAddr, EffectiveAddr, Agree;
    AddrSim(e, r, d);
    Reg8Sim(e, r, code, 0, res);
  }

  lemma BitMatches(d: Decoded, code: bv8, n: bv8, live: bv8, mlive: bool, e: Regs, r: Regs, m: Memory)
    requires n <= 7 && Ready(e, r, (live & 0x01) | FLAG_C, mlive)
    requires !IsIndexPrefix(d.prefix) && code == 6 ==> e.memptr == r.memptr
    ensures Matches(EmitBitOp(e, m, d, code, n, live), ExecBit(r, m, d, code, n), live, mlive, r.pc)
  {
    hide Hi, IdxAddr, EffectiveAddr, EmitBit, BitFlags, EmitCbOperand, CbOperand, Agree;
    AddrSim(e, r, d);
    CbOperandSim(e, r, m, d, code);
    var v := CbOperand(r, m, d, code);
    var xy := if IsIndexPrefix(d.prefix) then Hi(EffectiveAddr(r, d)) else if code == 6 then Hi(r.memptr) else v;
    BitAgrees(n, v, xy, e.f, r.f, live);
  }

  lemma RotateMatches(d: Decoded, code: bv8, n: bv8, live: bv8, mlive: bool, e: Regs, r: Regs, m: Memory)
    requires n <= 7 && Ready(e, r, When(n == 2 || n == 3, FLAG_C), mlive)
    ensures Matches(EmitRotateOp(e, m, d, code, n, live), ExecRotate(r, m, d, code, n), live, mlive, r.pc)
  {
    hide EmitCbRotate, CbRotate, EmitCbOperand, CbOperand, EmitCbWriteBack, CbWriteBack, Agree;
    CbOperandSim(e, r, m, d, code);
    var v := CbOperand(r, m, d, code);
    CbRotateAgrees(n, v, e.f, r.f, live);
    var x, y := EmitCbRotate(n, v, e.f, live), CbRotate(n, v, r.f);
    WriteBackMatches(e.(f := x.f), r.(f := y.f, q := true), d, code, x.v, QSet, live, mlive);
  }

  lemma CbMatches(d: Decoded, live: bv8, mlive: bool, e: Regs, r: Regs, m: Memory)
    requires d.ty == Flag(Cb) && CanTranslate(d)
    requires Ready(e, r, LiveBefore(d, live), MemptrLiveBefore(d, mlive))
    ensures Matches(EmitCb(e, m, d, live), ExecCb(r, m, d), live, mlive, r.pc)
  {
    hide EmitBitOp, ExecBit, EmitRotateOp, ExecRotate, EmitCbWriteBack, CbWriteBack, EmitCbOperand, CbOperand, ResSet,
      LiveBefore, Agree, Matches;
    var code, n, family := d.imm8 & 7, (d.imm8 >> 3) & 7, d.imm8 >> 6;
    LiveAroundCb(d, live, e.f, r.f);
    if family == 1 {
      BitMatches(d, code, n, live, mlive, e, r, m);
    } else if family == 0 {
      RotateMatches(d, code, n, live, mlive, e, r, m);
    } else {
      CbOperandSim(e, r, m, d, code);
      WriteBackMatches(e, r, d, code, ResSet(family, n, CbOperand(r, m, d, code)), QClear, live, mlive);
    }
  }

  lemma LiveAroundCb(d: Decoded, live: bv8, fe: bv8, fs: bv8)
    requires d.ty == Flag(Cb) && Agree(fe, fs, LiveBefore(d, live))
    ensures (d.imm8 >> 3) & 7 <= 7
    ensures d.imm8 >> 6 == 0 ==> Agree(fe, fs, When((d.imm8 >> 3) & 7 == 2 || (d.imm8 >> 3) & 7 == 3, FLAG_C))
    ensures d.imm8 >> 6 == 1 ==> Agree(fe, fs, (live & 0x01) | FLAG_C)
    ensures d.imm8 >> 6 != 0 && d.imm8 >> 6 != 1 ==> Agree(fe, fs, live)
  {
  }

  /** The indexed copy of the helper stores what the interpreter's pointer-stepping loop stores. */
  lemma {:induction false} BlockCopyStores(m: Memory, hl: Addr, de: Addr, i: nat, bc: nat, incr: int)
    requires i <= bc
    ensures HelperStores(m, hl, de, i, bc, incr) == BlockStores(m, Moved(hl, incr, i), Moved(de, incr, i), bc - i, incr)
    decreases bc - i
  {
    hide Wrap, Rd, Moved;
    if i < bc {
      MovedNext(hl, incr, i);
      MovedNext(de, incr, i);
      BlockCopyStores(m[Moved(de, incr, i) := Rd(m, Moved(hl, incr, i))], hl, de, i + 1, bc, incr);
    }
  }

  lemma BlockCopyMatches(incr: int, live: bv8, mlive: bool, e: Regs, r: Regs, m: Memory)
    requires Ready(e, r, 0xFF, mlive)
    ensures Matches(EmitBlockCopy(e, m, incr), ExecBlockCopy(r, m, incr), live, mlive, r.pc)
  {
    hide HelperStores, BlockStores, LastByte, BlockFlags, Agree, Moved;
    AgreeAll(e.f, r.f);
    BlockCopyStores(m, r.hl, r.de, 0, r.bc, incr);
    MovedNone(r.hl, incr);
    MovedNone(r.de, incr);
    SameAgree(ExecBlockCopy(r, m, incr).regs.f, live);
  }

  /** DAA reads only C, H and N. */
  lemma DaaMatches(d: Decoded, prevQ: PrevQ, q: bool, live: bv8, mlive: bool, e: Regs, r: Regs, m: Memory)
    requires Ready(e, r, (live & 0) | (FLAG_C | FLAG_H | FLAG_N), mlive)
    ensures Matches(EmitFlag(Daa, d, prevQ, live, e, m), ExecFlag(Daa, r, m, d, q), live, mlive, r.pc)
  {
    hide Agree, DaaStep, DaaEntry, DaaIndex, Lo, Hi;
    AgreeLess(e.f, r.f, (live & 0) | (FLAG_C | FLAG_H | FLAG_N), FLAG_C | FLAG_H | FLAG_N);
    DaaReads(r.a, e.f, r.f);
    TableIsDaa(r.a, e.f);
    SameAgree(DaaStep(r.a, r.f).f, live);
    NothingLive(e.f, DaaStep(r.a, r.f).f);
  }

  lemma CplMatches(d: Decoded, prevQ: PrevQ, q: bool, live: bv8, mlive: bool, e: Regs, r: Regs, m: Memory)
    requires Ready(e, r, (live & !0x3A) | (FLAG_SZP | FLAG_C), mlive)
    ensures Matches(EmitFlag(Cpl, d, prevQ, live, e, m), ExecFlag(Cpl, r, m, d, q), live, mlive, r.pc)
  {
    hide Agree, EmitCpl, CplFlags;
    AgreeLess(e.f, r.f, (live & !0x3A) | (FLAG_SZP | FLAG_C), (live & 0xC5) | FLAG_SZP | FLAG_C);
    CplAgrees(r.a, e.f, r.f, live);
  }

  lemma ScfCcfMatches(op: FlagOp, d: Decoded, prevQ: PrevQ, q: bool, live: bv8, mlive: bool, e: Regs, r: Regs,
                      m: Memory)
    requires (op.Scf? || op.Ccf?) && Ready(e, r, (live & !0x3B) | 0xFF, mlive)
    requires match prevQ case Runtime => e.q == q case Known(k) => q == k
    ensures Matches(EmitFlag(op, d, prevQ, live, e, m), ExecFlag(op, r, m, d, q), live, mlive, r.pc)
  {
    hide Agree, EmitScfCcf, ScfFlags, CcfFlags;
    AgreeLess(e.f, r.f, (live & !0x3B) | 0xFF, 0xFF);
    AgreeAll(e.f, r.f);
    ScfCcfAgrees(op.Scf?, r.a, r.f, q, e.q, prevQ, live);
  }

  lemma AccRotateMatches(op: FlagOp, d: Decoded, prevQ: PrevQ, q: bool, live: bv8, mlive: bool, e: Regs, r: Regs,
                         m: Memory)
    requires (op.Rlca? || op.Rrca? || op.Rla? || op.Rra?)
    requires Ready(e, r, (live & !0x3B) | (FLAG_SZP | When(op.Rla? || op.Rra?, FLAG_C)), mlive)
    ensures Matches(EmitFlag(op, d, prevQ, live, e, m), ExecFlag(op, r, m, d, q), live, mlive, r.pc)
  {
    hide Agree, EmitAccRotate, AccRotate;
    AgreeLess(e.f, r.f, (live & !0x3B) | (FLAG_SZP | When(op.Rla? || op.Rra?, FLAG_C)),
              (live & 0xC4) | FLAG_SZP | When(op.Rla? || op.Rra?, FLAG_C));
    AccRotateAgrees(op, r.a, e.f, r.f, live);
  }

  predicate IsAluOp(op: FlagOp) { op.AluR? || op.AluN? || op.AluInd? }

  lemma AluOpMatches(op: FlagOp, d: Decoded, prevQ: PrevQ, q: bool, live: bv8, mlive: bool, e: Regs, r: Regs, m: Memory)
    requires IsAluOp(op) && d.ty == Flag(op) && CanTranslate(d)
    requires Ready(e, r, (live & !AluEffects(op.alu).wr) | AluEffects(op.alu).rd, mlive)
    ensures Matches(EmitFlag(op, d, prevQ, live, e, m), ExecFlag(op, r, m, d, q), live, mlive, r.pc)
  {
    hide Rd, GetReg8, IdxAddr, EffectiveAddr, EmitAluOn, WithAlu, Alu8, AluEffects, Agree, Matches;
    AddrSim(e, r, d);
    Reg8Sim(e, r, d.reg1, d.prefix, 0);
    AluMatches(op.alu, if op.AluN? then d.imm8 else if op.AluInd? then Rd(m, EffectiveAddr(r, d))
        else ReadReg8(r, m, d.reg1, d),
               live, mlive, e, r);
  }

  predicate IsIncDecOp(op: FlagOp) { op.IncR? || op.DecR? || op.IncInd? || op.DecInd? }

  lemma IncDecOpMatches(op: FlagOp, d: Decoded, prevQ: PrevQ, q: bool, live: bv8, mlive: bool, e: Regs, r: Regs,
                        m: Memory)
    requires IsIncDecOp(op) && d.ty == Flag(op) && CanTranslate(d)
    requires Ready(e, r, (live & !0xFE) | FLAG_C, mlive)
    ensures Matches(EmitFlag(op, d, prevQ, live, e, m), ExecFlag(op, r, m, d, q), live, mlive, r.pc)
  {
    hide GetReg8, SetReg8, MemAddr, EffectiveAddr, EmitIncDecAt, ExecIncDec, EmitIncDec, Agree, Matches;
    AddrSim(e, r, d);
    AgreeLess(e.f, r.f, (live & !0xFE) | FLAG_C, (live & 0x01) | FLAG_C);
    var isInc := op.IncR? || op.IncInd?;
    if op.IncInd? || op.DecInd? || d.reg1 == 6 {
      IncDecMemMatches(isInc, d, EffectiveAddr(r, d), live, mlive, e, r, m);
    } else {
      IncDecMatches(isInc, d, d.reg1, live, mlive, e, r, m);
    }
  }

  /** A flag operation, whatever it is. */
  lemma FlagMatches(op: FlagOp, d: Decoded, prevQ: PrevQ, q: bool, live: bv8, mlive: bool, e: Regs, r: Regs, m: Memory)
    requires d.ty == Flag(op) && CanTranslate(d)
    requires Ready(e, r, LiveBefore(d, live), MemptrLiveBefore(d, mlive))
    requires match prevQ case Runtime => e.q == q case Known(k) => q == k
    ensures Matches(EmitFlag(op, d, prevQ, live, e, m), ExecFlag(op, r, m, d, q), live, mlive, r.pc)
  {
    hide CanTranslate, Agree, Matches, EmitCb, ExecCb, EmitBlockCopy, ExecBlockCopy;
    if op.Cb? {
      CbMatches(d, live, mlive, e, r, m);
    } else if IsAluOp(op) {
      AluOpMatches(op, d, prevQ, q, live, mlive, e, r, m);
    } else if IsIncDecOp(op) {
      IncDecOpMatches(op, d, prevQ, q, live, mlive, e, r, m);
    } else if op.Ldir? || op.Lddr? {
      AgreeLess(e.f, r.f, LiveBefore(d, live), 0xFF);
      BlockCopyMatches(if op.Ldir? then 1 else -1, live, mlive, e, r, m);
    } else {
      PlainFlagMatches(op, d, prevQ, q, live, mlive, e, r, m);
    }
  }

  lemma PlainFlagMatches(op: FlagOp, d: Decoded, prevQ: PrevQ, q: bool, live: bv8, mlive: bool, e: Regs, r: Regs,
                         m: Memory)
    requires d.ty == Flag(op) && !op.Cb? && !IsAluOp(op) && !IsIncDecOp(op) && !op.Ldir? && !op.Lddr?
    requires Ready(e, r, LiveBefore(d, live), mlive)
    requires match prevQ case Runtime => e.q == q case Known(k) => q == k
    ensures Matches(EmitFlag(op, d, prevQ, live, e, m), ExecFlag(op, r, m, d, q), live, mlive, r.pc)
  {
    hide Agree, Matches, EmitFlag, ExecFlag;
    if op.Daa? {
      AgreeLess(e.f, r.f, LiveBefore(d, live), (live & 0) | (FLAG_C | FLAG_H | FLAG_N));
      DaaMatches(d, prevQ, q, live, mlive, e, r, m);
    } else if op.Cpl? {
      CplMatches(d, prevQ, q, live, mlive, e, r, m);
    } else if op.Scf? || op.Ccf? {
      ScfCcfMatches(op, d, prevQ, q, live, mlive, e, r, m);
    } else {
      AccRotateMatches(op, d, prevQ, q, live, mlive, e, r, m);
    }
  }

  lemma NoFlagEffect(d: Decoded, live: bv8)
    requires d.ty.Load? || (d.ty.Ptr? && !d.ty.ptr.AddHlRr?)
    ensures LiveBefore(d, live) == live
  {
  }

  lemma PtrOpMatches(op: PtrOp, d: Decoded, live: bv8, mlive: bool, e: Regs, r: Regs, m: Memory)
    requires d.ty == Ptr(op) && Ready(e, r, LiveBefore(d, live), false)
    ensures Matches(EmitPtr(op, d, live, mlive, e, m), ExecPtr(op, r, m, d), live, mlive, r.pc)
  {
    hide Agree, Matches;
    if op.AddHlRr? {
      AgreeLess(e.f, r.f, LiveBefore(d, live), (live & 0xC4) | FLAG_SZP);
      AddHlMatches(d, live, mlive, e, r);
    } else {
      NoFlagEffect(d, live);
      PtrMatches(op, d, live, mlive, e, r, m);
    }
  }

  /** Main result of this module: any translatable straight-line instruction, translated with any live
      masks, refines the interpreter's step on exactly the bits the masks keep. */
  lemma OpMatches(host: Host, d: Decoded, prevQ: PrevQ, live: bv8, mlive: bool, e: Regs, s: Regs, m: Memory)
    requires CanTranslate(d) && !d.ty.Branch?
    requires Sim(e, s, LiveBefore(d, live), MemptrLiveBefore(d, mlive), prevQ)
    ensures Matches(EmitOp(d, prevQ, live, MemptrStored(d, mlive), e, m), Exec(host, d, s, m),
                    live, mlive, Wrap(s.pc + d.bytes))
  {
    hide Wrap, Agree, Matches, EmitLoad, ExecLoad, EmitPtr, ExecPtr, EmitFlag, ExecFlag, EmitStack, ExecStack,
         LiveBefore;
    var r := s.(pc := Wrap(s.pc + d.bytes), q := false);
    if d.ty.Load? {
      NoFlagEffect(d, live);
      LoadMatches(d.ty.load, d, live, mlive, e, r, m);
    } else if d.ty.Ptr? {
      PtrOpMatches(d.ty.ptr, d, live, mlive, e, r, m);
    } else if d.ty.Flag? {
      FlagMatches(d.ty.flag, d, prevQ, s.q, live, mlive, e, r, m);
    } else if d.ty == Stack(PushRr) {
      PushMatches(d, live, mlive, e, r, m);
    } else {
      assert d.ty.Stack? && d.ty.stack.PopRr?;
      PopMatches(d, live, mlive, e, r, m);
    }
  }
}
