/** Flag code of the translator agrees with the interpreter on every live bit. */
module FlagsProof {
  import opened Bits
  import opened Decoder
  import opened Interp
  import opened Emitter

  // ---- flag code, one instruction family at a time, over all bytes, flags and masks ----

  /** Chunks that sit in their own bit can be dropped one by one. */
  lemma AssembleAgrees(res: bv8, h: bv8, c: bv8, v: bv8, n: bv8, fmask: bv8, fe: bv8)
    requires h & 0xEF == 0 && c & 0xFE == 0 && v & 0xFB == 0 && n & 0xFD == 0
    ensures Agree(if fmask == 0 then fe else AssembleF(FtSzxy(res), h, c, v, n, fmask),
                  n | XyFrom(res) | ZeroSign(res) | h | c | v, fmask)
  {
  }

  /** CP's bits 5 and 3 come from the operand, patched in only when one of them is live. */
  lemma CpAssemble(res: bv8, b: bv8, h: bv8, c: bv8, v: bv8, fmask: bv8)
    requires h & 0xEF == 0 && c & 0xFE == 0 && v & 0xFB == 0
    ensures var szxy1 := if fmask & FLAG_XY != 0 then (FtSzxy(res) & 0xD7) | (b & FLAG_XY) else FtSzxy(res);
      Agree(AssembleF(szxy1, h, c, v, FLAG_N, fmask), FLAG_N | XyFrom(b) | ZeroSign(res) | h | c | v, fmask)
  {
  }

  lemma SumHalf(a: bv8, b: bv8, cin: bv8)
    requires cin <= 1
    ensures HalfBit(a, b, WideSum(a, b, cin)) == When((a & 0xF) + (b & 0xF) + cin > 0xF, FLAG_H)
  {
  }

  lemma SumBits(a: bv8, b: bv8, cin: bv8)
    requires cin <= 1
    ensures var wide := WideSum(a, b, cin);
      && (wide & 0xFF) as bv8 == AddWith(a, b, cin).v
      && CarryBit(wide) == When((a as bv16) + (b as bv16) + (cin as bv16) > 0xFF, FLAG_C)
      && OverflowBit(false, a, b, wide) == When((a ^ b) & 0x80 == 0 && (AddWith(a, b, cin).v ^ a) & 0x80 != 0, FLAG_PV)
  {
  }

  lemma DiffHalf(a: bv8, b: bv8, cin: bv8)
    requires cin <= 1
    ensures HalfBit(a, b, WideDiff(a, b, cin)) == When(((a & 0xF) - (b & 0xF) - cin) & 0x10 != 0, FLAG_H)
    ensures cin == 0 ==> (((a & 0xF) - (b & 0xF) - cin) & 0x10 != 0) == ((a & 0xF) < (b & 0xF))
  {
  }

  /** The carry chunks of a - b - cin, against the interpreter's comparisons. */
  lemma DiffBits(a: bv8, b: bv8, cin: bv8)
    requires cin <= 1
    ensures var wide := WideDiff(a, b, cin);
      && (wide & 0xFF) as bv8 == a - b - cin
      && CarryBit(wide) == When((a as bv16) < (b as bv16) + (cin as bv16), FLAG_C)
      && OverflowBit(true, a, b, wide) == When((a ^ b) & 0x80 != 0 && ((a - b - cin) ^ a) & 0x80 != 0, FLAG_PV)
  {
  }

  /** Every chunk occupies its own bit. */
  lemma ChunkBits(isSub: bool, a: bv8, b: bv8, wide: bv32)
    ensures HalfBit(a, b, wide) & 0xEF == 0 && CarryBit(wide) & 0xFE == 0 && OverflowBit(isSub, a, b, wide) & 0xFB == 0
  {
  }

  lemma SumAgrees(a: bv8, b: bv8, cin: bv8, fe: bv8, fmask: bv8)
    requires cin <= 1
    ensures EmitSum(a, b, WideSum(a, b, cin), false, fe, fmask).v == AddWith(a, b, cin).v
    ensures Agree(EmitSum(a, b, WideSum(a, b, cin), false, fe, fmask).f, AddWith(a, b, cin).f, fmask)
  {
    hide WideSum, HalfBit, CarryBit, OverflowBit, AssembleF, XyFrom, ZeroSign, FtSzxy;
    var wide := WideSum(a, b, cin);
    var res := AddWith(a, b, cin).v;
    SumHalf(a, b, cin);
    SumBits(a, b, cin);
    ChunkBits(false, a, b, wide);
    AssembleAgrees(res, HalfBit(a, b, wide), CarryBit(wide), OverflowBit(false, a, b, wide), 0, fmask, fe);
  }

  lemma DiffAgrees(a: bv8, b: bv8, cin: bv8, fe: bv8, fmask: bv8)
    requires cin <= 1
    ensures EmitSum(a, b, WideDiff(a, b, cin), true, fe, fmask).v == SubWith(a, b, cin).v
    ensures Agree(EmitSum(a, b, WideDiff(a, b, cin), true, fe, fmask).f, SubWith(a, b, cin).f, fmask)
  {
    hide WideDiff, HalfBit, CarryBit, OverflowBit, AssembleF, XyFrom, ZeroSign, FtSzxy;
    var wide := WideDiff(a, b, cin);
    DiffHalf(a, b, cin);
    DiffBits(a, b, cin);
    ChunkBits(true, a, b, wide);
    AssembleAgrees(a - b - cin, HalfBit(a, b, wide), CarryBit(wide), OverflowBit(true, a, b, wide), FLAG_N, fmask, fe);
  }

  lemma CpBits(a: bv8, b: bv8)
    ensures var wide := WideDiff(a, b, 0);
      && (wide & 0xFF) as bv8 == a - b
      && HalfBit(a, b, wide) == When((a & 0xF) < (b & 0xF), FLAG_H)
      && CarryBit(wide) == When(a < b, FLAG_C)
      && OverflowBit(true, a, b, wide) == When((a ^ b) & 0x80 != 0 && ((a - b) ^ a) & 0x80 != 0, FLAG_PV)
  {
  }

  lemma CpAgrees(a: bv8, b: bv8, fe: bv8, fmask: bv8)
    ensures Agree(EmitCp(a, b, fe, fmask), SubFlags(a, b, a - b, b), fmask)
  {
    hide WideDiff, HalfBit, CarryBit, OverflowBit, AssembleF, FtSzxy, XyFrom, ZeroSign;
    if fmask != 0 {
      var wide := WideDiff(a, b, 0);
      CpBits(a, b);
      ChunkBits(true, a, b, wide);
      CpAssemble(a - b, b, HalfBit(a, b, wide), CarryBit(wide), OverflowBit(true, a, b, wide), fmask);
    }
  }

  lemma LogicAgrees(res: bv8, fe: bv8, fmask: bv8)
    ensures Agree(if fmask == 0 then fe else FtLogic(res) | When(fmask & FLAG_H != 0, FLAG_H),
                  (LogicFlags(res) & 0xFC) | FLAG_H, fmask)
    ensures Agree(if fmask == 0 then fe else FtLogic(res), LogicFlags(res) & 0xEC, fmask)
  {
  }

  lemma CarryAgrees(fe: bv8, fs: bv8, mask: bv8)
    requires Agree(fe, fs, mask) && mask & FLAG_C != 0
    ensures fe & FLAG_C == fs & FLAG_C <= 1
  {
  }

  /** emit_alu_inline agrees with the interpreter on A and on every live flag bit. */
  lemma AluAgrees(op: Alu, a: bv8, b: bv8, fe: bv8, fs: bv8, fmask: bv8)
    requires Agree(fe, fs, (fmask & !AluEffects(op).wr) | AluEffects(op).rd)
    ensures EmitAlu(op, a, b, fe, fmask).v == Alu8(op, a, b, fs).v
    ensures Agree(EmitAlu(op, a, b, fe, fmask).f, Alu8(op, a, b, fs).f, fmask)
  {
    hide WideSum, WideDiff, EmitSum, EmitCp, AddWith, SubWith, SubFlags, FtLogic, LogicFlags, Agree;
    if op.Adc? || op.Sbc? {
      CarryAgrees(fe, fs, (fmask & !AluEffects(op).wr) | AluEffects(op).rd);
    }
    match op
    case Add => SumAgrees(a, b, 0, fe, fmask);
    case Adc => SumAgrees(a, b, fe & FLAG_C, fe, fmask);
    case Sbc => DiffAgrees(a, b, fe & FLAG_C, fe, fmask);
    case Sub =>
      DiffAgrees(a, b, 0, fe, fmask);
      SubWithZero(a, b);
    case Cp => CpAgrees(a, b, fe, fmask);
    case And => LogicAgrees(a & b, fe, fmask);
    case Xor => LogicAgrees(a ^ b, fe, fmask);
    case Or => LogicAgrees(a | b, fe, fmask);
  }

  lemma SubWithZero(a: bv8, b: bv8)
    ensures SubWith(a, b, 0) == Res8(a - b, SubFlags(a, b, a - b, a - b))
  {
    DiffHalf(a, b, 0);
  }

  lemma IncAgrees(v: bv8, fe: bv8, fs: bv8, fmask: bv8)
    requires Agree(fe, fs, (fmask & 0x01) | FLAG_C)
    ensures EmitIncDec(true, v, fe, fmask).v == Inc8(v, fs).v
            && Agree(EmitIncDec(true, v, fe, fmask).f, Inc8(v, fs).f, fmask)
  {
  }

  lemma DecAgrees(v: bv8, fe: bv8, fs: bv8, fmask: bv8)
    requires Agree(fe, fs, (fmask & 0x01) | FLAG_C)
    ensures EmitIncDec(false, v, fe, fmask).v == Dec8(v, fs).v
            && Agree(EmitIncDec(false, v, fe, fmask).f, Dec8(v, fs).f, fmask)
  {
  }

  lemma IncDecAgrees(isInc: bool, v: bv8, fe: bv8, fs: bv8, fmask: bv8)
    requires Agree(fe, fs, (fmask & 0x01) | FLAG_C)
    ensures EmitIncDec(isInc, v, fe, fmask).v == IncDec8(isInc, v, fs).v
    ensures Agree(EmitIncDec(isInc, v, fe, fmask).f, IncDec8(isInc, v, fs).f, fmask)
  {
    hide EmitIncDec, Inc8, Dec8, Agree;
    if isInc {
      IncAgrees(v, fe, fs, fmask);
    } else {
      DecAgrees(v, fe, fs, fmask);
    }
  }

  lemma CbRotateAgrees(grp: bv8, v: bv8, fe: bv8, fs: bv8, fmask: bv8)
    requires grp <= 7
    requires Agree(fe, fs, When(grp == 2 || grp == 3, FLAG_C))
    ensures EmitCbRotate(grp, v, fe, fmask).v == CbRotate(grp, v, fs).v
    ensures Agree(EmitCbRotate(grp, v, fe, fmask).f, CbRotate(grp, v, fs).f, fmask)
  {
  }

  lemma BitAgrees(n: bv8, v: bv8, xy: bv8, fe: bv8, fs: bv8, fmask: bv8)
    requires n <= 7 && Agree(fe, fs, (fmask & 0x01) | FLAG_C)
    ensures Agree(EmitBit(n, v, xy, fe, fmask), BitFlags(n, v, xy, fs), fmask)
  {
  }

  lemma AccRotateAgrees(op: FlagOp, a: bv8, fe: bv8, fs: bv8, fmask: bv8)
    requires op.Rlca? || op.Rrca? || op.Rla? || op.Rra?
    requires Agree(fe, fs, (fmask & 0xC4) | FLAG_SZP | When(op.Rla? || op.Rra?, FLAG_C))
    ensures EmitAccRotate(op, a, fe, fmask).v == AccRotate(op, a, fs).v
    ensures Agree(EmitAccRotate(op, a, fe, fmask).f, AccRotate(op, a, fs).f, fmask)
  {
  }

  lemma AddHlAgrees(x: bv16, y: bv16, fe: bv8, fs: bv8, fmask: bv8)
    requires Agree(fe, fs, FLAG_SZP)
    ensures Agree(EmitAddHl(x, y, fe, fmask), AddHlFlags(x, y, fs), fmask)
  {
  }

  lemma CplAgrees(a: bv8, fe: bv8, fs: bv8, fmask: bv8)
    requires Agree(fe, fs, (fmask & 0xC5) | FLAG_SZP | FLAG_C)
    ensures EmitCpl(a, fe, fmask).v == !a
    ensures Agree(EmitCpl(a, fe, fmask).f, CplFlags(!a, fs), fmask)
  {
  }

  lemma ScfCcfAgrees(isScf: bool, a: bv8, f: bv8, q: bool, eq: bool, prevQ: PrevQ, fmask: bv8)
    requires match prevQ case Runtime => eq == q case Known(k) => q == k
    ensures Agree(EmitScfCcf(isScf, a, f, eq, prevQ, fmask),
                  if isScf then ScfFlags(a, f, q) else CcfFlags(a, f, q), fmask)
  {
  }

  lemma DaaReads(a: bv8, fe: bv8, fs: bv8)
    requires Agree(fe, fs, FLAG_C | FLAG_H | FLAG_N)
    ensures DaaStep(a, fe) == DaaStep(a, fs)
  {
    hide DaaCore;
  }

  lemma AgreeLess(fe: bv8, fs: bv8, more: bv8, less: bv8)
    requires Agree(fe, fs, more) && less & !more == 0
    ensures Agree(fe, fs, less)
  {
  }
}
