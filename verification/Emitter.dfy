/** What one translated instruction does to guest state (dbt/dbt_a64.c, emit_op), and why
    skipping dead flag bits and dead memptr stores is sound. */
module Emitter {
  import opened Bits
  import opened Decoder
  import opened Interp

  // ---- result-indexed flag tables (dbt/dbt_flags.c, z80_flag_tables_init) ----

  function FtSzxy(r: bv8): bv8 { XyFrom(r) | When(r == 0, FLAG_Z) | When(r & 0x80 != 0, FLAG_S) }
  function FtLogic(r: bv8): bv8 { FtSzxy(r) | Parity8(r) }
  function FtInc(r: bv8): bv8 { FtSzxy(r) | When(r & 0xF == 0, FLAG_H) | When(r == 0x80, FLAG_PV) }
  function FtDec(r: bv8): bv8 { FtSzxy(r) | FLAG_N | When(r & 0xF == 0xF, FLAG_H) | When(r == 0x7F, FLAG_PV) }

  // ---- flag code, guarded by the live mask ----

  /** The 32-bit host sum and difference; `cin` is 0 for the forms without carry-in. */
  function WideSum(a: bv8, b: bv8, cin: bv8): bv32 { (a as bv32) + (b as bv32) + (cin as bv32) }
  function WideDiff(a: bv8, b: bv8, cin: bv8): bv32 { (a as bv32) - (b as bv32) - (cin as bv32) }

  /** H: bit 4 of a ^ b ^ wide result is the carry into bit 4, for add and for subtract. */
  function HalfBit(a: bv8, b: bv8, wide: bv32): bv8 { (((a as bv32) ^ (b as bv32) ^ wide) & 0x10) as bv8 }

  /** C: bit 8 of the wide result; a borrow sign-extends into it. */
  function CarryBit(wide: bv32): bv8 { ((wide >> 8) & 1) as bv8 }

  /** V, moved from bit 7 to P/V's place. */
  function OverflowBit(isSub: bool, a: bv8, b: bv8, wide: bv32): bv8 {
    var w12 := if isSub then (a as bv32) ^ (b as bv32) else !((a as bv32) ^ (b as bv32));
    ((((w12 & ((a as bv32) ^ (wide & 0xFF))) >> 7) << 2) & 0xFF) as bv8
  }

  /** The F chunks of the add/subtract family, each skipped when its bit is dead. */
  function AssembleF(szxy: bv8, h: bv8, c: bv8, v: bv8, n: bv8, fmask: bv8): bv8 {
    szxy | When(fmask & FLAG_H != 0, h) | When(fmask & FLAG_C != 0, c) | When(fmask & FLAG_PV != 0, v)
      | When(fmask & FLAG_N != 0, n)
  }

  /** emit_alu_inline on 32-bit host registers. */
  function EmitAlu(op: Alu, a: bv8, b: bv8, f: bv8, fmask: bv8): Res8 {
    match op
    case And => Res8(a & b, if fmask == 0 then f else FtLogic(a & b) | When(fmask & FLAG_H != 0, FLAG_H))
    case Or => Res8(a | b, if fmask == 0 then f else FtLogic(a | b))
    case Xor => Res8(a ^ b, if fmask == 0 then f else FtLogic(a ^ b))
    case Add => EmitSum(a, b, WideSum(a, b, 0), false, f, fmask)
    case Adc => EmitSum(a, b, WideSum(a, b, f & FLAG_C), false, f, fmask)
    case Sub => EmitSum(a, b, WideDiff(a, b, 0), true, f, fmask)
    case Sbc => EmitSum(a, b, WideDiff(a, b, f & FLAG_C), true, f, fmask)
    case Cp => Res8(a, EmitCp(a, b, f, fmask))
  }

  /** CP writes flags only; bits 5 and 3 come from the operand, patched in when one of them is live. */
  function EmitCp(a: bv8, b: bv8, f: bv8, fmask: bv8): bv8 {
    if fmask == 0 then f
    else
      var wide := WideDiff(a, b, 0);
      var szxy := FtSzxy((wide & 0xFF) as bv8);
      var szxy1 := if fmask & FLAG_XY != 0 then (szxy & 0xD7) | (b & FLAG_XY) else szxy;
      AssembleF(szxy1, HalfBit(a, b, wide), CarryBit(wide), OverflowBit(true, a, b, wide), FLAG_N, fmask)
  }

  function EmitSum(a: bv8, b: bv8, wide: bv32, isSub: bool, f: bv8, fmask: bv8): Res8 {
    var res := (wide & 0xFF) as bv8;
    if fmask == 0 then Res8(res, f)
    else Res8(res, AssembleF(FtSzxy(res), HalfBit(a, b, wide), CarryBit(wide), OverflowBit(isSub, a, b, wide),
                             When(isSub, FLAG_N), fmask))
  }

  /** emit_incdec8_inline: F is left alone when nothing but C is live. */
  function EmitIncDec(isInc: bool, v: bv8, f: bv8, fmask: bv8): Res8 {
    var res := if isInc then v + 1 else v - 1;
    if fmask & 0xFE == 0 then Res8(res, f)
    else Res8(res, (if isInc then FtInc(res) else FtDec(res)) | When(fmask & FLAG_C != 0, f & FLAG_C))
  }

  /** emit_cb_rotshift_inline. */
  function EmitCbRotate(grp: bv8, v: bv8, f: bv8, fmask: bv8): Res8 {
    var w := v as bv32;
    var w11 := (f & FLAG_C) as bv32;
    var w10: bv32 := if grp & 1 == 0 then w >> 7 else w & 1;
    var w9: bv32 :=
      if grp == 0 then ((w << 1) | w10) & 0xFF else if grp == 1 then (w >> 1) | (w10 << 7)
      else if grp == 2 then ((w << 1) | w11) & 0xFF else if grp == 3 then (w >> 1) | (w11 << 7)
      else if grp == 4 then (w << 1) & 0xFF else if grp == 5 then (w >> 1) | (w & 0x80)
      else if grp == 6 then ((w << 1) | 1) & 0xFF else w >> 1;
    var res := (w9 & 0xFF) as bv8;
    Res8(res, if fmask == 0 then f else FtLogic(res) | When(fmask & FLAG_C != 0, (w10 & 1) as bv8))
  }

  /** BIT vanishes when its flags are dead; otherwise emit_cb_bit_inline. */
  function EmitBit(n: bv8, v: bv8, xy: bv8, f: bv8, fmask: bv8): bv8 {
    if fmask & 0xFE == 0 then f
    else
      var pick := if v & BitMask(n) == 0 then FLAG_Z | FLAG_PV | FLAG_H else When(n == 7, FLAG_S) | FLAG_H;
      (f & FLAG_C) | pick | (xy & FLAG_XY)
  }

  /** Accumulator rotates: the new A, then the live flag chunks. */
  function EmitAccRotate(op: FlagOp, a: bv8, f: bv8, fmask: bv8): Res8 {
    var w := a as bv32;
    var cin := (f & FLAG_C) as bv32;
    var left := op.Rlca? || op.Rla?;
    var w10 := if left then w >> 7 else w & 1;
    var fill := if op.Rlca? || op.Rrca? then w10 else cin;
    var res := (if left then ((w << 1) | fill) & 0xFF else ((w >> 1) | (fill << 7)) & 0xFF) as bv8;
    if fmask & 0x3B == 0 then Res8(res, f)
    else
      Res8(res, (f & FLAG_SZP) | When(fmask & FLAG_C != 0, (w10 & 1) as bv8) | When(fmask & FLAG_XY != 0,
          res & FLAG_XY))
  }

  /** ADD HL flags: the half carry is bit 12 of dst ^ src ^ sum. */
  function EmitAddHl(x: bv16, y: bv16, f: bv8, fmask: bv8): bv8 {
    if fmask & 0x3B == 0 then f
    else
      var w9 := x as bv32;
      var ws := y as bv32;
      var w13 := w9 + ws;
      var f0 := f & FLAG_SZP;
      var f1 := if fmask & FLAG_H != 0 then f0 | ((((w9 ^ ws ^ w13) >> 8) & 0x10) as bv8) else f0;
      var f2 := if fmask & FLAG_C != 0 then f1 | (((w13 >> 16) & 0xFF) as bv8) else f1;
      if fmask & FLAG_XY != 0 then f2 | (((w13 >> 8) & 0x28) as bv8) else f2
  }

  /** F of ADD HL,rr; `self` says that it is ADD HL,HL. */
  function EmitAddHlW(x: Addr, y: Addr, self: bool, f: bv8, fmask: bv8): bv8 {
    if BACKEND.X64? then TableAddHl(x as bv16, y as bv16, self, f, fmask) else EmitAddHl(x as bv16, y as bv16, f, fmask)
  }

  // ---- the x86-64 forms (dbt/dbt_x64.c) ----

  datatype Backend = AArch64 | X64

  /** The backend that emits.  Left open: what is proved holds for either. */
  const BACKEND: Backend

  /** Result and status flags of an 8-bit x86 ADD, ADC, SUB, SBB or CMP. */
  datatype HostAlu = HostAlu(v: bv8, cf: bool, af: bool, of: bool)

  function HostAdd(a: bv8, b: bv8, cin: bv8): HostAlu {
    var wide := (a as bv16) + (b as bv16) + (cin as bv16);
    var v := (wide & 0xFF) as bv8;
    HostAlu(v, wide & 0x100 != 0, (a ^ b ^ v) & 0x10 != 0, (a ^ v) & (b ^ v) & 0x80 != 0)
  }

  function HostSub(a: bv8, b: bv8, cin: bv8): HostAlu {
    var v := a - b - cin;
    HostAlu(v, (a as bv16) < (b as bv16) + (cin as bv16), (a ^ b ^ v) & 0x10 != 0, (a ^ b) & (a ^ v) & 0x80 != 0)
  }

  /** What LAHF puts in AH: SF ZF 0 AF 0 PF 1 CF; bit 1 is always set. */
  function Lahf(h: HostAlu, pf: bool): bv8 {
    When(h.v & 0x80 != 0, 0x80) | When(h.v == 0, 0x40) | When(h.af, 0x10) | When(pf, 0x04) | 0x02 | When(h.cf, 0x01)
  }

  /** F of the add and subtract family.  `xy` is the byte bits 5 and 3 come from; `pf` is the host's parity flag, which
      is never kept. */
  function NativeF(h: HostAlu, pf: bool, isSub: bool, xy: bv8, fmask: bv8): bv8 {
    if fmask == FLAG_C then When(h.cf, FLAG_C)
    else
      var lahf := fmask & (FLAG_S | FLAG_Z | FLAG_H | FLAG_C);
      var base := if lahf != 0 then Lahf(h, pf) & (lahf | When(isSub, FLAG_N))
          else When(isSub && fmask & FLAG_N != 0, FLAG_N);
      base | When(fmask & FLAG_PV != 0 && h.of, FLAG_PV) | When(fmask & FLAG_XY != 0, xy & FLAG_XY)
  }

  function NativeAlu(op: Alu, a: bv8, b: bv8, f: bv8, pf: bool, fmask: bv8): Res8 {
    match op
    case And => Res8(a & b, if fmask == 0 then f else FtLogic(a & b) | When(fmask & FLAG_H != 0, FLAG_H))
    case Or => Res8(a | b, if fmask == 0 then f else FtLogic(a | b))
    case Xor => Res8(a ^ b, if fmask == 0 then f else FtLogic(a ^ b))
    case Add => NativeSum(HostAdd(a, b, 0), pf, false, f, fmask)
    case Adc => NativeSum(HostAdd(a, b, f & FLAG_C), pf, false, f, fmask)
    case Sub => NativeSum(HostSub(a, b, 0), pf, true, f, fmask)
    case Sbc => NativeSum(HostSub(a, b, f & FLAG_C), pf, true, f, fmask)
    case Cp => Res8(a, if fmask == 0 then f else NativeF(HostSub(a, b, 0), pf, true, b, fmask))
  }

  function NativeSum(h: HostAlu, pf: bool, isSub: bool, f: bv8, fmask: bv8): Res8 {
    Res8(h.v, if fmask == 0 then f else NativeF(h, pf, isSub, h.v, fmask))
  }

  /** z80_add16_table. */
  function Add16Entry(v: bv16): bv8 { ((v & 0x38) | (v >> 8)) as bv8 }

  /** The nine-bit index: bit 8 is the carry, bit 4 the recovered half carry, bits 5 and 3 the result's. */
  function Add16Index(x: bv16, y: bv16, fixHalf: bool): bv16 {
    var t := (x as bv32) + (y as bv32);
    var u := if fixHalf then t ^ (((x ^ y) & 0x1000) as bv32) else t;
    ((u >> 8) & 0x1FF) as bv16
  }

  function TableAddHl(x: bv16, y: bv16, self: bool, f: bv8, fmask: bv8): bv8 {
    if fmask & 0x3B == 0 then f
    else (f & FLAG_SZP) | When(fmask & 0x39 != 0, Add16Entry(Add16Index(x, y, fmask & FLAG_H != 0 && !self)))
  }

  /** One DAA table entry: F in the high byte, A in the low byte. */
  function DaaEntry(i: Addr): Addr {
    var r := DaaStep(Lo(i), Hi(i) & (FLAG_C | FLAG_N | FLAG_H));
    Word(r.f, r.v)
  }

  /** The index emitted code computes from A and F. */
  function DaaIndex(a: bv8, f: bv8): Addr { Word(f & (FLAG_C | FLAG_N | FLAG_H), a) }

  function EmitCpl(a: bv8, f: bv8, fmask: bv8): Res8 {
    var res := !a;
    Res8(res, if fmask & 0x3A == 0 then f else (f & 0xD7) | FLAG_H | FLAG_N | (res & FLAG_XY))
  }

  /** What is known about the previous instruction's q while translating. */
  datatype PrevQ = Runtime | Known(q: bool)

  function EmitScfCcf(isScf: bool, a: bv8, f: bv8, q: bool, prevQ: PrevQ, fmask: bv8): bv8 {
    if fmask & 0x3B == 0 then f
    else
      var w13 := match prevQ
                 case Known(true) => a
                 case Known(false) => a | f
                 case Runtime => if q then a else a | f;
      var oldC := f & FLAG_C;
      if isScf then (f & FLAG_SZP) | FLAG_C | (w13 & FLAG_XY)
      else (f & FLAG_SZP) | (oldC ^ 1) | (oldC << 4) | (w13 & FLAG_XY)
  }

  // ---- what the translator accepts ----

  predicate Reg8Code(code: bv8) { code <= 9 && code != 6 }

  predicate CanTranslate(d: Decoded) {
    var idx := IsIndexPrefix(d.prefix);
    match d.ty
    case Load(op) => (
      match op
      case LdRN => Reg8Code(d.reg1)
      case LdRR =>
        if d.reg1 == 6 then !idx && Reg8Code(d.reg2)
        else if d.reg2 == 6 then !idx && Reg8Code(d.reg1)
        else Reg8Code(d.reg1) && Reg8Code(d.reg2)
      case LdRrNn | IncRr | DecRr => d.reg1 <= 3
      case LdSpHl => true
      case LdAInd | LdIndA | LdIndN => idx
      case LdRInd | LdIndR => idx && Reg8Code(d.reg2)
      case Nop | LdHlN | ExDeHl => !idx)
    case Ptr(op) => (
      match op
      case AddHlRr => d.reg1 <= 3
      case LdHlIndNn | LdNnHl | ExSpHl => true
      case _ => !idx)
    case Flag(op) => (
      match op
      case AluR(_) | IncR | DecR => if d.reg1 == 6 then !idx else Reg8Code(d.reg1)
      case AluInd(_) => idx
      case IncInd | DecInd | Ldir | Lddr => true
      case Cb => d.prefix == 0xCB || idx
      case _ => !idx)
    case Stack(_) => if d.reg1 <= 2 then true else if d.reg1 == 3 then !idx else d.reg1 == 4 && idx
    case Branch(op) => if op.JpHl? then !idx else if op.CallNn? || op.CallCc? then d.imm16 != 0 else true
    case Other(_) => false
  }

  // ---- one translated instruction ----

  /** What the block tail must do to q: store 0, trust the helper, store 1. */
  datatype QMode = QClear | QKeep | QSet

  datatype EmitOut = EmitOut(regs: Regs, writes: seq<Store>, qmode: QMode)

  function Fall(r: Regs): EmitOut { EmitOut(r, [], QClear) }
  function FallStore(r: Regs, addr: Addr, v: bv8): EmitOut { EmitOut(r, [Store(addr, v)], QClear) }

  function Memptr(r: Regs, store: bool, v: Addr): Regs { if store then r.(memptr := v) else r }

  function IdxAddr(e: Regs, d: Decoded): Addr {
    Wrap((if d.prefix == 0xFD then e.iy else e.ix) + Signed(d.disp))
  }

  /** (HL), or (IX+d)/(IY+d) under a prefix. */
  function MemAddr(e: Regs, d: Decoded): Addr { if IsIndexPrefix(d.prefix) then IdxAddr(e, d) else e.hl }

  function EmitIncDecAt(e: Regs, m: Memory, addr: Addr, isInc: bool, fmask: bv8): EmitOut {
    var x := EmitIncDec(isInc, Rd(m, addr), e.f, fmask);
    EmitOut(e.(f := x.f), [Store(addr, x.v)], QSet)
  }

  function EmitIncDecReg(e: Regs, m: Memory, d: Decoded, isInc: bool, fmask: bv8): EmitOut {
    if d.reg1 == 6 then EmitIncDecAt(e, m, e.hl, isInc, fmask)
    else
      var x := EmitIncDec(isInc, GetReg8(e, d.reg1, d.prefix), e.f, fmask);
      EmitOut(SetReg8(e.(f := x.f), d.reg1, d.prefix, x.v), [], QSet)
  }

  /** emit_alu_inline of the backend; the host's parity flag is that of the result. */
  function AluCode(op: Alu, a: bv8, b: bv8, f: bv8, fmask: bv8): Res8 {
    var res := if op.Cp? then a - b else Alu8(op, a, b, f).v;
    if BACKEND.X64? then NativeAlu(op, a, b, f, Parity8(res) != 0, fmask) else EmitAlu(op, a, b, f, fmask)
  }

  /** DAA: a helper call that also sets q, or a table lookup. */
  function EmitDaa(e: Regs, fmask: bv8): EmitOut {
    if BACKEND.X64? then
      var w := DaaEntry(DaaIndex(e.a, e.f));
      EmitOut(e.(a := Lo(w), f := if fmask != 0 then Hi(w) else e.f), [], QSet)
    else
      var x := DaaStep(e.a, e.f);
      EmitOut(e.(a := x.v, f := x.f, q := true), [], QKeep)
  }

  function EmitAluOn(e: Regs, op: Alu, b: bv8, fmask: bv8): EmitOut {
    var x := AluCode(op, e.a, b, e.f, fmask);
    EmitOut(e.(a := x.v, f := x.f), [], QSet)
  }

  function EmitCbOperand(e: Regs, m: Memory, d: Decoded, code: bv8): bv8 {
    if IsIndexPrefix(d.prefix) then Rd(m, IdxAddr(e, d)) else if code == 6 then Rd(m, e.hl) else GetReg8(e, code, 0)
  }

  function EmitCbWriteBack(e: Regs, d: Decoded, code: bv8, res: bv8, qmode: QMode): EmitOut {
    if IsIndexPrefix(d.prefix) then
      EmitOut(if code != 6 then SetReg8(e, code, 0, res) else e, [Store(IdxAddr(e, d), res)], qmode)
    else if code == 6 then EmitOut(e, [Store(e.hl, res)], qmode)
    else EmitOut(SetReg8(e, code, 0, res), [], qmode)
  }

  function EmitBitOp(e: Regs, m: Memory, d: Decoded, code: bv8, n: bv8, fmask: bv8): EmitOut {
    var v := EmitCbOperand(e, m, d, code);
    var xy := if IsIndexPrefix(d.prefix) then Hi(IdxAddr(e, d)) else if code == 6 then Hi(e.memptr) else v;
    EmitOut(e.(f := EmitBit(n, v, xy, e.f, fmask)), [], QSet)
  }

  function EmitRotateOp(e: Regs, m: Memory, d: Decoded, code: bv8, n: bv8, fmask: bv8): EmitOut {
    var x := EmitCbRotate(n, EmitCbOperand(e, m, d, code), e.f, fmask);
    EmitCbWriteBack(e.(f := x.f), d, code, x.v, QSet)
  }

  function EmitCb(e: Regs, m: Memory, d: Decoded, fmask: bv8): EmitOut {
    var code, n, family := d.imm8 & 7, (d.imm8 >> 3) & 7, d.imm8 >> 6;
    if family == 1 then EmitBitOp(e, m, d, code, n, fmask)
    else if family == 0 then EmitRotateOp(e, m, d, code, n, fmask)
    else EmitCbWriteBack(e, d, code, ResSet(family, n, EmitCbOperand(e, m, d, code)), QClear)
  }

  function EmitPushValue(e: Regs, d: Decoded): Addr {
    if d.reg1 <= 2 then GetPair(e, d.reg1)
    else if d.reg1 == 3 then Word(e.a, e.f)
    else if d.prefix == 0xFD then e.iy else e.ix
  }

  function EmitLoad(op: LoadOp, d: Decoded, e: Regs, m: Memory): EmitOut {
    match op
    case Nop => Fall(e)
    case LdRN => Fall(SetReg8(e, d.reg1, d.prefix, d.imm8))
    case LdRR =>
      if d.reg1 == 6 then FallStore(e, e.hl, GetReg8(e, d.reg2, 0))
      else if d.reg2 == 6 then Fall(SetReg8(e, d.reg1, 0, Rd(m, e.hl)))
      else if d.reg1 == d.reg2 then Fall(e)
      else Fall(SetReg8(e, d.reg1, d.prefix, GetReg8(e, d.reg2, d.prefix)))
    case LdRrNn => Fall(SetPairP(e, d.reg1, d.prefix, d.imm16))
    case LdHlN => FallStore(e, e.hl, d.imm8)
    case LdAInd => Fall(e.(a := Rd(m, IdxAddr(e, d))))
    case LdIndA => FallStore(e, IdxAddr(e, d), e.a)
    case LdRInd => Fall(SetReg8(e, d.reg2, d.prefix, Rd(m, IdxAddr(e, d))))
    case LdIndR => FallStore(e, IdxAddr(e, d), GetReg8(e, d.reg2, d.prefix))
    case LdIndN => FallStore(e, IdxAddr(e, d), d.imm8)
    case IncRr => Fall(SetPairP(e, d.reg1, d.prefix, Wrap(GetPairP(e, d.reg1, d.prefix) + 1)))
    case DecRr => Fall(SetPairP(e, d.reg1, d.prefix, Wrap(GetPairP(e, d.reg1, d.prefix) - 1)))
    case LdSpHl => Fall(e.(sp := GetHlLike(e, d.prefix)))
    case ExDeHl => Fall(e.(de := e.hl, hl := e.de))
  }

  function EmitAddHlOp(d: Decoded, fmask: bv8, mstore: bool, e: Regs): EmitOut {
    var dst := GetHlLike(e, d.prefix);
    var src := if d.reg1 == 2 then dst else GetPair(e, d.reg1);
    var e1 := SetHlLike(Memptr(e, mstore, Wrap(dst + 1)), d.prefix, Wrap(dst + src));
    EmitOut(e1.(f := EmitAddHlW(dst, src, d.reg1 == 2, e.f, fmask)), [], QSet)
  }

  function EmitPtr(op: PtrOp, d: Decoded, fmask: bv8, mstore: bool, e: Regs, m: Memory): EmitOut {
    match op
    case LdABc => Fall(Memptr(e.(a := Rd(m, e.bc)), mstore, Wrap(e.bc + 1)))
    case LdADe => Fall(Memptr(e.(a := Rd(m, e.de)), mstore, Wrap(e.de + 1)))
    case LdANn => Fall(Memptr(e.(a := Rd(m, d.imm16)), mstore, Wrap(d.imm16 + 1)))
    case LdBcA => FallStore(Memptr(e, mstore, StoreQuirk(e.a, e.bc)), e.bc, e.a)
    case LdDeA => FallStore(Memptr(e, mstore, StoreQuirk(e.a, e.de)), e.de, e.a)
    case LdNnA => FallStore(Memptr(e, mstore, StoreQuirk(e.a, d.imm16)), d.imm16, e.a)
    case LdHlIndNn =>
      Fall(Memptr(SetHlLike(e, d.prefix, Word(Rd(m, Wrap(d.imm16 + 1)), Rd(m, d.imm16))), mstore, Wrap(d.imm16 + 1)))
    case LdNnHl =>
      var v := GetHlLike(e, d.prefix);
      EmitOut(Memptr(e, mstore, Wrap(d.imm16 + 1)), [Store(d.imm16, Lo(v)), Store(Wrap(d.imm16 + 1), Hi(v))], QClear)
    case AddHlRr => EmitAddHlOp(d, fmask, mstore, e)
    case ExSpHl =>
      var v := Word(Rd(m, Wrap(e.sp + 1)), Rd(m, e.sp));
      var was := GetHlLike(e, d.prefix);
      EmitOut(Memptr(SetHlLike(e, d.prefix, v), mstore, v),
              [Store(e.sp, Lo(was)), Store(Wrap(e.sp + 1), Hi(was))], QClear)
  }

  function EmitFlag(op: FlagOp, d: Decoded, prevQ: PrevQ, fmask: bv8, e: Regs, m: Memory): EmitOut {
    match op
    case AluR(alu) => EmitAluOn(e, alu, if d.reg1 == 6 then Rd(m, e.hl) else GetReg8(e, d.reg1, d.prefix), fmask)
    case AluN(alu) => EmitAluOn(e, alu, d.imm8, fmask)
    case AluInd(alu) => EmitAluOn(e, alu, Rd(m, IdxAddr(e, d)), fmask)
    case IncR => EmitIncDecReg(e, m, d, true, fmask)
    case DecR => EmitIncDecReg(e, m, d, false, fmask)
    case IncInd => EmitIncDecAt(e, m, MemAddr(e, d), true, fmask)
    case DecInd => EmitIncDecAt(e, m, MemAddr(e, d), false, fmask)
    case Daa => EmitDaa(e, fmask)
    case Cpl =>
      var x := EmitCpl(e.a, e.f, fmask);
      EmitOut(e.(a := x.v, f := x.f), [], QSet)
    case Scf => EmitOut(e.(f := EmitScfCcf(true, e.a, e.f, e.q, prevQ, fmask)), [], QSet)
    case Ccf => EmitOut(e.(f := EmitScfCcf(false, e.a, e.f, e.q, prevQ, fmask)), [], QSet)
    case Cb => EmitCb(e, m, d, fmask)
    case Ldir => EmitBlockCopy(e, m, 1)
    case Lddr => EmitBlockCopy(e, m, -1)
    case _ =>
      var x := EmitAccRotate(op, e.a, e.f, fmask);
      Fall(e.(a := x.v, f := x.f))
  }

  function EmitStack(op: StackOp, d: Decoded, e: Regs, m: Memory): EmitOut {
    match op
    case PushRr =>
      var sp := Wrap(e.sp - 2);
      var v := EmitPushValue(e, d);
      EmitOut(e.(sp := sp), [Store(sp, Lo(v)), Store(Wrap(sp + 1), Hi(v))], QClear)
    case PopRr =>
      var lo, hi := Rd(m, e.sp), Rd(m, Wrap(e.sp + 1));
      var e1 := if d.reg1 <= 2 then SetPair(e, d.reg1, Word(hi, lo))
                else if d.reg1 == 3 then e.(f := lo, a := hi)
                else if d.prefix == 0xFD then e.(iy := Word(hi, lo)) else e.(ix := Word(hi, lo));
      Fall(e1.(sp := Wrap(e.sp + 2)))
  }

  /** emit_op.  `fmask` is the set of F bits live after the instruction, `mstore` says
      whether its memptr store is kept. */
  function EmitOp(d: Decoded, prevQ: PrevQ, fmask: bv8, mstore: bool, e: Regs, m: Memory): EmitOut {
    match d.ty
    case Load(op) => EmitLoad(op, d, e, m)
    case Ptr(op) => EmitPtr(op, d, fmask, mstore, e, m)
    case Flag(op) => EmitFlag(op, d, prevQ, fmask, e, m)
    case Stack(op) => EmitStack(op, d, e, m)
    case _ => Fall(e)
  }

  /** ldir_lddr_common: bytes move by index from the original HL and DE. */
  function HelperStores(m: Memory, hl: Addr, de: Addr, i: nat, bc: nat, incr: int): seq<Store>
    requires i <= bc
    decreases bc - i
  {
    if i == bc then []
    else
      var v := Rd(m, Moved(hl, incr, i));
      [Store(Moved(de, incr, i), v)] + HelperStores(m[Moved(de, incr, i) := v], hl, de, i + 1, bc, incr)
  }

  function EmitBlockCopy(e: Regs, m: Memory, incr: int): EmitOut {
    var ws := HelperStores(m, e.hl, e.de, 0, e.bc, incr);
    EmitOut(e.(hl := Moved(e.hl, incr, e.bc), de := Moved(e.de, incr, e.bc), bc := 0,
               f := BlockFlags(e.a, LastByte(ws), e.f), q := true), ws, QKeep)
  }

  // ---- data flow of F and memptr ----

  datatype Effects = Effects(rd: bv8, wr: bv8)

  function AluEffects(op: Alu): Effects {
    Effects(When(op.Adc? || op.Sbc?, FLAG_C), 0xFF)
  }

  function FlagOpEffects(op: FlagOp, imm8: bv8): Effects {
    match op
    case AluR(alu) => AluEffects(alu)
    case AluN(alu) => AluEffects(alu)
    case AluInd(alu) => AluEffects(alu)
    case IncR | DecR | IncInd | DecInd => Effects(FLAG_C, 0xFE)
    case Rlca | Rrca => Effects(FLAG_SZP, 0x3B)
    case Rla | Rra => Effects(FLAG_SZP | FLAG_C, 0x3B)
    case Daa => Effects(FLAG_C | FLAG_H | FLAG_N, 0xFF)
    case Cpl => Effects(FLAG_SZP | FLAG_C, 0x3A)
    case Scf | Ccf => Effects(0xFF, 0x3B)
    case Cb =>
      var family := imm8 >> 6;
      var grp := (imm8 >> 3) & 7;
      if family == 0 then Effects(When(grp == 2 || grp == 3, FLAG_C), 0xFF)
      else if family == 1 then Effects(FLAG_C, 0xFE)
      else Effects(0, 0)
    case Ldir | Lddr => Effects(0xFF, 0x3E)
  }

  /** op_flag_effects: bits consumed and bits defined. */
  function FlagEffects(d: Decoded): Effects {
    match d.ty
    case Flag(op) => FlagOpEffects(op, d.imm8)
    case Ptr(op) => if op.AddHlRr? then Effects(FLAG_SZP, 0x3B) else Effects(0, 0)
    case Stack(op) =>
      if op.PushRr? then Effects(When(d.reg1 == 3, 0xFF), 0) else Effects(0, When(d.reg1 == 3, 0xFF))
    case Branch(op) => Effects(When(IsCond(op), 0xFF), 0)
    case _ => Effects(0, 0)
  }

  datatype MemptrEffect = MNone | MWrite | MWriteFixed | MRead

  /** op_memptr_effect: BIT n,(HL) reads memptr's high byte. */
  function EffectOnMemptr(d: Decoded): MemptrEffect {
    match d.ty
    case Ptr(_) => MWrite
    case Branch(op) => if op.JpCc? || op.CallCc? then MWriteFixed else MNone
    case Flag(op) =>
      if op.Cb? && d.prefix == 0xCB && d.imm8 >> 6 == 1 && d.imm8 & 7 == 6 then MRead else MNone
    case _ => MNone
  }

  /** F bits live before the instruction, given those live after it. */
  function LiveBefore(d: Decoded, live: bv8): bv8 {
    (live & !FlagEffects(d).wr) | FlagEffects(d).rd
  }

  function MemptrLiveBefore(d: Decoded, live: bool): bool {
    match EffectOnMemptr(d)
    case MWrite => false
    case MWriteFixed => false
    case MRead => true
    case MNone => live
  }

  /** Is the memptr store kept? */
  function MemptrStored(d: Decoded, live: bool): bool {
    match EffectOnMemptr(d)
    case MWrite => live
    case MRead => false
    case _ => true
  }

  // ---- translated state versus interpreter state ----

  /** Everything but F, memptr, q and pc. */
  predicate SameCore(e: Regs, s: Regs) {
    e.a == s.a && e.bc == s.bc && e.de == s.de && e.hl == s.hl && e.ix == s.ix && e.iy == s.iy && e.sp == s.sp
    && e.rest == s.rest
  }

  /** Inside a block the translated state agrees with the interpreter on all registers, on the live
      F bits, on memptr when it is live, and on q as far as the translator tracks it. */
  predicate Sim(e: Regs, s: Regs, live: bv8, mlive: bool, prevQ: PrevQ) {
    SameCore(e, s) && Agree(e.f, s.f, live) && (mlive ==> e.memptr == s.memptr)
    && (match prevQ case Runtime => e.q == s.q case Known(q) => s.q == q)
  }

  function PrevQAfter(qmode: QMode): PrevQ { Known(qmode != QClear) }
}
