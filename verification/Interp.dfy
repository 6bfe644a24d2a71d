/** The reference interpreter (core/z80_interp.c), as a function from one machine state to the next. */
module Interp {
  import opened Bits
  import opened Decoder

  /** The rest of the register file, which no translated instruction touches. */
  datatype Rest = Rest(af2: Addr, bc2: Addr, de2: Addr, hl2: Addr, i: bv8, r: bv8, iff1: bool, iff2: bool, im: bv8)

  datatype Regs = Regs(a: bv8, f: bv8, bc: Addr, de: Addr, hl: Addr, ix: Addr, iy: Addr, sp: Addr, pc: Addr,
                       memptr: Addr, q: bool, rest: Rest)

  /** Guest state; `count` is insn_count. */
  datatype State = State(regs: Regs, mem: Memory, count: int)

  /** What an instruction does: new registers, and the bytes it stores, in order. */
  datatype Out = Out(regs: Regs, writes: seq<Store>)

  /** The behaviour of every instruction the translator refuses (ports, HALT, the ED block
      compares and so on): any function of the instruction, the registers and memory. */
  type Host = (Decoded, Regs, Memory) -> Out

  /** Decoded instruction at each address. */
  type Code = Addr -> Decoded

  // ---- registers ----

  function GetReg8(r: Regs, code: bv8, prefix: bv8): bv8 {
    if code == 0 then Hi(r.bc) else if code == 1 then Lo(r.bc)
    else if code == 2 then Hi(r.de) else if code == 3 then Lo(r.de)
    else if code == 4 then Hi(r.hl) else if code == 5 then Lo(r.hl)
    else if code == 7 then r.a
    else if code == 8 then Hi(if prefix == 0xFD then r.iy else r.ix)
    else if code == 9 then Lo(if prefix == 0xFD then r.iy else r.ix)
    else 0
  }

  function SetReg8(r: Regs, code: bv8, prefix: bv8, v: bv8): Regs {
    if code == 0 then r.(bc := SetHi(r.bc, v)) else if code == 1 then r.(bc := SetLo(r.bc, v))
    else if code == 2 then r.(de := SetHi(r.de, v)) else if code == 3 then r.(de := SetLo(r.de, v))
    else if code == 4 then r.(hl := SetHi(r.hl, v)) else if code == 5 then r.(hl := SetLo(r.hl, v))
    else if code == 7 then r.(a := v)
    else if code == 8 then
      if prefix == 0xFD then r.(iy := SetHi(r.iy, v)) else r.(ix := SetHi(r.ix, v))
    else if code == 9 then
      if prefix == 0xFD then r.(iy := SetLo(r.iy, v)) else r.(ix := SetLo(r.ix, v))
    else r
  }

  /** HL, or the prefix-selected index register plus displacement. */
  function EffectiveAddr(r: Regs, d: Decoded): Addr {
    if d.prefix == 0xDD then Wrap(r.ix + Signed(d.disp))
    else if d.prefix == 0xFD then Wrap(r.iy + Signed(d.disp))
    else r.hl
  }

  function ReadReg8(r: Regs, m: Memory, code: bv8, d: Decoded): bv8 {
    if code == 6 then Rd(m, EffectiveAddr(r, d)) else GetReg8(r, code, d.prefix)
  }

  function WriteReg8(r: Regs, code: bv8, d: Decoded, v: bv8): Out {
    if code == 6 then Out(r, [Store(EffectiveAddr(r, d), v)]) else Out(SetReg8(r, code, d.prefix, v), [])
  }

  function GetPair(r: Regs, code: bv8): Addr {
    if code == 0 then r.bc else if code == 1 then r.de else if code == 2 then r.hl
    else if code == 3 then r.sp else 0
  }

  function SetPair(r: Regs, code: bv8, v: Addr): Regs {
    if code == 0 then r.(bc := v) else if code == 1 then r.(de := v) else if code == 2 then r.(hl := v)
    else if code == 3 then r.(sp := v) else r
  }

  /** The register the "HL" position names under the prefix. */
  function GetHlLike(r: Regs, prefix: bv8): Addr {
    if prefix == 0xDD then r.ix else if prefix == 0xFD then r.iy else r.hl
  }

  function SetHlLike(r: Regs, prefix: bv8, v: Addr): Regs {
    if prefix == 0xDD then r.(ix := v) else if prefix == 0xFD then r.(iy := v) else r.(hl := v)
  }

  /** Pair operand of the 16-bit loads and INC/DEC: code 2 follows the prefix. */
  function GetPairP(r: Regs, code: bv8, prefix: bv8): Addr {
    if code == 2 then GetHlLike(r, prefix) else GetPair(r, code)
  }

  function SetPairP(r: Regs, code: bv8, prefix: bv8, v: Addr): Regs {
    if code == 2 then SetHlLike(r, prefix, v) else SetPair(r, code, v)
  }

  // ---- flags ----

  datatype Res8 = Res8(v: bv8, f: bv8)

  function ZeroSign(res: bv8): bv8 {
    When(res == 0, FLAG_Z) | When(res & 0x80 != 0, FLAG_S)
  }

  function AddWith(a: bv8, b: bv8, cin: bv8): Res8 {
    var wide := (a as bv16) + (b as bv16) + (cin as bv16);
    var res := (wide & 0xFF) as bv8;
    Res8(res, XyFrom(res) | ZeroSign(res)
      | When((a & 0xF) + (b & 0xF) + cin > 0xF, FLAG_H)
      | When(wide > 0xFF, FLAG_C)
      | When((a ^ b) & 0x80 == 0 && (res ^ a) & 0x80 != 0, FLAG_PV))
  }

  /** `xy` is the byte bits 5 and 3 are copied from: the result, or CP's operand. */
  function SubFlags(a: bv8, b: bv8, res: bv8, xy: bv8): bv8 {
    FLAG_N | XyFrom(xy) | ZeroSign(res)
      | When((a & 0xF) < (b & 0xF), FLAG_H)
      | When(a < b, FLAG_C)
      | When((a ^ b) & 0x80 != 0 && (res ^ a) & 0x80 != 0, FLAG_PV)
  }

  function SubWith(a: bv8, b: bv8, cin: bv8): Res8 {
    var res := a - b - cin;
    Res8(res, FLAG_N | XyFrom(res) | ZeroSign(res)
      | When(((a & 0xF) - (b & 0xF) - cin) & 0x10 != 0, FLAG_H)
      | When((a as bv16) < (b as bv16) + (cin as bv16), FLAG_C)
      | When((a ^ b) & 0x80 != 0 && (res ^ a) & 0x80 != 0, FLAG_PV))
  }

  function LogicFlags(res: bv8): bv8 { XyFrom(res) | ZeroSign(res) | Parity8(res) }

  /** One 8-bit ALU operation on A and `b`. */
  function Alu8(op: Alu, a: bv8, b: bv8, f: bv8): Res8 {
    match op
    case Add => AddWith(a, b, 0)
    case Adc => AddWith(a, b, f & FLAG_C)
    case Sub => Res8(a - b, SubFlags(a, b, a - b, a - b))
    case Sbc => SubWith(a, b, f & FLAG_C)
    case And => Res8(a & b, (LogicFlags(a & b) & 0xFC) | FLAG_H)
    case Xor => Res8(a ^ b, LogicFlags(a ^ b) & 0xEC)
    case Or => Res8(a | b, LogicFlags(a | b) & 0xEC)
    case Cp => Res8(a, SubFlags(a, b, a - b, b))
  }

  function Inc8(v: bv8, f: bv8): Res8 {
    var res := v + 1;
    Res8(res, (f & FLAG_C) | XyFrom(res) | ZeroSign(res) | When(res & 0xF == 0, FLAG_H) | When(res == 0x80, FLAG_PV))
  }

  function Dec8(v: bv8, f: bv8): Res8 {
    var res := v - 1;
    Res8(res, (f & FLAG_C) | FLAG_N | XyFrom(res) | ZeroSign(res)
      | When(res & 0xF == 0xF, FLAG_H) | When(res == 0x7F, FLAG_PV))
  }

  function IncDec8(isInc: bool, v: bv8, f: bv8): Res8 { if isInc then Inc8(v, f) else Dec8(v, f) }

  /** RLCA, RRCA, RLA, RRA: S, Z and P/V survive, H and N clear. */
  function AccRotate(op: FlagOp, a: bv8, f: bv8): Res8 {
    var left := op.Rlca? || op.Rla?;
    var c: bv8 := if left then a >> 7 else a & 1;
    var fill: bv8 := if op.Rlca? || op.Rrca? then c else f & FLAG_C;
    var res := if left then (a << 1) | fill else (a >> 1) | (fill << 7);
    Res8(res, (f & FLAG_SZP) | c | (res & FLAG_XY))
  }

  function CplFlags(res: bv8, f: bv8): bv8 { (f & 0xD7) | FLAG_H | FLAG_N | XyFrom(res) }

  /** XY source of SCF/CCF: the Q quirk. */
  function XySource(a: bv8, f: bv8, prevQ: bool): bv8 { if prevQ then a else a | f }

  function ScfFlags(a: bv8, f: bv8, prevQ: bool): bv8 {
    (f & FLAG_SZP) | FLAG_C | XyFrom(XySource(a, f, prevQ))
  }

  function CcfFlags(a: bv8, f: bv8, prevQ: bool): bv8 {
    var oldC := f & FLAG_C != 0;
    (f & FLAG_SZP) | When(oldC, FLAG_H) | When(!oldC, FLAG_C) | XyFrom(XySource(a, f, prevQ))
  }

  /** Decimal adjust of A given the three flags it consults. */
  function DaaCore(a: bv8, c: bool, h: bool, n: bool): Res8 {
    var low := (a & 0x0F) > 9 || h;
    var high := a > 0x99 || c;
    var corr := When(low, 0x06) | When(high, 0x60);
    var res := if n then a - corr else a + corr;
    var newH := if n then h && (a & 0x0F) < 6 else (a & 0x0F) > 9;
    Res8(res, When(n, FLAG_N) | When(high, FLAG_C) | When(newH, FLAG_H) | XyFrom(res) | ZeroSign(res) | Parity8(res))
  }

  function DaaStep(a: bv8, f: bv8): Res8 { DaaCore(a, f & FLAG_C != 0, f & FLAG_H != 0, f & FLAG_N != 0) }

  function AddHlFlags(x: bv16, y: bv16, f: bv8): bv8 {
    var wide := (x as bv32) + (y as bv32);
    (f & FLAG_SZP) | When(wide & 0x10000 != 0, FLAG_C)
      | When(((x & 0x0FFF) + (y & 0x0FFF)) & 0x1000 != 0, FLAG_H)
      | XyFrom(((wide >> 8) & 0xFF) as bv8)
  }

  function AddHlFlagsW(x: Addr, y: Addr, f: bv8): bv8 { AddHlFlags(x as bv16, y as bv16, f) }

  /** CB rotates and shifts: RLC RRC RL RR SLA SRA SLL SRL. */
  function CbRotate(grp: bv8, v: bv8, f: bv8): Res8 {
    var c := f & FLAG_C;
    var newC: bv8 := if grp & 1 == 0 then v >> 7 else v & 1;
    var res :=
      if grp == 0 then (v << 1) | newC else if grp == 1 then (v >> 1) | (newC << 7)
      else if grp == 2 then (v << 1) | c else if grp == 3 then (v >> 1) | (c << 7)
      else if grp == 4 then v << 1 else if grp == 5 then (v >> 1) | (v & 0x80)
      else if grp == 6 then (v << 1) | 1 else v >> 1;
    Res8(res, newC | ZeroSign(res) | Parity8(res) | XyFrom(res))
  }

  function BitMask(n: bv8): bv8 {
    if n == 0 then 1 else if n == 1 then 2 else if n == 2 then 4 else if n == 3 then 8
    else if n == 4 then 16 else if n == 5 then 32 else if n == 6 then 64 else 128
  }

  function BitFlags(n: bv8, v: bv8, xy: bv8, f: bv8): bv8 {
    var b := v & BitMask(n) != 0;
    (f & FLAG_C) | When(!b, FLAG_Z | FLAG_PV) | FLAG_H | When(b && n == 7, FLAG_S) | XyFrom(xy)
  }

  function CondTrue(cc: bv8, f: bv8): bool {
    if cc == 0 then f & FLAG_Z == 0 else if cc == 1 then f & FLAG_Z != 0
    else if cc == 2 then f & FLAG_C == 0 else if cc == 3 then f & FLAG_C != 0
    else if cc == 4 then f & FLAG_PV == 0 else if cc == 5 then f & FLAG_PV != 0
    else if cc == 6 then f & FLAG_S == 0 else if cc == 7 then f & FLAG_S != 0
    else false
  }

  // ---- instruction groups ----

  function WithAlu(r: Regs, res: Res8): Out { Out(r.(a := res.v, f := res.f, q := true), []) }

  function Push(r: Regs, v: Addr): Out {
    var sp := Wrap(r.sp - 2);
    Out(r.(sp := sp), [Store(sp, Lo(v)), Store(Wrap(sp + 1), Hi(v))])
  }

  function Jump(r: Regs, target: Addr): Regs { r.(pc := target, memptr := target) }

  /** memptr after a store of A: A in the high byte, the low byte of address + 1. */
  function StoreQuirk(a: bv8, addr: Addr): Addr { Word(a, Lo(Wrap(addr + 1))) }

  /** The bytes LDIR (incr 1) or LDDR (incr -1) stores, each read after the earlier stores. */
  function BlockStores(m: Memory, hl: Addr, de: Addr, bc: nat, incr: int): seq<Store>
    decreases bc
  {
    if bc == 0 then []
    else
      var v := Rd(m, hl);
      [Store(de, v)] + BlockStores(m[de := v], Wrap(hl + incr), Wrap(de + incr), bc - 1, incr)
  }

  function LastByte(ws: seq<Store>): bv8 { if ws == [] then 0 else ws[|ws| - 1].val }

  function BlockFlags(a: bv8, last: bv8, f: bv8): bv8 {
    var n := a + last;
    (f & (FLAG_S | FLAG_Z | FLAG_C)) | (n & FLAG_3) | When(n & 2 != 0, FLAG_5)
  }

  function ExecBlockCopy(r: Regs, m: Memory, incr: int): Out {
    var ws := BlockStores(m, r.hl, r.de, r.bc, incr);
    Out(r.(hl := Moved(r.hl, incr, r.bc), de := Moved(r.de, incr, r.bc), bc := 0,
           f := BlockFlags(r.a, LastByte(ws), r.f), q := true), ws)
  }

  function ExecAddHl(r: Regs, d: Decoded): Out {
    var dst := GetHlLike(r, d.prefix);
    var src := if d.reg1 == 3 then r.sp else if d.reg1 == 2 then dst else GetPair(r, d.reg1);
    var r1 := SetHlLike(r, d.prefix, Wrap(dst + src));
    Out(r1.(f := AddHlFlagsW(dst, src, r.f), q := true, memptr := Wrap(dst + 1)), [])
  }

  /** Operand of a CB instruction: always memory under DD/FD, else register or (HL). */
  predicate CbInMemory(d: Decoded, code: bv8) { IsIndexPrefix(d.prefix) || code == 6 }

  function CbOperand(r: Regs, m: Memory, d: Decoded, code: bv8): bv8 {
    if CbInMemory(d, code) then Rd(m, EffectiveAddr(r, d)) else GetReg8(r, code, 0)
  }

  /** Write a CB result back; under DD/FD it also goes to register `code`. */
  function CbWriteBack(r: Regs, d: Decoded, code: bv8, res: bv8): Out {
    Out(if code == 6 then r else SetReg8(r, code, 0, res),
        if CbInMemory(d, code) then [Store(EffectiveAddr(r, d), res)] else [])
  }

  function ExecBit(r: Regs, m: Memory, d: Decoded, code: bv8, n: bv8): Out {
    var v := CbOperand(r, m, d, code);
    var xy := if IsIndexPrefix(d.prefix) then Hi(EffectiveAddr(r, d)) else if code == 6 then Hi(r.memptr) else v;
    Out(r.(f := BitFlags(n, v, xy, r.f), q := true), [])
  }

  function ExecRotate(r: Regs, m: Memory, d: Decoded, code: bv8, n: bv8): Out {
    var x := CbRotate(n, CbOperand(r, m, d, code), r.f);
    CbWriteBack(r.(f := x.f, q := true), d, code, x.v)
  }

  function ResSet(family: bv8, n: bv8, v: bv8): bv8 { if family == 2 then v & !BitMask(n) else v | BitMask(n) }

  function ExecCb(r: Regs, m: Memory, d: Decoded): Out {
    var code, n, family := d.imm8 & 7, (d.imm8 >> 3) & 7, d.imm8 >> 6;
    if family == 1 then ExecBit(r, m, d, code, n)
    else if family == 0 then ExecRotate(r, m, d, code, n)
    else CbWriteBack(r, d, code, ResSet(family, n, CbOperand(r, m, d, code)))
  }

  predicate IsCond(op: BranchOp) { op.JpCc? || op.JrCc? || op.Djnz? || op.CallCc? || op.RetCc? }

  function RelTarget(r: Regs, d: Decoded): Addr { Wrap(r.pc + Signed(d.disp)) }

  function PopPc(r: Regs, m: Memory): Regs {
    Jump(r.(sp := Wrap(r.sp + 2)), Rd16(m, r.sp))
  }

  /** Control flow; `r.pc` is already the next instruction's address. */
  function ExecBranch(op: BranchOp, r: Regs, m: Memory, d: Decoded): Out {
    match op
    case JpNn => Out(Jump(r, d.imm16), [])
    case JpHl => Out(r.(pc := r.hl), [])
    case JrE => Out(Jump(r, RelTarget(r, d)), [])
    case CallNn => var o := Push(r, r.pc); o.(regs := Jump(o.regs, d.imm16))
    case Ret => Out(PopPc(r, m), [])
    case JpCc => Out(r.(memptr := d.imm16, pc := if CondTrue(d.cc, r.f) then d.imm16 else r.pc), [])
    case JrCc => Out(if CondTrue(d.cc, r.f) then Jump(r, RelTarget(r, d)) else r, [])
    case Djnz =>
      var r1 := r.(bc := SetHi(r.bc, Hi(r.bc) - 1));
      Out(if Hi(r.bc) - 1 != 0 then Jump(r1, RelTarget(r, d)) else r1, [])
    case CallCc =>
      if CondTrue(d.cc, r.f) then var o := Push(r, r.pc); o.(regs := Jump(o.regs, d.imm16))
      else Out(r.(memptr := d.imm16), [])
    case RetCc => Out(if CondTrue(d.cc, r.f) then PopPc(r, m) else r, [])
  }

  function ExecLoad(op: LoadOp, r: Regs, m: Memory, d: Decoded): Out {
    match op
    case Nop => Out(r, [])
    case LdRrNn => Out(SetPairP(r, d.reg1, d.prefix, d.imm16), [])
    case LdRN => WriteReg8(r, d.reg1, d, d.imm8)
    case LdRR => WriteReg8(r, d.reg1, d, ReadReg8(r, m, d.reg2, d))
    case LdHlN => WriteReg8(r, 6, d, d.imm8)
    case LdAInd => Out(r.(a := ReadReg8(r, m, 6, d)), [])
    case LdIndA => WriteReg8(r, 6, d, r.a)
    case LdRInd => WriteReg8(r, d.reg2, d, ReadReg8(r, m, 6, d))
    case LdIndR => WriteReg8(r, 6, d, ReadReg8(r, m, d.reg2, d))
    case LdIndN => WriteReg8(r, 6, d, d.imm8)
    case IncRr => Out(SetPairP(r, d.reg1, d.prefix, Wrap(GetPairP(r, d.reg1, d.prefix) + 1)), [])
    case DecRr => Out(SetPairP(r, d.reg1, d.prefix, Wrap(GetPairP(r, d.reg1, d.prefix) - 1)), [])
    case LdSpHl => Out(r.(sp := GetHlLike(r, d.prefix)), [])
    case ExDeHl => Out(r.(de := r.hl, hl := r.de), [])
  }

  function ExecPtr(op: PtrOp, r: Regs, m: Memory, d: Decoded): Out {
    match op
    case LdABc => Out(r.(a := Rd(m, r.bc), memptr := Wrap(r.bc + 1)), [])
    case LdADe => Out(r.(a := Rd(m, r.de), memptr := Wrap(r.de + 1)), [])
    case LdANn => Out(r.(a := Rd(m, d.imm16), memptr := Wrap(d.imm16 + 1)), [])
    case LdBcA => Out(r.(memptr := StoreQuirk(r.a, r.bc)), [Store(r.bc, r.a)])
    case LdDeA => Out(r.(memptr := StoreQuirk(r.a, r.de)), [Store(r.de, r.a)])
    case LdNnA => Out(r.(memptr := StoreQuirk(r.a, d.imm16)), [Store(d.imm16, r.a)])
    case LdHlIndNn => Out(SetHlLike(r, d.prefix, Rd16(m, d.imm16)).(memptr := Wrap(d.imm16 + 1)), [])
    case LdNnHl =>
      var v := GetHlLike(r, d.prefix);
      Out(r.(memptr := Wrap(d.imm16 + 1)), [Store(d.imm16, Lo(v)), Store(Wrap(d.imm16 + 1), Hi(v))])
    case AddHlRr => ExecAddHl(r, d)
    case ExSpHl =>
      var was := GetHlLike(r, d.prefix);
      var v := Rd16(m, r.sp);
      Out(SetHlLike(r, d.prefix, v).(memptr := v), [Store(r.sp, Lo(was)), Store(Wrap(r.sp + 1), Hi(was))])
  }

  function ExecIncDec(r: Regs, m: Memory, d: Decoded, code: bv8, isInc: bool): Out {
    var x := IncDec8(isInc, ReadReg8(r, m, code, d), r.f);
    WriteReg8(r.(f := x.f, q := true), code, d, x.v)
  }

  /** `prevQ` is the previous instruction's q. */
  function ExecFlag(op: FlagOp, r: Regs, m: Memory, d: Decoded, prevQ: bool): Out {
    match op
    case AluR(alu) => WithAlu(r, Alu8(alu, r.a, ReadReg8(r, m, d.reg1, d), r.f))
    case AluN(alu) => WithAlu(r, Alu8(alu, r.a, d.imm8, r.f))
    case AluInd(alu) => WithAlu(r, Alu8(alu, r.a, ReadReg8(r, m, 6, d), r.f))
    case IncR => ExecIncDec(r, m, d, d.reg1, true)
    case DecR => ExecIncDec(r, m, d, d.reg1, false)
    case IncInd => ExecIncDec(r, m, d, 6, true)
    case DecInd => ExecIncDec(r, m, d, 6, false)
    case Daa => WithAlu(r, DaaStep(r.a, r.f))
    case Cpl => Out(r.(a := !r.a, f := CplFlags(!r.a, r.f), q := true), [])
    case Scf => Out(r.(f := ScfFlags(r.a, r.f, prevQ), q := true), [])
    case Ccf => Out(r.(f := CcfFlags(r.a, r.f, prevQ), q := true), [])
    case Cb => ExecCb(r, m, d)
    case Ldir => ExecBlockCopy(r, m, 1)
    case Lddr => ExecBlockCopy(r, m, -1)
    case _ => // RLCA, RRCA, RLA, RRA: q stays clear
      var x := AccRotate(op, r.a, r.f);
      Out(r.(a := x.v, f := x.f), [])
  }

  function ExecStack(op: StackOp, r: Regs, m: Memory, d: Decoded): Out {
    match op
    case PushRr =>
      Push(r, if d.reg1 == 4 then (if d.prefix == 0xFD then r.iy else r.ix)
              else if d.reg1 == 3 then Word(r.a, r.f) else GetPair(r, d.reg1))
    case PopRr =>
      var v := Rd16(m, r.sp);
      var r1 := r.(sp := Wrap(r.sp + 2));
      Out(if d.reg1 == 4 then (if d.prefix == 0xFD then r1.(iy := v) else r1.(ix := v))
          else if d.reg1 == 3 then r1.(f := Rd(m, r.sp), a := Rd(m, Wrap(r.sp + 1)))
          else SetPair(r1, d.reg1, v), [])
  }

  /** z80_step's switch: pc is advanced and q cleared before the instruction runs. */
  function Exec(host: Host, d: Decoded, r0: Regs, m: Memory): Out {
    var r := r0.(pc := Wrap(r0.pc + d.bytes), q := false);
    match d.ty
    case Load(op) => ExecLoad(op, r, m, d)
    case Ptr(op) => ExecPtr(op, r, m, d)
    case Flag(op) => ExecFlag(op, r, m, d, r0.q)
    case Stack(op) => ExecStack(op, r, m, d)
    case Branch(op) => ExecBranch(op, r, m, d)
    case Other(_) => host(d, r0, m)
  }

  /** z80_step on an instruction; a RET that pops 0 ends the run without being counted. */
  function ExecAt(host: Host, d: Decoded, st: State): State {
    var o := Exec(host, d, st.regs, st.mem);
    State(o.regs, Apply(st.mem, o.writes), st.count + (if d.ty == Branch(Ret) && o.regs.pc == 0 then 0 else 1))
  }

  function Step(host: Host, st: State): State { ExecAt(host, Decode(st.mem, st.regs.pc), st) }

  function Steps(host: Host, st: State, n: nat): State
    decreases n
  {
    if n == 0 then st else Steps(host, Step(host, st), n - 1)
  }

  /** The interpreter over a fixed decode of the code: stores do not change what is executed. */
  function FrozenSteps(host: Host, code: Code, st: State, n: nat): State
    decreases n
  {
    if n == 0 then st else FrozenSteps(host, code, ExecAt(host, code(st.regs.pc), st), n - 1)
  }
}
