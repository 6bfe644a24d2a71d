/** The instruction decoder (core/z80_decode.c). */
module Decoder {
  import opened Bits

  datatype Alu = Add | Adc | Sub | Sbc | And | Xor | Or | Cp

  /** Loads and register moves: no flag and no memptr involved. */
  datatype LoadOp =
    | Nop | LdRN | LdRR | LdRrNn | LdHlN | LdAInd | LdIndA | LdRInd | LdIndR | LdIndN
    | IncRr | DecRr | LdSpHl | ExDeHl

  /** Instructions that write memptr. */
  datatype PtrOp = LdABc | LdADe | LdANn | LdBcA | LdDeA | LdNnA | LdHlIndNn | LdNnHl | AddHlRr | ExSpHl

  /** Instructions that write F.  The eight ALU operations come in a register, an
      immediate and an indexed-memory form. */
  datatype FlagOp =
    | AluR(alu: Alu) | AluN(alu: Alu) | AluInd(alu: Alu) | IncR | DecR | IncInd | DecInd
    | Rlca | Rrca | Rla | Rra | Daa | Cpl | Scf | Ccf | Cb | Ldir | Lddr

  datatype StackOp = PushRr | PopRr

  datatype BranchOp = JpNn | JpHl | JrE | CallNn | Ret | JpCc | JrCc | Djnz | CallCc | RetCc

  /** Instructions the translator leaves to the interpreter. */
  datatype OtherOp =
    | Unknown | Rst | OutNA | InAN | ExAfAf | Exx | Neg | Ldi | Ldd | LdAIxh | LdAIxl | Di | Ei | Halt
    | AdcHlRr | SbcHlRr | LdNnRr | LdRrNnInd | Cpi | Cpd | Cpir | Cpdr | Rrd | Rld | InRC | OutCR
    | Ini | Ind | Inir | Indr | Outi | Outd | Otir | Otdr | Im | Retn | LdIA | LdRA | LdAI | LdAR

  datatype Ty =
    | Load(load: LoadOp) | Ptr(ptr: PtrOp) | Flag(flag: FlagOp) | Stack(stack: StackOp)
    | Branch(branch: BranchOp) | Other(other: OtherOp)

  datatype Decoded = Decoded(ty: Ty, prefix: bv8, opcode: bv8, reg1: bv8, reg2: bv8, cc: bv8,
                             imm16: Addr, imm8: bv8, disp: bv8, bytes: nat)

  /** What follows the opcode byte. */
  datatype Operand = NoOperand | Imm8 | Imm16 | Disp8

  datatype Shape = Shape(ty: Ty, reg1: bv8, reg2: bv8, cc: bv8, imm8: bv8, operand: Operand)

  predicate IsIndexPrefix(p: bv8) { p == 0xDD || p == 0xFD }

  function AluOf(code: bv8): Alu {
    if code == 0 then Add else if code == 1 then Adc else if code == 2 then Sub else if code == 3 then Sbc
    else if code == 4 then And else if code == 5 then Xor else if code == 6 then Or else Cp
  }

  function Plain(ty: Ty): Shape { Shape(ty, 0, 0, 0, 0, NoOperand) }
  function With(ty: Ty, operand: Operand): Shape { Shape(ty, 0, 0, 0, 0, operand) }
  function OnReg(ty: Ty, reg1: bv8, operand: Operand): Shape { Shape(ty, reg1, 0, 0, 0, operand) }
  function OnCc(ty: Ty, cc: bv8, operand: Operand): Shape { Shape(ty, 0, 0, cc, 0, operand) }

  /** Opcodes 00-3F of the main switch. */
  function LowShape(op: bv8): Shape {
    var rr := (op >> 4) & 3;
    var r := (op >> 3) & 7;
    if op & 0xCF == 0x01 then OnReg(Load(LdRrNn), rr, Imm16)
    else if op & 0xCF == 0x03 then OnReg(Load(IncRr), rr, NoOperand)
    else if op & 0xCF == 0x0B then OnReg(Load(DecRr), rr, NoOperand)
    else if op & 0xCF == 0x09 then OnReg(Ptr(AddHlRr), rr, NoOperand)
    else if op & 0xC7 == 0x04 then OnReg(Flag(IncR), r, NoOperand)
    else if op & 0xC7 == 0x05 then OnReg(Flag(DecR), r, NoOperand)
    else if op == 0x36 then With(Load(LdHlN), Imm8)
    else if op & 0xC7 == 0x06 then OnReg(Load(LdRN), r, Imm8)
    else if op == 0x00 then Plain(Load(Nop))
    else if op == 0x02 then Plain(Ptr(LdBcA))
    else if op == 0x07 then Plain(Flag(Rlca))
    else if op == 0x08 then Plain(Other(ExAfAf))
    else if op == 0x0A then Plain(Ptr(LdABc))
    else if op == 0x0F then Plain(Flag(Rrca))
    else if op == 0x10 then With(Branch(Djnz), Disp8)
    else if op == 0x12 then Plain(Ptr(LdDeA))
    else if op == 0x17 then Plain(Flag(Rla))
    else if op == 0x18 then With(Branch(JrE), Disp8)
    else if op == 0x1A then Plain(Ptr(LdADe))
    else if op == 0x1F then Plain(Flag(Rra))
    else if op & 0xE7 == 0x20 then OnCc(Branch(JrCc), (op >> 3) & 3, Disp8)
    else if op == 0x22 then With(Ptr(LdNnHl), Imm16)
    else if op == 0x27 then Plain(Flag(Daa))
    else if op == 0x2A then With(Ptr(LdHlIndNn), Imm16)
    else if op == 0x2F then Plain(Flag(Cpl))
    else if op == 0x32 then With(Ptr(LdNnA), Imm16)
    else if op == 0x37 then Plain(Flag(Scf))
    else if op == 0x3A then With(Ptr(LdANn), Imm16)
    else Plain(Flag(Ccf))
  }

  /** Opcodes C0-FF of the main switch; DD, ED, FD and CB only get here when
      the prefix loop gave up, and decode to nothing. */
  function HighShape(op: bv8): Shape {
    var rr := (op >> 4) & 3;
    var cc := (op >> 3) & 7;
    if op & 0xC7 == 0xC0 then OnCc(Branch(RetCc), cc, NoOperand)
    else if op & 0xCF == 0xC1 then OnReg(Stack(PopRr), rr, NoOperand)
    else if op & 0xC7 == 0xC2 then OnCc(Branch(JpCc), cc, Imm16)
    else if op & 0xC7 == 0xC4 then OnCc(Branch(CallCc), cc, Imm16)
    else if op & 0xCF == 0xC5 then OnReg(Stack(PushRr), rr, NoOperand)
    else if op & 0xC7 == 0xC6 then With(Flag(AluN(AluOf(cc))), Imm8)
    else if op & 0xC7 == 0xC7 then Shape(Other(Rst), 0, 0, 0, op & 0x38, NoOperand)
    else if op == 0xC3 then With(Branch(JpNn), Imm16)
    else if op == 0xC9 then Plain(Branch(Ret))
    else if op == 0xCD then With(Branch(CallNn), Imm16)
    else if op == 0xD3 then With(Other(OutNA), Imm8)
    else if op == 0xD9 then Plain(Other(Exx))
    else if op == 0xDB then With(Other(InAN), Imm8)
    else if op == 0xE3 then Plain(Ptr(ExSpHl))
    else if op == 0xE9 then Plain(Branch(JpHl))
    else if op == 0xEB then Plain(Load(ExDeHl))
    else if op == 0xF3 then Plain(Other(Di))
    else if op == 0xF9 then Plain(Load(LdSpHl))
    else if op == 0xFB then Plain(Other(Ei))
    else Plain(Other(Unknown))
  }

  function MainShape(op: bv8): Shape {
    if op < 0x40 then LowShape(op)
    else if op == 0x76 then Plain(Other(Halt))
    else if op < 0x80 then Shape(Load(LdRR), (op >> 3) & 7, op & 7, 0, 0, NoOperand)
    else if op < 0xC0 then OnReg(Flag(AluR(AluOf((op >> 3) & 7))), op & 7, NoOperand)
    else HighShape(op)
  }

  /** ED page: a separate instruction set. */
  function EdShape(op: bv8): Shape {
    var rr := (op >> 4) & 3;
    var r := (op >> 3) & 7;
    var column := op & 0xC7;
    if op & 0xCF == 0x42 then OnReg(Other(SbcHlRr), rr, NoOperand)
    else if op & 0xCF == 0x4A then OnReg(Other(AdcHlRr), rr, NoOperand)
    else if op & 0xCF == 0x43 then OnReg(Other(LdNnRr), rr, Imm16)
    else if op & 0xCF == 0x4B then OnReg(Other(LdRrNnInd), rr, Imm16)
    else if column == 0x44 then Plain(Other(Neg))
    else if column == 0x45 then Plain(Other(Retn))
    else if column == 0x46 then
      Shape(Other(Im), 0, 0, 0, if r & 3 == 2 then 1 else if r & 3 == 3 then 2 else 0, NoOperand)
    else if op == 0x47 then Plain(Other(LdIA))
    else if op == 0x4F then Plain(Other(LdRA))
    else if op == 0x57 then Plain(Other(LdAI))
    else if op == 0x5F then Plain(Other(LdAR))
    else if op == 0x67 then Plain(Other(Rrd))
    else if op == 0x6F then Plain(Other(Rld))
    else if op == 0xA0 then Plain(Other(Ldi))
    else if op == 0xA1 then Plain(Other(Cpi))
    else if op == 0xA8 then Plain(Other(Ldd))
    else if op == 0xA9 then Plain(Other(Cpd))
    else if op == 0xB0 then Plain(Flag(Ldir))
    else if op == 0xB1 then Plain(Other(Cpir))
    else if op == 0xB8 then Plain(Flag(Lddr))
    else if op == 0xB9 then Plain(Other(Cpdr))
    else if op == 0xA2 then Plain(Other(Ini))
    else if op == 0xAA then Plain(Other(Ind))
    else if op == 0xB2 then Plain(Other(Inir))
    else if op == 0xBA then Plain(Other(Indr))
    else if op == 0xA3 then Plain(Other(Outi))
    else if op == 0xAB then Plain(Other(Outd))
    else if op == 0xB3 then Plain(Other(Otir))
    else if op == 0xBB then Plain(Other(Otdr))
    else if column == 0x40 then OnReg(Other(InRC), r, NoOperand)
    else if column == 0x41 then OnReg(Other(OutCR), r, NoOperand)
    else Plain(Load(Nop))
  }

  /** Under DD/FD these opcodes address (IX+d)/(IY+d) and carry a displacement. */
  predicate NeedsDisp(op: bv8) {
    op == 0x34 || op == 0x35 || op == 0x36
    || (op & 0xC7 == 0x46 && op != 0x76)
    || (op & 0xF8 == 0x70 && op != 0x76)
    || op & 0xC7 == 0x86
  }

  function IndexedShape(op: bv8): Shape {
    if op == 0x34 then OnReg(Flag(IncInd), 6, NoOperand)
    else if op == 0x35 then OnReg(Flag(DecInd), 6, NoOperand)
    else if op == 0x36 then OnReg(Load(LdIndN), 6, Imm8)
    else if op == 0x7E then OnReg(Load(LdAInd), 6, NoOperand)
    else if op == 0x77 then OnReg(Load(LdIndA), 6, NoOperand)
    else if op & 0xC7 == 0x46 then Shape(Load(LdRInd), 6, (op >> 3) & 7, 0, 0, NoOperand)
    else if op & 0xF8 == 0x70 then Shape(Load(LdIndR), 6, op & 7, 0, 0, NoOperand)
    else OnReg(Flag(AluInd(AluOf((op >> 3) & 7))), 6, NoOperand)
  }

  /** H and L of a pure register form become the index register's halves. */
  function HalfIndex(r: bv8): bv8 { if r == 4 then 8 else if r == 5 then 9 else r }

  predicate TakesHalfIndex(ty: Ty) {
    (ty.Load? && (ty.load.LdRR? || ty.load.LdRN?))
    || (ty.Flag? && (ty.flag.IncR? || ty.flag.DecR? || ty.flag.AluR?))
  }

  function PrefixedShape(op: bv8): Shape {
    if op == 0x7C then Plain(Other(LdAIxh))
    else if op == 0x7D then Plain(Other(LdAIxl))
    else if op == 0xE1 then OnReg(Stack(PopRr), 4, NoOperand)
    else if op == 0xE5 then OnReg(Stack(PushRr), 4, NoOperand)
    else
      var s := MainShape(op);
      if TakesHalfIndex(s.ty) then s.(reg1 := HalfIndex(s.reg1), reg2 := HalfIndex(s.reg2)) else s
  }

  /** Fetch the operand bytes that start at `at`; `bytes` counts everything before them. */
  function Fetch(m: Memory, at: Addr, s: Shape, prefix: bv8, opcode: bv8, disp: bv8, bytes: nat): Decoded {
    match s.operand
    case NoOperand => Decoded(s.ty, prefix, opcode, s.reg1, s.reg2, s.cc, 0, s.imm8, disp, bytes)
    case Imm8 => Decoded(s.ty, prefix, opcode, s.reg1, s.reg2, s.cc, 0, Rd(m, at), disp, bytes + 1)
    case Disp8 => Decoded(s.ty, prefix, opcode, s.reg1, s.reg2, s.cc, 0, s.imm8, Rd(m, at), bytes + 1)
    case Imm16 => Decoded(s.ty, prefix, opcode, s.reg1, s.reg2, s.cc, Rd16(m, at), s.imm8, disp, bytes + 2)
  }

  /** Decode the opcode at `pc` once the DD/FD run is over; `bytes` already counts the opcode byte. */
  function DecodeOp(m: Memory, pc: Addr, prefix: bv8, bytes: nat): Decoded {
    var op := Rd(m, pc);
    if op == 0xCB then
      if prefix != 0 then
        var sub := Rd(m, Wrap(pc + 2));
        Decoded(Flag(Cb), prefix, sub, 0, 0, 0, 0, sub, Rd(m, Wrap(pc + 1)), bytes + 2)
      else
        var sub := Rd(m, Wrap(pc + 1));
        Decoded(Flag(Cb), 0xCB, sub, 0, 0, 0, 0, sub, 0, bytes + 1)
    else if op == 0xED then
      var ed := Rd(m, Wrap(pc + 1));
      Fetch(m, Wrap(pc + 2), EdShape(ed), 0xED, ed, 0, bytes + 1)
    else if prefix == 0 then Fetch(m, Wrap(pc + 1), MainShape(op), 0, op, 0, bytes)
    else if NeedsDisp(op) then Fetch(m, Wrap(pc + 2), IndexedShape(op), prefix, op, Rd(m, Wrap(pc + 1)), bytes + 1)
    else Fetch(m, Wrap(pc + 1), PrefixedShape(op), prefix, op, 0, bytes)
  }

  /** The DD/FD run: at most `room` prefixes are consumed, the last one wins. */
  function DecodeFrom(m: Memory, pc: Addr, prefix: bv8, bytes: nat, room: nat): Decoded
    decreases room
  {
    var op := Rd(m, pc);
    if IsIndexPrefix(op) && room > 0 then DecodeFrom(m, Wrap(pc + 1), op, bytes + 1, room - 1)
    else DecodeOp(m, pc, prefix, bytes)
  }

  const MAX_PREFIX: nat := 4

  function Decode(m: Memory, pc: Addr): Decoded { DecodeFrom(m, pc, 0, 1, MAX_PREFIX) }

  /** z80_decode_one: the prefix loop advances pc and the byte count in place. */
  method DecodeOne(m: Memory, pc0: Addr) returns (out: Decoded)
    ensures out == Decode(m, pc0)
  {
    var pc: Addr, prefix: bv8, bytes: nat, room := pc0, 0, 1, MAX_PREFIX;
    var op := Rd(m, pc);
    while IsIndexPrefix(op) && room > 0
      invariant op == Rd(m, pc)
      invariant DecodeFrom(m, pc, prefix, bytes, room) == Decode(m, pc0)
      decreases room
    {
      prefix := op;
      pc := Wrap(pc + 1);
      bytes := bytes + 1;
      room := room - 1;
      op := Rd(m, pc);
    }
    out := DecodeOp(m, pc, prefix, bytes);
  }

  /** The memories hold the same bytes on the ring interval [pc, pc + n). */
  ghost predicate SameBytes(m1: Memory, m2: Memory, pc: Addr, n: nat) {
    forall a: Addr {:trigger Rd(m1, a)} {:trigger Rd(m2, a)} :: Wrap(a - pc) < n ==> Rd(m1, a) == Rd(m2, a)
  }

  lemma SameAt(m1: Memory, m2: Memory, start: Addr, n: nat, off: nat)
    requires SameBytes(m1, m2, start, n) && off < n && off < 0x1_0000
    ensures Rd(m1, Wrap(start + off)) == Rd(m2, Wrap(start + off))
  {
    assert Wrap(Wrap(start + off) - start) == off;
  }

  lemma WordLocal(m1: Memory, m2: Memory, start: Addr, n: nat, off: nat)
    requires SameBytes(m1, m2, start, n) && off + 1 < n && off < 0xFFFF
    ensures Rd16(m1, Wrap(start + off)) == Rd16(m2, Wrap(start + off))
  {
    hide Word, Rd, SameBytes, Wrap;
    WrapAdd(start, off, 1);
    SameAt(m1, m2, start, n, off);
    SameAt(m1, m2, start, n, off + 1);
  }

  lemma OperandBytes(m: Memory, at: Addr, s: Shape, prefix: bv8, opcode: bv8, disp: bv8, bytes: nat)
    ensures bytes <= Fetch(m, at, s, prefix, opcode, disp, bytes).bytes <= bytes + 2
  {
    hide Rd, Rd16;
  }

  lemma OperandLocal(m1: Memory, m2: Memory, s: Shape, prefix: bv8, opcode: bv8, disp: bv8, bytes: nat, start: Addr,
                     d: Decoded)
    requires bytes <= 7
    requires d == Fetch(m1, Wrap(start + bytes), s, prefix, opcode, disp, bytes)
    requires SameBytes(m1, m2, start, d.bytes)
    ensures Fetch(m2, Wrap(start + bytes), s, prefix, opcode, disp, bytes) == d
    ensures bytes <= d.bytes <= bytes + 2
  {
    hide Rd16, Rd, SameBytes, Wrap;
    if s.operand != NoOperand {
      assert bytes < d.bytes;
      SameAt(m1, m2, start, d.bytes, bytes);
    }
    if s.operand == Imm16 {
      assert d.bytes == bytes + 2;
      WordLocal(m1, m2, start, d.bytes, bytes);
    }
  }

  /** `k` is the offset of the opcode byte from the first prefix. */
  lemma OpLocal(m1: Memory, m2: Memory, prefix: bv8, k: nat, start: Addr, d: Decoded)
    requires k <= 4 && d == DecodeOp(m1, Wrap(start + k), prefix, k + 1)
    requires SameBytes(m1, m2, start, d.bytes)
    ensures DecodeOp(m2, Wrap(start + k), prefix, k + 1) == d
    ensures k + 1 <= d.bytes <= k + 4
  {
    hide EdShape, MainShape, IndexedShape, PrefixedShape, NeedsDisp, Fetch, Rd, SameBytes, Wrap;
    WrapAdd(start, k, 1);
    WrapAdd(start, k, 2);
    var op, b1 := Rd(m1, Wrap(start + k)), Rd(m1, Wrap(start + (k + 1)));
    if op == 0xCB {
      SameAt(m1, m2, start, d.bytes, k);
      SameAt(m1, m2, start, d.bytes, k + 1);
      if prefix != 0 {
        SameAt(m1, m2, start, d.bytes, k + 2);
      }
    } else if op == 0xED {
      OperandBytes(m1, Wrap(start + (k + 2)), EdShape(b1), 0xED, b1, 0, k + 2);
      SameAt(m1, m2, start, d.bytes, k);
      SameAt(m1, m2, start, d.bytes, k + 1);
      OperandLocal(m1, m2, EdShape(b1), 0xED, b1, 0, k + 2, start, d);
    } else if prefix == 0 {
      OperandBytes(m1, Wrap(start + (k + 1)), MainShape(op), 0, op, 0, k + 1);
      SameAt(m1, m2, start, d.bytes, k);
      OperandLocal(m1, m2, MainShape(op), 0, op, 0, k + 1, start, d);
    } else if NeedsDisp(op) {
      OperandBytes(m1, Wrap(start + (k + 2)), IndexedShape(op), prefix, op, b1, k + 2);
      SameAt(m1, m2, start, d.bytes, k);
      SameAt(m1, m2, start, d.bytes, k + 1);
      OperandLocal(m1, m2, IndexedShape(op), prefix, op, b1, k + 2, start, d);
    } else {
      OperandBytes(m1, Wrap(start + (k + 1)), PrefixedShape(op), prefix, op, 0, k + 1);
      SameAt(m1, m2, start, d.bytes, k);
      OperandLocal(m1, m2, PrefixedShape(op), prefix, op, 0, k + 1, start, d);
    }
  }

  lemma {:induction false} FromLocal(m1: Memory, m2: Memory, prefix: bv8, k: nat, start: Addr, d: Decoded)
    requires k <= MAX_PREFIX && d == DecodeFrom(m1, Wrap(start + k), prefix, k + 1, MAX_PREFIX - k)
    requires SameBytes(m1, m2, start, d.bytes)
    ensures DecodeFrom(m2, Wrap(start + k), prefix, k + 1, MAX_PREFIX - k) == d
    ensures k + 1 <= d.bytes <= 8
    decreases MAX_PREFIX - k
  {
    hide DecodeOp, SameBytes, Rd, Wrap;
    var op := Rd(m1, Wrap(start + k));
    WrapAdd(start, k, 1);
    if IsIndexPrefix(op) && k < MAX_PREFIX {
      FromLocal(m1, m2, op, k + 1, start, d);
    } else {
      OpLocal(m1, m2, prefix, k, start, d);
    }
    SameAt(m1, m2, start, d.bytes, k);
  }

  /** Decoder locality: the decode is a function of exactly the bytes it reports consuming. */
  lemma DecodeIsLocal(m1: Memory, m2: Memory, pc: Addr)
    requires SameBytes(m1, m2, pc, Decode(m1, pc).bytes)
    ensures Decode(m2, pc) == Decode(m1, pc)
    ensures 1 <= Decode(m1, pc).bytes <= 8
  {
    hide DecodeFrom;
    FromLocal(m1, m2, 0, 0, pc, Decode(m1, pc));
  }
}
