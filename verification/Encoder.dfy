/** Opcodes written out the other way round, as an assembler would, to hold the decoder's tables (core/z80_decode.c)
    against: the main page, and the pages behind ED, CB, DD and FD. */
module Encoder {
  import opened Bits
  import opened Decoder

  function AluCode(alu: Alu): bv8 {
    match alu
    case Add => 0 case Adc => 1 case Sub => 2 case Sbc => 3 case And => 4 case Xor => 5 case Or => 6 case Cp => 7
  }

  function EncodeLoad(op: LoadOp, s: Shape): bv8 {
    match op
    case Nop => 0x00
    case LdRrNn => 0x01 | (s.reg1 << 4)
    case IncRr => 0x03 | (s.reg1 << 4)
    case DecRr => 0x0B | (s.reg1 << 4)
    case LdRN => 0x06 | (s.reg1 << 3)
    case LdHlN => 0x36
    case LdRR => 0x40 | (s.reg1 << 3) | s.reg2
    case LdSpHl => 0xF9
    case ExDeHl => 0xEB
    case _ => 0xDD
  }

  function EncodePtr(op: PtrOp, s: Shape): bv8 {
    match op
    case LdBcA => 0x02 case LdABc => 0x0A case LdDeA => 0x12 case LdADe => 0x1A
    case LdNnHl => 0x22 case LdHlIndNn => 0x2A case LdNnA => 0x32 case LdANn => 0x3A
    case AddHlRr => 0x09 | (s.reg1 << 4)
    case ExSpHl => 0xE3
  }

  function EncodeFlag(op: FlagOp, s: Shape): bv8 {
    match op
    case AluR(alu) => 0x80 | (AluCode(alu) << 3) | s.reg1
    case AluN(alu) => 0xC6 | (AluCode(alu) << 3)
    case IncR => 0x04 | (s.reg1 << 3)
    case DecR => 0x05 | (s.reg1 << 3)
    case Rlca => 0x07 case Rrca => 0x0F case Rla => 0x17 case Rra => 0x1F
    case Daa => 0x27 case Cpl => 0x2F case Scf => 0x37 case Ccf => 0x3F
    case _ => 0xDD
  }

  function EncodeBranch(op: BranchOp, s: Shape): bv8 {
    match op
    case JpNn => 0xC3 case JpHl => 0xE9 case JrE => 0x18 case CallNn => 0xCD case Ret => 0xC9 case Djnz => 0x10
    case JpCc => 0xC2 | (s.cc << 3)
    case JrCc => 0x20 | (s.cc << 3)
    case CallCc => 0xC4 | (s.cc << 3)
    case RetCc => 0xC0 | (s.cc << 3)
  }

  function EncodeOther(op: OtherOp, s: Shape): bv8 {
    match op
    case Rst => 0xC7 | s.imm8
    case ExAfAf => 0x08 case OutNA => 0xD3 case InAN => 0xDB case Exx => 0xD9 case Di => 0xF3 case Ei => 0xFB
    case Halt => 0x76
    case _ => 0xDD
  }

  /** The opcode byte of an unprefixed instruction. */
  function Encode(s: Shape): bv8 {
    match s.ty
    case Load(op) => EncodeLoad(op, s)
    case Ptr(op) => EncodePtr(op, s)
    case Flag(op) => EncodeFlag(op, s)
    case Stack(op) => (if op.PushRr? then 0xC5 else 0xC1) | (s.reg1 << 4)
    case Branch(op) => EncodeBranch(op, s)
    case Other(op) => EncodeOther(op, s)
  }

  /** Operand bytes an opcode takes, by the instruction set's own grouping. */
  function OperandBytes(op: bv8): nat {
    if op & 0xCF == 0x01 || op & 0xC7 == 0xC2 || op & 0xC7 == 0xC4 || op == 0xC3 || op == 0xCD
       || op == 0x22 || op == 0x2A || op == 0x32 || op == 0x3A then 2
    else if op & 0xC7 == 0x06 || op & 0xC7 == 0xC6 || op == 0xD3 || op == 0xDB || op == 0x10 || op == 0x18
        || op & 0xE7 == 0x20 then 1
    else 0
  }

  predicate IsPrefix(op: bv8) { op == 0xCB || op == 0xDD || op == 0xED || op == 0xFD }

  lemma AluCodes(n: bv8)
    requires n <= 7
    ensures AluCode(AluOf(n)) == n
  {
  }

  lemma ColumnsRoundTrip(op: bv8)
    requires op < 0x40
             && (op & 0x0F == 1 || op & 0x0F == 3 || op & 0x0F == 9 || op & 0x0F == 0xB || op & 7 == 4 || op & 7 == 5
             || op & 7 == 6)
    ensures Encode(LowShape(op)) == op
  {
  }

  lemma RestRoundTrip(op: bv8)
    requires op < 0x40
             && !(op & 0x0F == 1 || op & 0x0F == 3 || op & 0x0F == 9 || op & 0x0F == 0xB || op & 7 == 4 || op & 7 == 5
             || op & 7 == 6)
    ensures Encode(LowShape(op)) == op
  {
  }

  lemma LowRoundTrip(op: bv8)
    requires op < 0x40
    ensures Encode(LowShape(op)) == op
  {
    hide Encode, LowShape;
    if op & 0x0F == 1 || op & 0x0F == 3 || op & 0x0F == 9 || op & 0x0F == 0xB || op & 7 == 4 || op & 7 == 5
        || op & 7 == 6 {
      ColumnsRoundTrip(op);
    } else {
      RestRoundTrip(op);
    }
  }

  lemma HighRoundTrip(op: bv8)
    requires op >= 0xC0 && !IsPrefix(op)
    ensures Encode(HighShape(op)) == op
  {
    AluCodes((op >> 3) & 7);
  }

  /** Every unprefixed opcode decodes to the instruction an assembler would encode as it, with the operand bytes the
      instruction takes. */
  lemma MainRoundTrip(op: bv8)
    requires !IsPrefix(op)
    ensures Encode(MainShape(op)) == op
  {
    hide LowShape, HighShape, AluOf, AluCode;
    if op < 0x40 {
      LowRoundTrip(op);
    } else if op >= 0xC0 {
      HighRoundTrip(op);
    } else {
      AluCodes((op >> 3) & 7);
    }
  }

  function OperandSize(o: Operand): nat { match o case NoOperand => 0 case Imm8 => 1 case Disp8 => 1 case Imm16 => 2 }

  lemma MainOperands(op: bv8)
    requires !IsPrefix(op)
    ensures OperandSize(MainShape(op).operand) == OperandBytes(op)
  {
    hide AluOf;
  }

  /** Decoding an unprefixed instruction: its opcode, its length, and its operand in the byte order of the manual. */
  lemma PlainDecode(m: Memory, pc: Addr)
    requires !IsPrefix(Rd(m, pc))
    ensures var d, op := Decode(m, pc), Rd(m, pc);
            && d.prefix == 0 && d.opcode == op && d.bytes == 1 + OperandBytes(op)
            && (OperandBytes(op) == 2 ==> d.imm16 == Word(Rd(m, Wrap(pc + 2)), Rd(m, Wrap(pc + 1))))
            && Encode(MainShape(op)) == op && d.ty == MainShape(op).ty
  {
    hide MainShape, Encode, Word, Rd, OperandBytes, Wrap;
    MainOperands(Rd(m, pc));
    MainRoundTrip(Rd(m, pc));
    WrapAdd(pc, 1, 1);
  }

  // ---- the ED page ----

  function EncodeEdOther(op: OtherOp, s: Shape): bv8 {
    match op
    case InRC => 0x40 | (s.reg1 << 3) case OutCR => 0x41 | (s.reg1 << 3)
    case SbcHlRr => 0x42 | (s.reg1 << 4) case AdcHlRr => 0x4A | (s.reg1 << 4)
    case LdNnRr => 0x43 | (s.reg1 << 4) case LdRrNnInd => 0x4B | (s.reg1 << 4)
    case Neg => 0x44 case Retn => 0x45 case Im => if s.imm8 == 0 then 0x46 else if s.imm8 == 1 then 0x56 else 0x5E
    case LdIA => 0x47 case LdRA => 0x4F case LdAI => 0x57 case LdAR => 0x5F case Rrd => 0x67 case Rld => 0x6F
    case Ldi => 0xA0 case Cpi => 0xA1 case Ini => 0xA2 case Outi => 0xA3
    case Ldd => 0xA8 case Cpd => 0xA9 case Ind => 0xAA case Outd => 0xAB
    case Cpir => 0xB1 case Inir => 0xB2 case Otir => 0xB3 case Cpdr => 0xB9 case Indr => 0xBA case Otdr => 0xBB
    case _ => 0
  }

  /** The code after ED; 0 for the codes that do nothing. */
  function EncodeEd(s: Shape): bv8 {
    match s.ty
    case Other(op) => EncodeEdOther(op, s)
    case Flag(op) => if op.Ldir? then 0xB0 else if op.Lddr? then 0xB8 else 0
    case _ => 0
  }

  /** The documented twin of an ED code: NEG, RETN and IM have undocumented copies; 0 for codes that do nothing. */
  function EdTwin(op: bv8): bv8 {
    if op < 0x40 || op == 0x77 || op == 0x7F || 0x80 <= op < 0xA0 || op >= 0xC0 || (op >= 0xA0 && op & 7 >= 4) then 0
    else if op >= 0xA0 then op
    else if op & 7 == 4 then 0x44 else if op & 7 == 5 then 0x45
    else if op & 7 == 6 then (if op & 0x18 == 0x10 then 0x56 else if op & 0x18 == 0x18 then 0x5E else 0x46)
    else op
  }

  lemma EdPorts(op: bv8)
    requires 0x40 <= op < 0x80 && op & 7 <= 1
    ensures EncodeEd(EdShape(op)) == EdTwin(op) && OperandSize(EdShape(op).operand) == 0
  {
  }

  lemma EdPairs(op: bv8)
    requires 0x40 <= op < 0x80 && op & 7 == 2
    ensures EncodeEd(EdShape(op)) == EdTwin(op) && OperandSize(EdShape(op).operand) == 0
  {
  }

  lemma EdWords(op: bv8)
    requires 0x40 <= op < 0x80 && op & 7 == 3
    ensures EncodeEd(EdShape(op)) == EdTwin(op) && OperandSize(EdShape(op).operand) == 2
  {
  }

  lemma EdRight(op: bv8)
    requires 0x40 <= op < 0x80 && 4 <= op & 7 <= 6
    ensures EncodeEd(EdShape(op)) == EdTwin(op) && OperandSize(EdShape(op).operand) == 0
  {
  }

  lemma EdLowSevens(op: bv8)
    requires 0x40 <= op < 0x60 && op & 7 == 7
    ensures EncodeEd(EdShape(op)) == EdTwin(op) && OperandSize(EdShape(op).operand) == 0
  {
  }

  lemma EdHighSevens(op: bv8)
    requires 0x60 <= op < 0x80 && op & 7 == 7
    ensures EncodeEd(EdShape(op)) == EdTwin(op) && OperandSize(EdShape(op).operand) == 0
  {
  }

  lemma EdUpOnce(op: bv8)
    requires 0xA0 <= op <= 0xA7
    ensures EncodeEd(EdShape(op)) == EdTwin(op) && OperandSize(EdShape(op).operand) == 0
  {
  }

  lemma EdDownOnce(op: bv8)
    requires 0xA8 <= op <= 0xAF
    ensures EncodeEd(EdShape(op)) == EdTwin(op) && OperandSize(EdShape(op).operand) == 0
  {
  }

  lemma EdUpAll(op: bv8)
    requires 0xB0 <= op <= 0xB7
    ensures EncodeEd(EdShape(op)) == EdTwin(op) && OperandSize(EdShape(op).operand) == 0
  {
  }

  lemma EdDownAll(op: bv8)
    requires 0xB8 <= op <= 0xBF
    ensures EncodeEd(EdShape(op)) == EdTwin(op) && OperandSize(EdShape(op).operand) == 0
  {
  }

  lemma EdNothing(op: bv8)
    requires op < 0x40 || 0x80 <= op < 0xA0 || op >= 0xC0
    ensures EncodeEd(EdShape(op)) == EdTwin(op) && OperandSize(EdShape(op).operand) == 0
  {
  }

  lemma EdRoundTrip(op: bv8)
    ensures EncodeEd(EdShape(op)) == EdTwin(op)
    ensures OperandSize(EdShape(op).operand) == if 0x40 <= op < 0x80 && op & 7 == 3 then 2 else 0
  {
    hide EncodeEd, EdShape, EdTwin;
    if op < 0x40 || 0x80 <= op < 0xA0 || op >= 0xC0 {
      EdNothing(op);
    } else if op < 0x80 {
      if op & 7 <= 1 {
        EdPorts(op);
      } else if op & 7 == 2 {
        EdPairs(op);
      } else if op & 7 == 3 {
        EdWords(op);
      } else if op & 7 <= 6 {
        EdRight(op);
      } else if op < 0x60 {
        EdLowSevens(op);
      } else {
        EdHighSevens(op);
      }
    } else if op < 0xA8 {
      EdUpOnce(op);
    } else if op < 0xB0 {
      EdDownOnce(op);
    } else if op < 0xB8 {
      EdUpAll(op);
    } else {
      EdDownAll(op);
    }
  }

  /** Decoding after ED: the instruction an assembler would encode so, its length, its operand. */
  lemma EdDecode(m: Memory, pc: Addr)
    requires Rd(m, pc) == 0xED
    ensures var d, op := Decode(m, pc), Rd(m, Wrap(pc + 1));
            && d.prefix == 0xED && d.opcode == op && EncodeEd(EdShape(op)) == EdTwin(op) && d.ty == EdShape(op).ty
            && d.reg1 == EdShape(op).reg1 && d.bytes == (if 0x40 <= op < 0x80 && op & 7 == 3 then 4 else 2)
            && (d.bytes == 4 ==> d.imm16 == Word(Rd(m, Wrap(pc + 3)), Rd(m, Wrap(pc + 2))))
  {
    hide EdShape, MainShape, EncodeEd, EdTwin, Word, Rd, Wrap;
    var op := Rd(m, Wrap(pc + 1));
    EdRoundTrip(op);
    WrapAdd(pc, 2, 1);
  }

  // ---- the CB page ----

  /** CB sub, and DD CB d sub: the last byte says what to do, the displacement comes before it. */
  lemma CbDecode(m: Memory, pc: Addr)
    requires Rd(m, pc) == 0xCB || (IsIndexPrefix(Rd(m, pc)) && Rd(m, Wrap(pc + 1)) == 0xCB)
    ensures var d := Decode(m, pc);
            && d.ty == Flag(Cb) && d.imm8 == d.opcode
            && if Rd(m, pc) == 0xCB then d.prefix == 0xCB && d.bytes == 2 && d.imm8 == Rd(m, Wrap(pc + 1))
               else d.prefix == Rd(m, pc) && d.bytes == 4 && d.disp == Rd(m, Wrap(pc + 2))
                    && d.imm8 == Rd(m, Wrap(pc + 3))
  {
    hide EdShape, MainShape, PrefixedShape, IndexedShape, NeedsDisp, Fetch, Rd, Wrap;
    WrapAdd(pc, 1, 1);
    WrapAdd(pc, 1, 2);
    OnePrefix(m, pc);
  }

  /** With one prefix before it, an opcode is the second byte. */
  lemma OnePrefix(m: Memory, pc: Addr)
    ensures IsIndexPrefix(Rd(m, pc)) && !IsIndexPrefix(Rd(m, Wrap(pc + 1))) ==>
              Decode(m, pc) == DecodeOp(m, Wrap(pc + 1), Rd(m, pc), 2)
    ensures !IsIndexPrefix(Rd(m, pc)) ==> Decode(m, pc) == DecodeOp(m, pc, 0, 1)
  {
    hide DecodeOp, Rd, Wrap;
    if IsIndexPrefix(Rd(m, pc)) {
      assert Decode(m, pc) == DecodeFrom(m, Wrap(pc + 1), Rd(m, pc), 2, 3);
    }
  }

  // ---- the DD and FD pages ----

  function EncodeIndexed(s: Shape): bv8 {
    match s.ty
    case Load(op) =>
      if op.LdIndN? then 0x36 else if op.LdAInd? then 0x7E else if op.LdIndA? then 0x77
      else if op.LdRInd? then 0x46 | (s.reg2 << 3) else 0x70 | s.reg2
    case Flag(op) =>
      if op.IncInd? then 0x34 else if op.DecInd? then 0x35 else if op.AluInd? then 0x86 | (AluCode(op.alu) << 3) else 0
    case _ => 0
  }

  /** Opcodes with an (IX+d) operand. */
  predicate HasDisplacement(op: bv8) {
    op == 0x34 || op == 0x35 || op == 0x36 || (0x40 <= op < 0x80 && op != 0x76 && (op & 7 == 6 || (op >> 3) & 7 == 6))
    || (0x80 <= op < 0xC0 && op & 7 == 6)
  }

  lemma IndexedRoundTrip(op: bv8)
    ensures NeedsDisp(op) <==> HasDisplacement(op)
    ensures NeedsDisp(op) ==> EncodeIndexed(IndexedShape(op)) == op
    ensures NeedsDisp(op) ==> IndexedShape(op).operand == if op == 0x36 then Imm8 else NoOperand
  {
    hide AluOf, AluCode;
    AluCodes((op >> 3) & 7);
  }

  function FullRegister(r: bv8): bv8 { if r == 8 then 4 else if r == 9 then 5 else r }

  /** An instruction without displacement under a prefix: IXH and IXL stand for H and L, IX for HL. */
  function EncodePrefixed(s: Shape): bv8 {
    if s.ty == Other(LdAIxh) then 0x7C else if s.ty == Other(LdAIxl) then 0x7D
    else if s.ty.Stack? then (if s.ty.stack.PushRr? then 0xC5 else 0xC1) | ((if s.reg1 == 4 then 2 else s.reg1) << 4)
    else Encode(s.(reg1 := FullRegister(s.reg1), reg2 := FullRegister(s.reg2)))
  }

  lemma MainRegisters(op: bv8)
    ensures MainShape(op).reg1 <= 7 && MainShape(op).reg2 <= 7
    ensures MainShape(op).ty.Stack? ==> MainShape(op).reg1 <= 3
    ensures !(MainShape(op).ty == Other(LdAIxh) || MainShape(op).ty == Other(LdAIxl))
  {
    hide AluOf;
  }

  lemma HalvesBack(s: Shape)
    requires s.reg1 <= 7 && s.reg2 <= 7
    ensures FullRegister(HalfIndex(s.reg1)) == s.reg1 && FullRegister(HalfIndex(s.reg2)) == s.reg2
    ensures FullRegister(s.reg1) == s.reg1 && FullRegister(s.reg2) == s.reg2
  {
  }

  lemma PrefixedRoundTrip(op: bv8)
    requires !IsPrefix(op)
    ensures EncodePrefixed(PrefixedShape(op)) == op && PrefixedShape(op).operand == MainShape(op).operand
    ensures PrefixedShape(op).cc == MainShape(op).cc
  {
    hide MainShape, Encode;
    MainRoundTrip(op);
    MainRegisters(op);
    HalvesBack(MainShape(op));
    if MainShape(op).ty.Stack? {
      StackCode(op);
    }
    SpecialShapes();
  }

  lemma StackCode(op: bv8)
    requires !IsPrefix(op) && MainShape(op).ty.Stack?
    ensures op == (if MainShape(op).ty.stack.PushRr? then 0xC5 else 0xC1) | (MainShape(op).reg1 << 4)
  {
    hide MainShape;
    MainRoundTrip(op);
  }

  lemma SpecialShapes()
    ensures MainShape(0x7C).operand == NoOperand && MainShape(0x7D).operand == NoOperand
    ensures MainShape(0xE1).operand == NoOperand && MainShape(0xE5).operand == NoOperand
    ensures MainShape(0x7C).cc == 0 && MainShape(0x7D).cc == 0 && MainShape(0xE1).cc == 0 && MainShape(0xE5).cc == 0
  {
  }

  /** Decoding after DD or FD, with a displacement: it comes right after the opcode, and an immediate byte after it. */
  lemma IndexedDecode(m: Memory, pc: Addr)
    requires IsIndexPrefix(Rd(m, pc)) && !IsPrefix(Rd(m, Wrap(pc + 1))) && HasDisplacement(Rd(m, Wrap(pc + 1)))
    ensures var d, op := Decode(m, pc), Rd(m, Wrap(pc + 1));
            && d.prefix == Rd(m, pc) && d.opcode == op
            && d.disp == Rd(m, Wrap(pc + 2)) && d.bytes == (if op == 0x36 then 4 else 3)
            && (op == 0x36 ==> d.imm8 == Rd(m, Wrap(pc + 3)))
            && d.ty == IndexedShape(op).ty && EncodeIndexed(IndexedShape(op)) == op
  {
    hide MainShape, PrefixedShape, IndexedShape, EncodeIndexed, NeedsDisp, HasDisplacement, Rd, Rd16, Wrap, EdShape;
    var op := Rd(m, Wrap(pc + 1));
    OnePrefix(m, pc);
    IndexedRoundTrip(op);
    WrapAdd(pc, 1, 1);
    WrapAdd(pc, 1, 2);
  }

  /** And without: operands as on the main page. */
  lemma PrefixedDecode(m: Memory, pc: Addr)
    requires IsIndexPrefix(Rd(m, pc)) && !IsPrefix(Rd(m, Wrap(pc + 1))) && !HasDisplacement(Rd(m, Wrap(pc + 1)))
    ensures var d, op := Decode(m, pc), Rd(m, Wrap(pc + 1));
            && d.prefix == Rd(m, pc) && d.opcode == op && d.bytes == 2 + OperandBytes(op)
            && (OperandBytes(op) == 2 ==> d.imm16 == Word(Rd(m, Wrap(pc + 3)), Rd(m, Wrap(pc + 2))))
            && d.ty == PrefixedShape(op).ty && EncodePrefixed(PrefixedShape(op)) == op
  {
    hide MainShape, PrefixedShape, IndexedShape, EncodePrefixed, NeedsDisp, HasDisplacement, Word, Rd, Wrap,
         OperandBytes, EdShape;
    var op := Rd(m, Wrap(pc + 1));
    OnePrefix(m, pc);
    IndexedRoundTrip(op);
    PrefixedRoundTrip(op);
    MainOperands(op);
    WrapAdd(pc, 1, 1);
    WrapAdd(pc, 2, 1);
  }
}
