/** The interpreter does what the bytes say: decoding and executing agree with the reference for every instruction the
    interpreter does not leave to the host. */
module ReferenceProof {
  import opened Bits
  import opened Decoder
  import opened Interp
  import opened Reference

  // ---- words ----

  lemma OffsetIs(d: bv8)
    ensures Signed(d) == Offset(d)
  {
    if d & 0x80 != 0 {
      assert d >= 0x80;
      assert d as int >= 128;
    } else {
      assert d < 0x80;
      assert (d as int) < 128;
    }
  }

  lemma Words()
    ensures forall a: Addr, k: int {:trigger Up(a, k)} :: Up(a, k) == Wrap(a + k)
    ensures forall m: Memory, a: Addr {:trigger At(m, a)} :: At(m, a) == Rd(m, a)
    ensures forall w: Addr {:trigger Upper(w)} :: Upper(w) == Hi(w)
    ensures forall w: Addr {:trigger Lower(w)} :: Lower(w) == Lo(w)
    ensures forall h: bv8, l: bv8 {:trigger Join(h, l)} :: Join(h, l) == Word(h, l)
  {
  }

  // ---- flags ----

  lemma ParityIs(v: bv8)
    ensures Parity8(v) == If(EvenOnes(v), 0x04)
  {
  }

  lemma PlusOverflow(a: bv8, b: bv8, c: bv8)
    requires c <= 1
    ensures !Fits(Wide(a) + Wide(b) + (c as bv16)) <==> (a ^ b) & 0x80 == 0 && ((a + b + c) ^ a) & 0x80 != 0
  {
  }

  lemma MinusOverflow(a: bv8, b: bv8, c: bv8)
    requires c <= 1
    ensures !Fits(Wide(a) - Wide(b) - (c as bv16)) <==> (a ^ b) & 0x80 != 0 && ((a - b - c) ^ a) & 0x80 != 0
  {
  }

  lemma LowBorrow(a: bv8, b: bv8, c: bv8)
    requires c <= 1
    ensures ((a & 0xF) - (b & 0xF) - c) & 0x10 != 0 <==> (a & 0xF) < (b & 0xF) + c
  {
  }

  lemma SumByte(a: bv8, b: bv8, c: bv8)
    ensures (((a as bv16) + (b as bv16) + (c as bv16)) & 0xFF) as bv8 == a + b + c
  {
  }

  /** The flag byte from its conditions, in either way of writing it. */
  lemma FlagsIs(v: bv8, xy: bv8, h: bool, p: bool, n: bool, c: bool)
    ensures F(v, xy, h, p, n, c)
         == When(n, FLAG_N) | XyFrom(xy) | ZeroSign(v) | When(h, FLAG_H) | When(c, FLAG_C) | When(p, FLAG_PV)
  {
  }

  lemma PlusIs(a: bv8, b: bv8, c: bv8)
    requires c <= 1
    ensures AddWith(a, b, c) == Plus(a, b, c)
  {
    hide F, Fits, Wide, ZeroSign, XyFrom;
    var v := a + b + c;
    SumByte(a, b, c);
    PlusOverflow(a, b, c);
    FlagsIs(v, v, (a & 0xF) + (b & 0xF) + c > 0xF, (a ^ b) & 0x80 == 0 && (v ^ a) & 0x80 != 0, false,
            (a as bv16) + (b as bv16) + (c as bv16) > 0xFF);
    NoBit(XyFrom(v), ZeroSign(v));
  }

  lemma NoBit(x: bv8, y: bv8)
    ensures When(false, FLAG_N) | x | y == x | y
  {
  }

  lemma MinusCarries(a: bv8, b: bv8, c: bv8)
    requires c <= 1
    ensures SubWith(a, b, c).v == Minus(a, b, c).v && SubWith(a, b, c).f & 0x13 == Minus(a, b, c).f & 0x13
  {
    hide Fits, Wide;
  }

  lemma MinusRest(a: bv8, b: bv8, c: bv8)
    requires c <= 1
    ensures SubWith(a, b, c).f & 0xE8 == Minus(a, b, c).f & 0xE8
  {
    hide Fits, Wide;
  }

  lemma MinusOver(a: bv8, b: bv8, c: bv8)
    requires c <= 1
    ensures SubWith(a, b, c).f & 0x04 == Minus(a, b, c).f & 0x04
  {
    hide Fits, Wide;
    MinusOverflow(a, b, c);
  }

  lemma ThreeParts(f: bv8, g: bv8)
    requires f & 0x13 == g & 0x13 && f & 0xE8 == g & 0xE8 && f & 0x04 == g & 0x04
    ensures f == g
  {
  }

  lemma MinusIs(a: bv8, b: bv8, c: bv8)
    requires c <= 1
    ensures SubWith(a, b, c) == Minus(a, b, c)
  {
    hide SubWith, Minus;
    MinusCarries(a, b, c);
    MinusRest(a, b, c);
    MinusOver(a, b, c);
    ThreeParts(SubWith(a, b, c).f, Minus(a, b, c).f);
  }

  lemma SubIs(a: bv8, b: bv8)
    ensures Res8(a - b, SubFlags(a, b, a - b, a - b)) == SubWith(a, b, 0)
    ensures SubFlags(a, b, a - b, b) == (SubFlags(a, b, a - b, a - b) & 0xD7) | (b & 0x28)
  {
  }

  lemma BitwiseIs(v: bv8)
    ensures Bitwise(v, true) == Res8(v, (LogicFlags(v) & 0xFC) | FLAG_H)
            && Bitwise(v, false) == Res8(v, LogicFlags(v) & 0xEC)
  {
    hide EvenOnes, Parity8;
    ParityIs(v);
  }

  lemma LowCarry(f: bv8)
    ensures f & FLAG_C == f & 1 && f & 1 <= 1
  {
  }

  lemma ArithIs(i: bv8, a: bv8, b: bv8, f: bv8)
    requires i <= 7
    ensures Alu8(AluOf(i), a, b, f) == Arith(i, a, b, f)
  {
    hide Alu8, AluOf, Arith;
    if i <= 3 {
      SumsAre(i, a, b, f);
    } else if i <= 6 {
      LogicIs(i, a, b, f);
    } else {
      CompareIs(a, b, f);
    }
  }

  lemma SumsAre(i: bv8, a: bv8, b: bv8, f: bv8)
    requires i <= 3
    ensures Alu8(AluOf(i), a, b, f) == Arith(i, a, b, f)
  {
    hide AddWith, SubWith, SubFlags, Plus, Minus, Bitwise, LogicFlags;
    LowCarry(f);
    PlusIs(a, b, 0);
    PlusIs(a, b, f & 1);
    MinusIs(a, b, 0);
    MinusIs(a, b, f & 1);
    SubIs(a, b);
  }

  lemma LogicIs(i: bv8, a: bv8, b: bv8, f: bv8)
    requires 4 <= i <= 6
    ensures Alu8(AluOf(i), a, b, f) == Arith(i, a, b, f)
  {
    hide AddWith, SubWith, SubFlags, Plus, Minus, Bitwise, LogicFlags, Compared;
    BitwiseIs(a & b);
    BitwiseIs(a ^ b);
    BitwiseIs(a | b);
  }

  lemma CompareIs(a: bv8, b: bv8, f: bv8)
    ensures Alu8(AluOf(7), a, b, f) == Arith(7, a, b, f)
  {
    hide AddWith, SubWith, SubFlags, Plus, Minus, Bitwise, LogicFlags;
    MinusIs(a, b, 0);
    SubIs(a, b);
  }

  lemma OneMore(v: bv8, f: bv8)
    ensures Inc8(v, f) == Res8(AddWith(v, 1, 0).v, (AddWith(v, 1, 0).f & 0xFE) | (f & 1))
  {
  }

  lemma OneLess(v: bv8, f: bv8)
    ensures Dec8(v, f) == Res8(SubWith(v, 1, 0).v, (SubWith(v, 1, 0).f & 0xFE) | (f & 1))
  {
  }

  lemma SteppedIs(up: bool, v: bv8, f: bv8)
    ensures IncDec8(up, v, f) == Stepped(up, v, f)
  {
    hide Inc8, Dec8, AddWith, SubWith, Plus, Minus;
    OneMore(v, f);
    OneLess(v, f);
    PlusIs(v, 1, 0);
    MinusIs(v, 1, 0);
  }

  /** The byte and the bit that moved out. */
  lemma ShiftedIs(i: bv8, v: bv8, f: bv8)
    requires i <= 7
    ensures CbRotate(i, v, f).v == Shifted(i, v, f & 1).0
    ensures Shifted(i, v, f & 1).1 == (if i & 1 == 0 then v >> 7 else v & 1) && Shifted(i, v, f & 1).1 <= 1
  {
    hide Parity8, ZeroSign, XyFrom;
    LowCarry(f);
  }

  lemma OutBit(c: bv8)
    requires c <= 1
    ensures c == When(c == 1, FLAG_C)
  {
  }

  lemma InOrder(c: bv8, z: bv8, p: bv8, x: bv8)
    ensures c | z | p | x == When(false, FLAG_N) | x | z | When(false, FLAG_H) | c | p
  {
  }

  lemma RotatedIs(i: bv8, v: bv8, f: bv8)
    requires i <= 7
    ensures CbRotate(i, v, f) == Rotated(i, v, f)
  {
    hide EvenOnes, Parity8, ZeroSign, XyFrom, F, Shifted;
    ShiftedIs(i, v, f);
    var s := Shifted(i, v, f & 1);
    ParityIs(s.0);
    OutBit(s.1);
    FlagsIs(s.0, s.0, false, EvenOnes(s.0), false, s.1 == 1);
    InOrder(s.1, ZeroSign(s.0), Parity8(s.0), XyFrom(s.0));
    RotateFlags(i, v, f);
  }

  lemma RotateFlags(i: bv8, v: bv8, f: bv8)
    ensures CbRotate(i, v, f).f == (if i & 1 == 0 then v >> 7 else v & 1) | ZeroSign(CbRotate(i, v, f).v)
                                   | Parity8(CbRotate(i, v, f).v) | XyFrom(CbRotate(i, v, f).v)
  {
    hide Parity8, ZeroSign, XyFrom;
  }

  lemma AccByte(op: FlagOp, i: bv8, a: bv8, f: bv8)
    requires (op.Rlca? && i == 0) || (op.Rrca? && i == 1) || (op.Rla? && i == 2) || (op.Rra? && i == 3)
    ensures AccRotate(op, a, f).v == Shifted(i, a, f & 1).0
    ensures Shifted(i, a, f & 1).1 == if op.Rlca? || op.Rla? then a >> 7 else a & 1
  {
    LowCarry(f);
  }

  lemma AccFlags(op: FlagOp, a: bv8, f: bv8)
    requires op.Rlca? || op.Rrca? || op.Rla? || op.Rra?
    ensures AccRotate(op, a, f).f
         == (f & FLAG_SZP) | (if op.Rlca? || op.Rla? then a >> 7 else a & 1) | (AccRotate(op, a, f).v & FLAG_XY)
  {
  }

  lemma AccOrder(f: bv8, c: bv8, x: bv8)
    ensures (f & FLAG_SZP) | c | (x & FLAG_XY) == (f & 0xC4) | (x & 0x28) | c
  {
  }

  lemma AccRotatedIs(op: FlagOp, i: bv8, a: bv8, f: bv8)
    requires (op.Rlca? && i == 0) || (op.Rrca? && i == 1) || (op.Rla? && i == 2) || (op.Rra? && i == 3)
    ensures AccRotate(op, a, f) == AccRotated(i, a, f)
  {
    hide AccRotate, Shifted;
    AccByte(op, i, a, f);
    AccFlags(op, a, f);
    AccOrder(f, Shifted(i, a, f & 1).1, Shifted(i, a, f & 1).0);
  }

  lemma AdjustedByte(a: bv8, f: bv8)
    ensures DaaStep(a, f).v == Adjusted(a, f).v
  {
    hide EvenOnes, Parity8, F, ZeroSign, XyFrom;
  }

  /** The half carry out of the correction, in either way of writing it. */
  lemma AdjustedHalf(a: bv8, c: bool, h: bool, n: bool)
    ensures var six := When((a & 0x0F) > 9 || h, 0x06) | When(a > 0x99 || c, 0x60);
            var v := if n then a - six else a + six;
            (a ^ v) & 0x10 != 0 <==> if n then h && (a & 0x0F) < 6 else (a & 0x0F) > 9
  {
  }

  lemma DaaOrder(n: bv8, c: bv8, h: bv8, x: bv8, z: bv8, p: bv8)
    ensures n | c | h | x | z | p == n | x | z | h | c | p
  {
  }

  lemma AdjustedIs(a: bv8, f: bv8)
    ensures DaaStep(a, f) == Adjusted(a, f)
  {
    hide EvenOnes, Parity8, F, ZeroSign, XyFrom;
    var c, h, n := f & FLAG_C != 0, f & FLAG_H != 0, f & FLAG_N != 0;
    var high := a > 0x99 || c;
    AdjustedByte(a, f);
    AdjustedHalf(a, c, h, n);
    var v := DaaStep(a, f).v;
    var newH := if n then h && (a & 0x0F) < 6 else (a & 0x0F) > 9;
    ParityIs(v);
    FlagsIs(v, v, newH, EvenOnes(v), n, high);
    DaaOrder(When(n, FLAG_N), When(high, FLAG_C), When(newH, FLAG_H), XyFrom(v), ZeroSign(v), Parity8(v));
  }

  lemma CarriesIs(a: bv8, f: bv8, q: bool)
    ensures ScfFlags(a, f, q) == CarryFlags(a, f, q, false, true)
    ensures CcfFlags(a, f, q) == CarryFlags(a, f, q, Carry(f), !Carry(f))
    ensures !a == Inverted(a) && CplFlags(!a, f) == CplF(a, f)
  {
  }

  lemma WideIs(x: bv16, y: bv16, f: bv8)
    ensures AddHlFlags(x, y, f) == WideFlags(x, y, f)
  {
  }

  lemma PairFlagsIs(x: Addr, y: Addr, f: bv8)
    ensures AddHlFlagsW(x, y, f) == PairFlags(x, y, f)
  {
    hide AddHlFlags, WideFlags;
    WideIs(x as bv16, y as bv16, f);
  }

  lemma MaskIs(n: bv8)
    requires n <= 7
    ensures BitMask(n) == (1 as bv8) << n
  {
  }

  lemma TestedIs(n: bv8, v: bv8, xy: bv8, f: bv8)
    requires n <= 7
    ensures BitFlags(n, v, xy, f) == Tested(n, v, xy, f)
  {
  }

  lemma ClearedIs(n: bv8, v: bv8)
    requires n <= 7
    ensures ResSet(2, n, v) == Cleared(n, v) && ResSet(3, n, v) == Raised(n, v)
  {
    MaskIs(n);
  }

  lemma HoldsIs(cc: bv8, f: bv8)
    requires cc <= 7
    ensures CondTrue(cc, f) == Holds(cc, f)
  {
  }

  // ---- registers ----

  function PrefixOf(x: Index): bv8 { match x case UseHl => 0 case UseIx => 0xDD case UseIy => 0xFD }

  /** The register code the decoder uses for H and L under a prefix. */
  function CodeOf(x: Index, i: bv8): bv8 { if x == UseHl then i else HalfIndex(i) }

  lemma RegIs(r: Regs, x: Index, i: bv8, v: bv8)
    requires i <= 7 && i != 6
    ensures GetReg8(r, CodeOf(x, i), PrefixOf(x)) == Reg(r, x, i)
    ensures SetReg8(r, CodeOf(x, i), PrefixOf(x), v) == WithReg(r, x, i, v)
  {
    hide Upper, Lower, Join, Hi, Lo, Word;
    Words();
  }

  /** Plain H and L, whatever the prefix. */
  lemma PlainRegIs(r: Regs, i: bv8, prefix: bv8, v: bv8)
    requires i <= 7 && i != 6
    ensures GetReg8(r, i, prefix) == Reg(r, UseHl, i) && SetReg8(r, i, prefix, v) == WithReg(r, UseHl, i, v)
  {
    hide Upper, Lower, Join, Hi, Lo, Word;
    Words();
  }

  lemma PairIs(r: Regs, x: Index, p: bv8, w: Addr)
    requires p <= 3
    ensures GetPairP(r, p, PrefixOf(x)) == Pair(r, x, p) && SetPairP(r, p, PrefixOf(x), w) == WithPair(r, x, p, w)
    ensures GetHlLike(r, PrefixOf(x)) == Base(r, x) && SetHlLike(r, PrefixOf(x), w) == WithBase(r, x, w)
  {
  }

  /** pc after an instruction whose opcode byte, the `bytes`-th of it, is at `at`. */
  lemma FetchedIs(st: State, at: Addr, bytes: nat, n: nat)
    requires bytes >= 1 && at == Wrap(st.regs.pc + (bytes - 1))
    ensures st.regs.(pc := Wrap(st.regs.pc + (bytes - 1 + n)), q := false) == Fetched(st, at, n)
  {
    WrapAdd(st.regs.pc, bytes - 1, n);
  }

  lemma OperandIs(st: State, at: Addr, x: Index, r: Regs, d: Decoded)
    requires r.ix == st.regs.ix && r.iy == st.regs.iy && r.hl == st.regs.hl
    requires d.prefix == PrefixOf(x) && (x != UseHl ==> d.disp == Rd(st.mem, Wrap(at + 1)))
    ensures EffectiveAddr(r, d) == OperandAt(st, at, x)
  {
    hide Signed, Offset, Wrap, Up, Rd, At;
    Words();
    OffsetIs(d.disp);
  }

  // ---- decoding the main page ----

  predicate OnMainPage(op: bv8) { op != 0xCB && op != 0xED && op != 0xDD && op != 0xFD }

  /** The shape of an instruction without (HL) operand, under any prefix. */
  function ShapeOf(op: bv8, x: Index): Shape { if x == UseHl then MainShape(op) else PrefixedShape(op) }

  lemma DecodePlain(m: Memory, at: Addr, x: Index, bytes: nat)
    requires OnMainPage(Rd(m, at)) && (x == UseHl || !NeedsDisp(Rd(m, at)))
    ensures DecodeOp(m, at, PrefixOf(x), bytes)
            == Fetch(m, Wrap(at + 1), ShapeOf(Rd(m, at), x), PrefixOf(x), Rd(m, at), 0, bytes)
  {
    hide Rd, MainShape, PrefixedShape, IndexedShape, Fetch, NeedsDisp, Wrap;
  }

  lemma DecodeIndexed(m: Memory, at: Addr, x: Index, bytes: nat)
    requires OnMainPage(Rd(m, at)) && x != UseHl && NeedsDisp(Rd(m, at))
    ensures DecodeOp(m, at, PrefixOf(x), bytes)
         == Fetch(m, Wrap(at + 2), IndexedShape(Rd(m, at)), PrefixOf(x), Rd(m, at), Rd(m, Wrap(at + 1)), bytes + 1)
  {
    hide Rd, MainShape, PrefixedShape, IndexedShape, Fetch, NeedsDisp, Wrap;
  }

  /** Instructions that do not name H or L are the same under a prefix. */
  lemma ShapeSame(op: bv8, x: Index)
    requires op != 0x7C && op != 0x7D && op != 0xE1 && op != 0xE5 && !TakesHalfIndex(MainShape(op).ty)
    ensures ShapeOf(op, x) == MainShape(op)
  {
    hide MainShape;
  }

  // ---- families ----

  /** What a family of opcodes has to show: executing the decoded instruction is `t`. */
  ghost predicate Runs(host: Host, st: State, at: Addr, x: Index, bytes: nat, t: State) {
    ExecAt(host, DecodeOp(st.mem, at, PrefixOf(x), bytes), st) == t
  }

  ghost predicate Ready(st: State, at: Addr, bytes: nat) { bytes >= 1 && at == Wrap(st.regs.pc + (bytes - 1)) }

  lemma RelativeShape(op: bv8, y: bv8)
    requires op < 0x40 && op & 7 == 0 && y == op >> 3 && y != 1
    ensures MainShape(op) == if y == 0 then Plain(Load(Nop)) else if y == 2 then With(Branch(Djnz), Disp8)
                             else if y == 3 then With(Branch(JrE), Disp8) else OnCc(Branch(JrCc), y - 4, Disp8)
    ensures y <= 7 && !NeedsDisp(op)
  {
  }

  lemma RelativeRuns(host: Host, st: State, at: Addr, x: Index, bytes: nat, y: bv8)
    requires Ready(st, at, bytes) && var op := Rd(st.mem, at); op < 0x40 && op & 7 == 0 && y == op >> 3 && y != 1
    ensures y <= 7 && Runs(host, st, at, x, bytes, Relative(st, at, y))
  {
    hide Rd, At, Up, Wrap, MainShape, PrefixedShape, NeedsDisp, DecodeOp, Upper, Lower, Join, Hi, Lo, Word, Signed,
         Offset,
         CondTrue, Reference.Holds, Apply, IndexedShape, ExecPtr, ExecFlag, ExecStack;
    var op := Rd(st.mem, at);
    RelativeShape(op, y);
    DecodePlain(st.mem, at, x, bytes);
    ShapeSame(op, x);
    Words();
    FetchedIs(st, at, bytes, 1);
    FetchedIs(st, at, bytes, 2);
    OffsetIs(Rd(st.mem, Wrap(at + 1)));
    NoWrites(st.mem);
    if y >= 4 {
      HoldsIs(y - 4, st.regs.f);
    }
  }

  lemma NoWrites(m: Memory)
    ensures Apply(m, []) == m
  {
  }

  lemma WidesShape(op: bv8, p: bv8)
    requires op < 0x40 && op & 7 == 1 && p == op >> 4
    ensures MainShape(op) == if op & 8 == 0 then OnReg(Load(LdRrNn), p, Imm16) else OnReg(Ptr(AddHlRr), p, NoOperand)
    ensures p <= 3 && !NeedsDisp(op)
  {
  }

  lemma WidesRuns(host: Host, st: State, at: Addr, x: Index, bytes: nat, p: bv8)
    requires Ready(st, at, bytes) && var op := Rd(st.mem, at); op < 0x40 && op & 7 == 1 && p == op >> 4
    ensures Runs(host, st, at, x, bytes, Wides(st, at, x, p, Rd(st.mem, at) & 8 != 0))
  {
    hide Rd, At, Up, Wrap, MainShape, PrefixedShape, NeedsDisp, DecodeOp, Join, Word, Apply, IndexedShape,
         GetPairP, SetPairP, ExecAddHl, Pair, WithPair, Base, WithBase, ExecFlag, ExecStack, ExecBranch, PairFlags;
    var op := Rd(st.mem, at);
    WidesShape(op, p);
    DecodePlain(st.mem, at, x, bytes);
    ShapeSame(op, x);
    Words();
    FetchedIs(st, at, bytes, 1);
    FetchedIs(st, at, bytes, 3);
    NoWrites(st.mem);
    PairIs(Fetched(st, at, 3), x, p, At2(st.mem, Up(at, 1)));
    if op & 8 != 0 {
      AddRuns(Fetched(st, at, 1), x, p, DecodeOp(st.mem, at, PrefixOf(x), bytes));
    }
  }

  lemma AddRuns(r: Regs, x: Index, p: bv8, d: Decoded)
    requires p <= 3 && d.prefix == PrefixOf(x) && d.reg1 == p
    ensures var a, b := Base(r, x), Pair(r, x, p);
            ExecAddHl(r, d)
                == Out(WithBase(r, x, Up(a, b)).(f := PairFlags(a, b, r.f), q := true, memptr := Up(a, 1)), [])
  {
    hide Up, Wrap, GetHlLike, SetHlLike, GetPair, Pair, Base, WithBase, AddHlFlagsW, PairFlags;
    Words();
    PairIs(r, x, p, Wrap(Base(r, x) + Pair(r, x, p)));
    SourceIs(r, x, p);
    PairFlagsIs(Base(r, x), Pair(r, x, p), r.f);
  }

  /** ADD HL's source. */
  lemma SourceIs(r: Regs, x: Index, p: bv8)
    requires p <= 3
    ensures (if p == 3 then r.sp else if p == 2 then GetHlLike(r, PrefixOf(x)) else GetPair(r, p)) == Pair(r, x, p)
  {
  }

  lemma IndirectShape(op: bv8, y: bv8)
    requires op < 0x40 && op & 7 == 2 && y == op >> 3
    ensures MainShape(op) == if y == 0 then Plain(Ptr(LdBcA)) else if y == 1 then Plain(Ptr(LdABc))
                             else if y == 2 then Plain(Ptr(LdDeA)) else if y == 3 then Plain(Ptr(LdADe))
                             else if y == 4 then With(Ptr(LdNnHl), Imm16)
                                 else if y == 5 then With(Ptr(LdHlIndNn), Imm16)
                             else if y == 6 then With(Ptr(LdNnA), Imm16) else With(Ptr(LdANn), Imm16)
    ensures y <= 7 && !NeedsDisp(op)
  {
  }

  lemma IndirectRuns(host: Host, st: State, at: Addr, x: Index, bytes: nat, y: bv8)
    requires Ready(st, at, bytes) && var op := Rd(st.mem, at); op < 0x40 && op & 7 == 2 && y == op >> 3
    ensures Runs(host, st, at, x, bytes, Indirect(st, at, x, y))
  {
    hide Runs, Indirect, Ready, Rd;
    if y <= 3 {
      ThroughPairRuns(host, st, at, x, bytes, y);
    } else {
      AbsoluteRuns(host, st, at, x, bytes, y);
    }
  }

  lemma ThroughPairRuns(host: Host, st: State, at: Addr, x: Index, bytes: nat, y: bv8)
    requires Ready(st, at, bytes) && var op := Rd(st.mem, at); op < 0x40 && op & 7 == 2 && y == op >> 3 && y <= 3
    ensures Runs(host, st, at, x, bytes, Indirect(st, at, x, y))
  {
    hide Rd, At, Up, Wrap, MainShape, PrefixedShape, NeedsDisp, DecodeOp, Join, Word, Upper, Lower, Hi, Lo, Apply,
         IndexedShape, GetHlLike, SetHlLike, Base, WithBase, ExecAddHl, ExecLoad, ExecFlag, ExecStack, ExecBranch;
    var op := Rd(st.mem, at);
    IndirectShape(op, y);
    DecodePlain(st.mem, at, x, bytes);
    ShapeSame(op, x);
    Words();
    FetchedIs(st, at, bytes, 1);
    NoWrites(st.mem);
    var r := Fetched(st, at, 1);
    OneWrite(st.mem, r.bc, r.a);
    OneWrite(st.mem, r.de, r.a);
  }

  lemma AbsoluteRuns(host: Host, st: State, at: Addr, x: Index, bytes: nat, y: bv8)
    requires Ready(st, at, bytes) && var op := Rd(st.mem, at); op < 0x40 && op & 7 == 2 && y == op >> 3 && y > 3
    ensures Runs(host, st, at, x, bytes, Indirect(st, at, x, y))
  {
    hide Rd, At, Up, Wrap, MainShape, PrefixedShape, NeedsDisp, DecodeOp, Join, Word, Upper, Lower, Hi, Lo, Apply,
         IndexedShape, GetHlLike, SetHlLike, Base, WithBase, ExecAddHl, ExecLoad, ExecFlag, ExecStack, ExecBranch;
    var op := Rd(st.mem, at);
    IndirectShape(op, y);
    DecodePlain(st.mem, at, x, bytes);
    ShapeSame(op, x);
    Words();
    FetchedIs(st, at, bytes, 3);
    NoWrites(st.mem);
    var r, nn := Fetched(st, at, 3), At2(st.mem, Up(at, 1));
    PairIs(r, x, 2, At2(st.mem, nn));
    OneWrite(st.mem, nn, r.a);
    TwoWrites(st.mem, nn, Base(r, x));
  }

  lemma OneWrite(m: Memory, a: Addr, v: bv8)
    ensures Apply(m, [Store(a, v)]) == m[a := v]
  {
    assert [Store(a, v)][1..] == [];
    NoWrites(m[a := v]);
  }

  lemma TwoWrites(m: Memory, a: Addr, w: Addr)
    ensures Apply(m, [Store(a, Lo(w)), Store(Wrap(a + 1), Hi(w))]) == Put2(m, a, w)
  {
    hide Lo, Hi, Wrap, Upper, Lower, Up;
    Words();
    var ws := [Store(a, Lo(w)), Store(Wrap(a + 1), Hi(w))];
    assert ws[1..] == [Store(Wrap(a + 1), Hi(w))];
    OneWrite(m[a := Lo(w)], Wrap(a + 1), Hi(w));
  }

  lemma PairStepShape(op: bv8, p: bv8)
    requires op < 0x40 && op & 7 == 3 && p == op >> 4
    ensures MainShape(op) == OnReg(Load(if op & 8 == 0 then IncRr else DecRr), p, NoOperand)
    ensures p <= 3 && !NeedsDisp(op)
  {
  }

  lemma PairStepRuns(host: Host, st: State, at: Addr, x: Index, bytes: nat, p: bv8)
    requires Ready(st, at, bytes) && var op := Rd(st.mem, at); op < 0x40 && op & 7 == 3 && p == op >> 4
    ensures var r := Fetched(st, at, 1);
            var by1 := if Rd(st.mem, at) & 8 == 0 then 1 else -1;
            Runs(host, st, at, x, bytes, Done(st, WithPair(r, x, p, Up(Pair(r, x, p), by1)), st.mem))
  {
    hide Rd, At, Up, Wrap, MainShape, PrefixedShape, NeedsDisp, DecodeOp, Apply, IndexedShape,
         GetPairP, SetPairP, Pair, WithPair, ExecPtr, ExecFlag, ExecStack, ExecBranch;
    var op := Rd(st.mem, at);
    PairStepShape(op, p);
    DecodePlain(st.mem, at, x, bytes);
    ShapeSame(op, x);
    Words();
    FetchedIs(st, at, bytes, 1);
    NoWrites(st.mem);
    var r := Fetched(st, at, 1);
    PairIs(r, x, p, Wrap(Pair(r, x, p) + 1));
    PairIs(r, x, p, Wrap(Pair(r, x, p) - 1));
  }

  // ---- registers and memory as operands ----

  lemma CountsShape(op: bv8, y: bv8, x: Index)
    requires op < 0x40 && (op & 7 == 4 || op & 7 == 5) && y == op >> 3
    ensures var ty := Flag(if op & 7 == 4 then IncR else DecR);
            MainShape(op) == OnReg(ty, y, NoOperand)
                && (y != 6 ==> ShapeOf(op, x) == OnReg(ty, CodeOf(x, y), NoOperand))
    ensures y == 6 ==> IndexedShape(op) == OnReg(Flag(if op & 7 == 4 then IncInd else DecInd), 6, NoOperand)
    ensures y <= 7 && (NeedsDisp(op) <==> y == 6)
  {
  }

  lemma CountsRegRuns(host: Host, st: State, at: Addr, x: Index, bytes: nat, y: bv8)
    requires Ready(st, at, bytes) && var op := Rd(st.mem, at); op < 0x40 && (op & 7 == 4 || op & 7 == 5) && y == op >> 3
    requires y != 6
    ensures Runs(host, st, at, x, bytes, Counts(st, at, x, y, Rd(st.mem, at) & 7 == 4))
  {
    hide Rd, Up, Wrap, ShapeOf, NeedsDisp, DecodeOp, Apply, IndexedShape, GetReg8, SetReg8, Reg, WithReg, IncDec8,
         Stepped,
         ExecLoad, ExecPtr, ExecStack, ExecBranch, OperandAt, ExecCb, Alu8, DaaStep, AccRotate, EffectiveAddr, CodeOf;
    var op := Rd(st.mem, at);
    CountsShape(op, y, x);
    DecodePlain(st.mem, at, x, bytes);
    FetchedIs(st, at, bytes, 1);
    NoWrites(st.mem);
    var r := Fetched(st, at, 1);
    var v := Stepped(op & 7 == 4, Reg(r, x, y), r.f);
    RegIs(r, x, y, v.v);
    RegIs(r.(f := v.f, q := true), x, y, v.v);
    SetFlags(r, x, y, v);
    CodeNot6(x, y);
    SteppedIs(op & 7 == 4, Reg(r, x, y), r.f);
  }

  lemma CodeNot6(x: Index, i: bv8)
    requires i <= 7 && i != 6
    ensures CodeOf(x, i) != 6
  {
  }

  /** Writing a register and writing F do not get in each other's way. */
  lemma SetFlags(r: Regs, x: Index, i: bv8, v: Res8)
    ensures WithReg(r.(f := v.f, q := true), x, i, v.v) == WithReg(r, x, i, v.v).(f := v.f, q := true)
  {
    hide Upper, Lower, Join;
  }

  /** How (HL), (IX+d) and (IY+d) forms decode: prefix and displacement are the operand's. */
  ghost predicate Addressed(st: State, at: Addr, x: Index, d: Decoded) {
    d.prefix == PrefixOf(x) && (x != UseHl ==> d.disp == Rd(st.mem, Wrap(at + 1)))
  }

  lemma CountsMemRuns(host: Host, st: State, at: Addr, x: Index, bytes: nat)
    requires Ready(st, at, bytes) && (Rd(st.mem, at) == 0x34 || Rd(st.mem, at) == 0x35)
    ensures Runs(host, st, at, x, bytes, Counts(st, at, x, 6, Rd(st.mem, at) == 0x34))
  {
    hide Rd, At, Up, Wrap, MainShape, PrefixedShape, NeedsDisp, DecodeOp, Apply, IndexedShape, GetReg8, SetReg8,
         IncDec8, Stepped,
         ExecLoad, ExecPtr, ExecStack, ExecBranch, OperandAt, ExecCb, Alu8, DaaStep, AccRotate, EffectiveAddr;
    var op := Rd(st.mem, at);
    CountsShape(op, 6, x);
    if x == UseHl {
      DecodePlain(st.mem, at, x, bytes);
    } else {
      DecodeIndexed(st.mem, at, x, bytes);
    }
    var d := DecodeOp(st.mem, at, PrefixOf(x), bytes);
    var r, o := Fetched(st, at, Length(x)), OperandAt(st, at, x);
    FetchedIs(st, at, bytes, Length(x));
    OperandIs(st, at, x, r, d);
    var v := Stepped(op == 0x34, Rd(st.mem, o), r.f);
    OperandIs(st, at, x, r.(f := v.f, q := true), d);
    SteppedIs(op == 0x34, Rd(st.mem, o), r.f);
    OneWrite(st.mem, o, v.v);
    Words();
  }

  lemma ImmediateShape(op: bv8, y: bv8, x: Index)
    requires op < 0x40 && op & 7 == 6 && y == op >> 3
    ensures y != 6 ==> ShapeOf(op, x) == OnReg(Load(LdRN), CodeOf(x, y), Imm8)
    ensures y == 6 ==> MainShape(op) == With(Load(LdHlN), Imm8) && IndexedShape(op) == OnReg(Load(LdIndN), 6, Imm8)
    ensures y <= 7 && (NeedsDisp(op) <==> y == 6)
  {
  }

  lemma ImmediateRuns(host: Host, st: State, at: Addr, x: Index, bytes: nat, y: bv8)
    requires Ready(st, at, bytes) && var op := Rd(st.mem, at); op < 0x40 && op & 7 == 6 && y == op >> 3
    ensures Runs(host, st, at, x, bytes, Immediate(st, at, x, y))
  {
    hide Rd, At, Up, Wrap, MainShape, PrefixedShape, ShapeOf, NeedsDisp, DecodeOp, Apply, IndexedShape, GetReg8,
         SetReg8, Reg,
         WithReg, ExecFlag, ExecPtr, ExecStack, ExecBranch, OperandAt, EffectiveAddr, CodeOf;
    var op := Rd(st.mem, at);
    ImmediateShape(op, y, x);
    Words();
    if y != 6 {
      DecodePlain(st.mem, at, x, bytes);
      FetchedIs(st, at, bytes, 2);
      NoWrites(st.mem);
      CodeNot6(x, y);
      RegIs(Fetched(st, at, 2), x, y, Rd(st.mem, Wrap(at + 1)));
    } else {
      if x == UseHl {
        DecodeMainIs(st.mem, at, bytes);
      } else {
        DecodeIndexed(st.mem, at, x, bytes);
      }
      FetchedIs(st, at, bytes, Length(x) + 1);
      OperandIs(st, at, x, Fetched(st, at, Length(x) + 1), DecodeOp(st.mem, at, PrefixOf(x), bytes));
      OneWrite(st.mem, OperandAt(st, at, x), Rd(st.mem, Wrap(at + Length(x))));
    }
  }

  lemma DecodeMainIs(m: Memory, at: Addr, bytes: nat)
    requires OnMainPage(Rd(m, at))
    ensures DecodeOp(m, at, PrefixOf(UseHl), bytes)
            == Fetch(m, Wrap(at + 1), MainShape(Rd(m, at)), 0, Rd(m, at), 0, bytes)
  {
    hide Rd, MainShape, PrefixedShape, IndexedShape, Fetch, NeedsDisp, Wrap;
  }

  function AccOp(y: bv8): FlagOp {
    if y == 0 then Rlca else if y == 1 then Rrca else if y == 2 then Rla else if y == 3 then Rra
    else if y == 4 then Daa else if y == 5 then Cpl else if y == 6 then Scf else Ccf
  }

  lemma AccumulatorShape(op: bv8, y: bv8)
    requires op < 0x40 && op & 7 == 7 && y == op >> 3
    ensures MainShape(op) == Plain(Flag(AccOp(y))) && y <= 7 && !NeedsDisp(op)
  {
  }

  lemma AccExec(y: bv8, r: Regs, m: Memory, d: Decoded, q: bool)
    requires y <= 7
    ensures ExecFlag(AccOp(y), r, m, d, q) == Out(AccRegs(r, y, q), [])
  {
    hide DaaStep, Adjusted, AccRotate, AccRotated, ScfFlags, CcfFlags, CplFlags, CarryFlags, Carry, CplF, Inverted,
         ExecCb, Alu8, ReadReg8, ExecIncDec, ExecBlockCopy;
    if y == 4 {
      AdjustedIs(r.a, r.f);
    } else if y >= 5 {
      CarriesIs(r.a, r.f, q);
    } else {
      AccRotatedIs(AccOp(y), y, r.a, r.f);
    }
  }

  lemma AccumulatorRuns(host: Host, st: State, at: Addr, x: Index, bytes: nat, y: bv8)
    requires Ready(st, at, bytes) && var op := Rd(st.mem, at); op < 0x40 && op & 7 == 7 && y == op >> 3
    ensures Runs(host, st, at, x, bytes, Accumulator(st, at, y))
  {
    hide Rd, At, Up, Wrap, MainShape, PrefixedShape, NeedsDisp, DecodeOp, Apply, IndexedShape, ExecLoad, ExecPtr,
         ExecStack,
         ExecBranch, ExecFlag, AccRegs, AccOp;
    var op := Rd(st.mem, at);
    AccumulatorShape(op, y);
    AccIsFlag(y);
    DecodePlain(st.mem, at, x, bytes);
    ShapeSame(op, x);
    FetchedIs(st, at, bytes, 1);
    NoWrites(st.mem);
    AccExec(y, Fetched(st, at, 1), st.mem, DecodeOp(st.mem, at, PrefixOf(x), bytes), st.regs.q);
  }

  lemma AccIsFlag(y: bv8)
    ensures !TakesHalfIndex(Flag(AccOp(y)))
  {
  }

  lemma MovesShape(op: bv8, y: bv8, z: bv8, x: Index)
    requires 0x40 <= op < 0x80 && y == (op >> 3) & 7 && z == op & 7 && op != 0x76
    ensures y <= 7 && z <= 7 && (NeedsDisp(op) <==> y == 6 || z == 6)
    ensures MainShape(op) == Shape(Load(LdRR), y, z, 0, 0, NoOperand)
    ensures y != 6 && z != 6 && !(x != UseHl && (op == 0x7C || op == 0x7D)) ==>
              ShapeOf(op, x) == Shape(Load(LdRR), CodeOf(x, y), CodeOf(x, z), 0, 0, NoOperand)
  {
  }

  lemma MovesIndexed(op: bv8, y: bv8, z: bv8)
    requires 0x40 <= op < 0x80 && y == (op >> 3) & 7 && z == op & 7 && op != 0x76
    ensures z == 6 ==> IndexedShape(op) == if y == 7 then OnReg(Load(LdAInd), 6, NoOperand)
                                           else Shape(Load(LdRInd), 6, y, 0, 0, NoOperand)
    ensures y == 6 ==> IndexedShape(op) == if z == 7 then OnReg(Load(LdIndA), 6, NoOperand)
                                           else Shape(Load(LdIndR), 6, z, 0, 0, NoOperand)
  {
  }

  lemma MovesRegRuns(host: Host, st: State, at: Addr, x: Index, bytes: nat, y: bv8, z: bv8)
    requires Ready(st, at, bytes)
    requires var op := Rd(st.mem, at); 0x40 <= op < 0x80 && y == (op >> 3) & 7 && z == op & 7 && y != 6 && z != 6
    requires x == UseHl || (Rd(st.mem, at) != 0x7C && Rd(st.mem, at) != 0x7D)
    ensures Runs(host, st, at, x, bytes, Moves(st, at, x, y, z))
  {
    hide Rd, At, Up, Wrap, ShapeOf, NeedsDisp, DecodeOp, Apply, IndexedShape, GetReg8, SetReg8, Reg, WithReg,
         ExecFlag, ExecPtr, ExecStack, ExecBranch, OperandAt, EffectiveAddr, CodeOf;
    var op := Rd(st.mem, at);
    NotHalt(op, y, z);
    MovesShape(op, y, z, x);
    DecodePlain(st.mem, at, x, bytes);
    FetchedIs(st, at, bytes, 1);
    NoWrites(st.mem);
    CodeNot6(x, y);
    CodeNot6(x, z);
    var r := Fetched(st, at, 1);
    RegIs(r, x, z, 0);
    RegIs(r, x, y, Reg(r, x, z));
  }

  lemma NotHalt(op: bv8, y: bv8, z: bv8)
    requires y == (op >> 3) & 7 && z == op & 7 && !(y == 6 && z == 6)
    ensures op != 0x76
  {
  }

  lemma MovesMemRuns(host: Host, st: State, at: Addr, x: Index, bytes: nat, y: bv8, z: bv8)
    requires Ready(st, at, bytes)
    requires var op := Rd(st.mem, at); 0x40 <= op < 0x80 && y == (op >> 3) & 7 && z == op & 7 && (y == 6) != (z == 6)
    ensures Runs(host, st, at, x, bytes, Moves(st, at, x, y, z))
  {
    hide Rd, At, Up, Wrap, MainShape, PrefixedShape, NeedsDisp, DecodeOp, Apply, IndexedShape, GetReg8, SetReg8, Reg,
         WithReg,
         ExecFlag, ExecPtr, ExecStack, ExecBranch, OperandAt, EffectiveAddr;
    var op := Rd(st.mem, at);
    NotHalt(op, y, z);
    MovesShape(op, y, z, x);
    MovesIndexed(op, y, z);
    if x == UseHl {
      DecodeMainIs(st.mem, at, bytes);
    } else {
      DecodeIndexed(st.mem, at, x, bytes);
    }
    var d := DecodeOp(st.mem, at, PrefixOf(x), bytes);
    var r, o := Fetched(st, at, Length(x)), OperandAt(st, at, x);
    FetchedIs(st, at, bytes, Length(x));
    OperandIs(st, at, x, r, d);
    Words();
    NoWrites(st.mem);
    if z == 6 {
      PlainRegIs(r, y, PrefixOf(x), Rd(st.mem, o));
      ToA(r, Rd(st.mem, o));
    } else {
      PlainRegIs(r, z, PrefixOf(x), 0);
      FromA(r);
      SameRegs(st, r, z);
      OneWrite(st.mem, o, Reg(r, UseHl, z));
    }
  }

  lemma ToA(r: Regs, v: bv8)
    ensures WithReg(r, UseHl, 7, v) == r.(a := v)
  {
  }

  lemma FromA(r: Regs)
    ensures Reg(r, UseHl, 7) == r.a
  {
  }

  lemma SameRegs(st: State, r: Regs, z: bv8)
    requires r == st.regs.(pc := r.pc, q := r.q)
    ensures forall x: Index :: Reg(r, x, z) == Reg(st.regs, x, z)
  {
    hide Upper, Lower;
  }

  // ---- arithmetic on A ----

  lemma OperatesShape(op: bv8, y: bv8, z: bv8, x: Index)
    requires 0x80 <= op < 0xC0 && y == (op >> 3) & 7 && z == op & 7
    ensures y <= 7 && z <= 7 && (NeedsDisp(op) <==> z == 6)
    ensures MainShape(op) == OnReg(Flag(AluR(AluOf(y))), z, NoOperand)
    ensures z != 6 ==> ShapeOf(op, x) == OnReg(Flag(AluR(AluOf(y))), CodeOf(x, z), NoOperand)
    ensures z == 6 ==> IndexedShape(op) == OnReg(Flag(AluInd(AluOf(y))), 6, NoOperand)
  {
    hide AluOf;
  }

  lemma OperatesRegRuns(host: Host, st: State, at: Addr, x: Index, bytes: nat, y: bv8, z: bv8)
    requires Ready(st, at, bytes)
    requires var op := Rd(st.mem, at); 0x80 <= op < 0xC0 && y == (op >> 3) & 7 && z == op & 7 && z != 6
    ensures Runs(host, st, at, x, bytes, Operates(st, at, x, y, z))
  {
    hide SetReg8, WithReg, Upper, Lower, Join, Word, Hi, Lo, Rd, At, Up, Wrap, ShapeOf, NeedsDisp, DecodeOp, Apply,
         IndexedShape, GetReg8, Reg, AluOf, Alu8, Arith,
         ExecLoad, ExecPtr, ExecStack, ExecBranch, OperandAt, EffectiveAddr, CodeOf, ExecCb, ExecIncDec, AccRotate,
         DaaStep, ExecBlockCopy, CplFlags, ScfFlags, CcfFlags, MainShape, PrefixedShape;
    var op := Rd(st.mem, at);
    OperatesShape(op, y, z, x);
    DecodePlain(st.mem, at, x, bytes);
    FetchedIs(st, at, bytes, 1);
    NoWrites(st.mem);
    CodeNot6(x, z);
    var r := Fetched(st, at, 1);
    RegIs(r, x, z, 0);
    SameRegs(st, r, z);
    ArithIs(y, r.a, Reg(r, x, z), r.f);
  }

  lemma OperatesMemRuns(host: Host, st: State, at: Addr, x: Index, bytes: nat, y: bv8)
    requires Ready(st, at, bytes)
    requires var op := Rd(st.mem, at); 0x80 <= op < 0xC0 && y == (op >> 3) & 7 && op & 7 == 6
    ensures Runs(host, st, at, x, bytes, Operates(st, at, x, y, 6))
  {
    hide Rd, At, Up, Wrap, MainShape, PrefixedShape, NeedsDisp, DecodeOp, Apply, IndexedShape, GetReg8, AluOf, Alu8,
         Arith,
         ExecLoad, ExecPtr, ExecStack, ExecBranch, OperandAt, EffectiveAddr;
    var op := Rd(st.mem, at);
    OperatesShape(op, y, 6, x);
    if x == UseHl {
      DecodeMainIs(st.mem, at, bytes);
    } else {
      DecodeIndexed(st.mem, at, x, bytes);
    }
    var r, o := Fetched(st, at, Length(x)), OperandAt(st, at, x);
    FetchedIs(st, at, bytes, Length(x));
    OperandIs(st, at, x, r, DecodeOp(st.mem, at, PrefixOf(x), bytes));
    NoWrites(st.mem);
    Words();
    ArithIs(y, r.a, Rd(st.mem, o), r.f);
  }

  // ---- the last quarter of the page ----

  /** Decoding by the low three bits. */
  lemma HighShapes(op: bv8, y: bv8)
    requires op >= 0xC0 && y == (op >> 3) & 7 && OnMainPage(op)
    ensures y <= 7 && !NeedsDisp(op)
    ensures op & 7 == 0 ==> MainShape(op) == OnCc(Branch(RetCc), y, NoOperand)
    ensures op & 7 == 2 ==> MainShape(op) == OnCc(Branch(JpCc), y, Imm16)
    ensures op & 7 == 4 ==> MainShape(op) == OnCc(Branch(CallCc), y, Imm16)
    ensures op & 7 == 6 ==> MainShape(op) == With(Flag(AluN(AluOf(y))), Imm8)
  {
    hide AluOf;
  }

  lemma HighShapes2(op: bv8, y: bv8)
    requires op >= 0xC0 && y == (op >> 3) & 7 && OnMainPage(op)
    ensures op & 7 == 1 && y & 1 == 0 ==> MainShape(op) == OnReg(Stack(PopRr), y >> 1, NoOperand)
    ensures op & 7 == 5 && y & 1 == 0 ==> MainShape(op) == OnReg(Stack(PushRr), y >> 1, NoOperand)
    ensures op & 7 == 5 && y & 1 == 1 ==> MainShape(op) == With(Branch(CallNn), Imm16)
    ensures op & 7 == 1 && y == 1 ==> MainShape(op) == Plain(Branch(Ret))
    ensures op & 7 == 1 && y == 5 ==> MainShape(op) == Plain(Branch(JpHl))
    ensures op & 7 == 1 && y == 7 ==> MainShape(op) == Plain(Load(LdSpHl))
    ensures op & 7 == 3 && y == 0 ==> MainShape(op) == With(Branch(JpNn), Imm16)
    ensures op & 7 == 3 && y == 4 ==> MainShape(op) == Plain(Ptr(ExSpHl))
    ensures op & 7 == 3 && y == 5 ==> MainShape(op) == Plain(Load(ExDeHl))
  {
    hide AluOf;
  }

  lemma ArithImmediateRuns(host: Host, st: State, at: Addr, x: Index, bytes: nat, y: bv8)
    requires Ready(st, at, bytes)
    requires var op := Rd(st.mem, at); op >= 0xC0 && y == (op >> 3) & 7 && op & 7 == 6
    ensures Runs(host, st, at, x, bytes, WithArith(st, Fetched(st, at, 2), y, At(st.mem, Up(at, 1))))
  {
    hide Rd, At, Up, Wrap, MainShape, PrefixedShape, NeedsDisp, DecodeOp, Apply, IndexedShape, AluOf, Alu8, Arith,
         ExecLoad, ExecPtr, ExecStack, ExecBranch;
    var op := Rd(st.mem, at);
    NotPrefix(op);
    HighShapes(op, y);
    DecodePlain(st.mem, at, x, bytes);
    ShapeSame(op, x);
    FetchedIs(st, at, bytes, 2);
    NoWrites(st.mem);
    Words();
    ArithIs(y, st.regs.a, Rd(st.mem, Wrap(at + 1)), st.regs.f);
  }

  lemma NotPrefix(op: bv8)
    requires op & 7 == 0 || op & 7 == 2 || op & 7 == 4 || op & 7 == 6
    ensures OnMainPage(op) && op != 0x7D && op != 0xE1 && op != 0xE5 && (op >= 0xC0 ==> op != 0x7C)
  {
  }

  lemma ReturnIfRuns(host: Host, st: State, at: Addr, x: Index, bytes: nat, y: bv8)
    requires Ready(st, at, bytes)
    requires var op := Rd(st.mem, at); op >= 0xC0 && y == (op >> 3) & 7 && op & 7 == 0
    ensures y <= 7
    ensures var r := Fetched(st, at, 1);
            Runs(host, st, at, x, bytes,
                 Done(st, if Reference.Holds(y, r.f) then Reference.Returned(r, st.mem) else r, st.mem))
  {
    hide Rd, At, Up, Wrap, MainShape, PrefixedShape, NeedsDisp, DecodeOp, Apply, IndexedShape, CondTrue,
         Reference.Holds,
         Join, Word, Hi, Lo, Upper, Lower, Put2, ExecLoad, ExecPtr, ExecStack, ExecFlag, Signed;
    var op := Rd(st.mem, at);
    NotPrefix(op);
    HighShapes(op, y);
    DecodePlain(st.mem, at, x, bytes);
    ShapeSame(op, x);
    FetchedIs(st, at, bytes, 1);
    NoWrites(st.mem);
    Words();
    HoldsIs(y, st.regs.f);
  }

  lemma JumpIfRuns(host: Host, st: State, at: Addr, x: Index, bytes: nat, y: bv8)
    requires Ready(st, at, bytes)
    requires var op := Rd(st.mem, at); op >= 0xC0 && y == (op >> 3) & 7 && op & 7 == 2
    ensures y <= 7
    ensures var r, nn := Fetched(st, at, 3), At2(st.mem, Up(at, 1));
            Runs(host, st, at, x, bytes,
                 Done(st, if Reference.Holds(y, r.f) then Jumped(r, nn) else r.(memptr := nn), st.mem))
  {
    hide Rd, At, Up, Wrap, MainShape, PrefixedShape, NeedsDisp, DecodeOp, Apply, IndexedShape, CondTrue,
         Reference.Holds,
         Join, Word, Hi, Lo, Upper, Lower, Put2, ExecLoad, ExecPtr, ExecStack, ExecFlag, Signed;
    var op := Rd(st.mem, at);
    NotPrefix(op);
    HighShapes(op, y);
    DecodePlain(st.mem, at, x, bytes);
    ShapeSame(op, x);
    FetchedIs(st, at, bytes, 3);
    NoWrites(st.mem);
    Words();
    HoldsIs(y, st.regs.f);
  }

  lemma CallIfRuns(host: Host, st: State, at: Addr, x: Index, bytes: nat, y: bv8)
    requires Ready(st, at, bytes)
    requires var op := Rd(st.mem, at); op >= 0xC0 && y == (op >> 3) & 7 && op & 7 == 4
    ensures y <= 7
    ensures var r, nn := Fetched(st, at, 3), At2(st.mem, Up(at, 1));
            Runs(host, st, at, x, bytes,
                 if Reference.Holds(y, r.f) then Called(st, r, nn) else Done(st, r.(memptr := nn), st.mem))
  {
    hide Rd, At, Up, Wrap, MainShape, PrefixedShape, NeedsDisp, DecodeOp, Apply, IndexedShape, CondTrue,
         Reference.Holds,
         Join, Word, Hi, Lo, Upper, Lower, Put2, ExecLoad, ExecPtr, ExecStack, ExecFlag, Signed;
    var op := Rd(st.mem, at);
    NotPrefix(op);
    HighShapes(op, y);
    DecodePlain(st.mem, at, x, bytes);
    ShapeSame(op, x);
    FetchedIs(st, at, bytes, 3);
    NoWrites(st.mem);
    Words();
    HoldsIs(y, st.regs.f);
    TwoWrites(st.mem, Wrap(st.regs.sp - 2), Up(at, 3));
  }

  lemma PopRuns(host: Host, st: State, at: Addr, x: Index, bytes: nat, y: bv8)
    requires Ready(st, at, bytes)
    requires var op := Rd(st.mem, at); op >= 0xC0 && y == (op >> 3) & 7 && op & 7 == 1 && y & 1 == 0
    ensures Runs(host, st, at, x, bytes, Pops(st, at, x, y))
  {
    hide Rd, At, Up, Wrap, MainShape, PrefixedShape, NeedsDisp, DecodeOp, Apply, IndexedShape,
         Join, Word, Hi, Lo, Upper, Lower, ExecLoad, ExecPtr, ExecFlag, ExecBranch, SetPair, WithPair;
    var op := Rd(st.mem, at);
    StackShape(op, y, x);
    HighShapes2(op, y);
    DecodePlain(st.mem, at, x, bytes);
    FetchedIs(st, at, bytes, 1);
    NoWrites(st.mem);
    Words();
    var r := Fetched(st, at, 1);
    var m, w := st.mem, At2(st.mem, r.sp);
    PopPair(r.(sp := Wrap(r.sp + 2)), x, y >> 1, w);
    WordHalves(Rd(m, Wrap(r.sp + 1)), Rd(m, r.sp));
  }

  lemma StackShape(op: bv8, y: bv8, x: Index)
    requires op >= 0xC0 && y == (op >> 3) & 7 && (op & 7 == 1 || op & 7 == 5) && y & 1 == 0
    ensures OnMainPage(op) && !NeedsDisp(op) && y >> 1 <= 3
    ensures var ty := Stack(if op & 7 == 1 then PopRr else PushRr);
            ShapeOf(op, x) == OnReg(ty, if x != UseHl && y >> 1 == 2 then 4 else y >> 1, NoOperand)
  {
    hide AluOf;
  }

  /** The pair POP writes, in the interpreter's case order. */
  lemma PopPair(r: Regs, x: Index, p: bv8, w: Addr)
    requires p <= 3
    ensures p <= 2 ==>
            (if x != UseHl && p == 2 then (if PrefixOf(x) == 0xFD then r.(iy := w) else r.(ix := w))
            else SetPair(r, p, w))
                       == WithPair(r, x, p, w)
    ensures p <= 2 ==>
            (if x != UseHl && p == 2 then (if PrefixOf(x) == 0xFD then r.iy else r.ix) else GetPair(r, p))
            == Pair(r, x, p)
  {
  }

  lemma PushRuns(host: Host, st: State, at: Addr, x: Index, bytes: nat, y: bv8)
    requires Ready(st, at, bytes)
    requires var op := Rd(st.mem, at); op >= 0xC0 && y == (op >> 3) & 7 && op & 7 == 5 && y & 1 == 0
    ensures Runs(host, st, at, x, bytes, Pushes(st, at, x, y >> 1))
  {
    hide Rd, At, Up, Wrap, MainShape, PrefixedShape, NeedsDisp, DecodeOp, Apply, IndexedShape, Put2,
         Join, Word, Hi, Lo, Upper, Lower, ExecLoad, ExecPtr, ExecFlag, ExecBranch, GetPair, Pair;
    var op := Rd(st.mem, at);
    StackShape(op, y, x);
    DecodePlain(st.mem, at, x, bytes);
    FetchedIs(st, at, bytes, 1);
    Words();
    var r := Fetched(st, at, 1);
    PopPair(r, x, y >> 1, 0);
    TwoWrites(st.mem, Wrap(r.sp - 2), if y >> 1 == 3 then Word(r.a, r.f) else Pair(r, x, y >> 1));
  }

  lemma OddOnes(op: bv8)
    requires op >= 0xC0 && (op & 7 == 1 || op & 7 == 3 || op & 7 == 5) && OnMainPage(op)
    requires op == 0xC9 || op == 0xE9 || op == 0xF9 || op == 0xC3 || op == 0xE3 || op == 0xEB || op == 0xCD
    ensures !NeedsDisp(op) && op != 0x7C && op != 0x7D && op != 0xE1 && op != 0xE5
  {
  }

  lemma FlowRuns(host: Host, st: State, at: Addr, x: Index, bytes: nat, y: bv8)
    requires Ready(st, at, bytes)
    requires var op := Rd(st.mem, at); y == (op >> 3) & 7 && (op == 0xC9 || op == 0xE9 || op == 0xC3 || op == 0xCD)
    ensures var op := Rd(st.mem, at);
            Runs(host, st, at, x, bytes,
                 if op == 0xC3 then Exchanges(st, at, x, 0)
                 else if op == 0xCD then Called(st, Fetched(st, at, 3), At2(st.mem, Up(at, 1)))
                 else Pops(st, at, x, y))
  {
    hide Rd, At, Up, Wrap, MainShape, PrefixedShape, NeedsDisp, DecodeOp, Apply, IndexedShape,
         Join, Word, Hi, Lo, Upper, Lower, Put2, ExecLoad, ExecPtr, ExecStack, ExecFlag, Signed, WithPair;
    var op := Rd(st.mem, at);
    OddOnes(op);
    HighShapes2(op, y);
    DecodePlain(st.mem, at, x, bytes);
    ShapeSame(op, x);
    FetchedIs(st, at, bytes, 1);
    FetchedIs(st, at, bytes, 3);
    NoWrites(st.mem);
    Words();
    TwoWrites(st.mem, Wrap(st.regs.sp - 2), Up(at, 3));
  }

  lemma SwapRuns(host: Host, st: State, at: Addr, x: Index, bytes: nat, y: bv8)
    requires Ready(st, at, bytes)
    requires var op := Rd(st.mem, at); y == (op >> 3) & 7 && (op == 0xF9 || op == 0xE3 || op == 0xEB)
    ensures Runs(host, st, at, x, bytes, if Rd(st.mem, at) == 0xF9 then Pops(st, at, x, 7) else Exchanges(st, at, x, y))
  {
    hide Rd, At, Up, Wrap, MainShape, PrefixedShape, NeedsDisp, DecodeOp, Apply, IndexedShape, GetHlLike, SetHlLike,
         Base,
         WithBase, Join, Word, Hi, Lo, Upper, Lower, Put2, ExecBranch, ExecStack, ExecFlag, ExecAddHl, WithPair;
    var op := Rd(st.mem, at);
    OddOnes(op);
    HighShapes2(op, y);
    DecodePlain(st.mem, at, x, bytes);
    ShapeSame(op, x);
    FetchedIs(st, at, bytes, 1);
    NoWrites(st.mem);
    Words();
    var r := Fetched(st, at, 1);
    PairIs(r, x, 2, At2(st.mem, r.sp));
    TwoWrites(st.mem, r.sp, Base(r, x));
  }

  // ---- the CB page ----

  lemma CbDecode(m: Memory, at: Addr, x: Index, bytes: nat)
    requires Rd(m, at) == 0xCB
    ensures var d, sub := DecodeOp(m, at, PrefixOf(x), bytes), Rd(m, Wrap(at + Length(x)));
            && d.ty == Flag(Cb) && d.imm8 == sub && d.bytes == bytes + Length(x)
            && d.prefix == (if x == UseHl then 0xCB else PrefixOf(x)) && (x != UseHl ==> d.disp == Rd(m, Wrap(at + 1)))
  {
    hide Rd, Wrap, MainShape, PrefixedShape, IndexedShape, EdShape, NeedsDisp, Fetch;
  }

  lemma CbFields(sub: bv8, z: bv8, y: bv8)
    requires z == sub & 7 && y == (sub >> 3) & 7
    ensures z <= 7 && y <= 7 && (sub >> 6 == 0 <==> sub < 0x40) && (sub >> 6 == 1 <==> 0x40 <= sub < 0x80)
    ensures (sub >> 6 == 2 <==> 0x80 <= sub < 0xC0) && (sub >> 6 == 3 <==> sub >= 0xC0) && sub >> 6 <= 3
  {
  }

  /** The operand, where it is, and the byte BIT takes its bits 5 and 3 from. */
  lemma CbOperandIs(st: State, at: Addr, x: Index, r: Regs, d: Decoded, z: bv8)
    requires r == Fetched(st, at, Length(x) + 1) && z <= 7 && d.prefix == (if x == UseHl then 0xCB else PrefixOf(x))
    requires x != UseHl ==> d.disp == Rd(st.mem, Wrap(at + 1))
    ensures EffectiveAddr(r, d) == OperandAt(st, at, x)
    ensures CbInMemory(d, z) <==> x != UseHl || z == 6
    ensures IsIndexPrefix(d.prefix) <==> x != UseHl
    ensures CbOperand(r, st.mem, d, z) == if x != UseHl || z == 6 then At(st.mem, OperandAt(st, at, x))
            else Reg(r, UseHl, z)
  {
    hide Up, Wrap, Signed, Offset, Rd, At, GetReg8, Reg;
    Words();
    OffsetIs(d.disp);
    if z != 6 {
      PlainRegIs(r, z, 0, 0);
    }
  }

  lemma CbWriteIs(st: State, r: Regs, d: Decoded, z: bv8, v: bv8, mem: bool, o: Addr)
    requires z <= 7 && EffectiveAddr(r, d) == o && CbInMemory(d, z) == mem
    ensures var w := CbWriteBack(r, d, z, v);
            && w.regs == (if z == 6 then r else WithReg(r, UseHl, z, v))
            && Apply(st.mem, w.writes) == (if mem then st.mem[o := v] else st.mem)
  {
    hide EffectiveAddr, SetReg8, WithReg, Apply;
    NoWrites(st.mem);
    OneWrite(st.mem, o, v);
    if z != 6 {
      PlainRegIs(r, z, 0, v);
    }
  }

  lemma CbRuns(host: Host, st: State, at: Addr, x: Index, bytes: nat)
    requires Ready(st, at, bytes) && Rd(st.mem, at) == 0xCB
    ensures Runs(host, st, at, x, bytes, CbPage(st, at, x))
  {
    hide Rd, At, Up, Wrap, DecodeOp, Apply, ExecLoad, ExecPtr, ExecStack, ExecBranch, EffectiveAddr, OperandAt,
         CbOperand, CbInMemory,
         CbWriteBack, CbRotate, Rotated, BitFlags, Tested, ResSet, Cleared, Raised, Hi, Upper, Reg, WithReg, GetReg8,
             SetReg8,
         Alu8, DaaStep, AccRotate, ExecIncDec, IsIndexPrefix;
    var sub := Rd(st.mem, Wrap(at + Length(x)));
    var z, y := sub & 7, (sub >> 3) & 7;
    CbDecode(st.mem, at, x, bytes);
    CbFields(sub, z, y);
    FetchedIs(st, at, bytes, Length(x) + 1);
    Words();
    NoWrites(st.mem);
    var r, o := Fetched(st, at, Length(x) + 1), OperandAt(st, at, x);
    var d := DecodeOp(st.mem, at, PrefixOf(x), bytes);
    CbOperandIs(st, at, x, r, d, z);
    var v := CbOperand(r, st.mem, d, z);
    RotatedIs(y, v, r.f);
    ClearedIs(y, v);
    TestedIs(y, v, if x != UseHl then Hi(o) else if z == 6 then Hi(r.memptr) else v, r.f);
    SameEffective(r, d, Rotated(y, v, r.f).f);
    CbWriteIs(st, r.(f := Rotated(y, v, r.f).f, q := true), d, z, Rotated(y, v, r.f).v, x != UseHl || z == 6, o);
    CbWriteIs(st, r, d, z, Cleared(y, v), x != UseHl || z == 6, o);
    CbWriteIs(st, r, d, z, Raised(y, v), x != UseHl || z == 6, o);
  }

  lemma SameEffective(r: Regs, d: Decoded, f: bv8)
    ensures EffectiveAddr(r.(f := f, q := true), d) == EffectiveAddr(r, d)
  {
  }

  // ---- the ED page ----

  lemma EdShapes(op: bv8)
    ensures op == 0xB0 ==> EdShape(op) == Plain(Flag(Ldir))
    ensures op == 0xB8 ==> EdShape(op) == Plain(Flag(Lddr))
    ensures op != 0xB0 && op != 0xB8 ==> EdShape(op).ty.Other? || EdShape(op) == Plain(Load(Nop))
  {
  }

  lemma EdDecode(m: Memory, at: Addr, x: Index, bytes: nat)
    requires Rd(m, at) == 0xED
    ensures var d, op := DecodeOp(m, at, PrefixOf(x), bytes), Rd(m, Wrap(at + 1));
            && (op == 0xB0 ==> d.ty == Flag(Ldir)) && (op == 0xB8 ==> d.ty == Flag(Lddr))
            && (op != 0xB0 && op != 0xB8 && !d.ty.Other? ==> d.ty == Load(Nop))
            && (!d.ty.Other? ==> d.bytes == bytes + 1)
  {
    hide Rd, Wrap, MainShape, PrefixedShape, IndexedShape, NeedsDisp, EdShape;
    EdShapes(Rd(m, Wrap(at + 1)));
  }

  lemma {:induction false} CopiesAre(m: Memory, hl: Addr, de: Addr, n: nat, dir: int)
    ensures var ws := BlockStores(m, hl, de, n, dir);
            Apply(m, ws) == CopiedFrom(m, hl, de, n, dir) && LastByte(ws) == LastCopied(m, hl, de, n, dir)
    decreases n
  {
    hide Rd, At, Wrap, Up;
    Words();
    if n == 0 {
      NoWrites(m);
    } else {
      var v := Rd(m, hl);
      var rest := BlockStores(m[de := v], Wrap(hl + dir), Wrap(de + dir), n - 1, dir);
      CopiesAre(m[de := v], Wrap(hl + dir), Wrap(de + dir), n - 1, dir);
      assert ([Store(de, v)] + rest)[1..] == rest;
      if n == 1 {
        assert rest == [];
      } else {
        assert rest != [];
      }
    }
  }

  lemma BlockFlagsIs(a: bv8, last: bv8, f: bv8)
    ensures BlockFlags(a, last, f) == CopyFlags(a, last, f)
  {
  }

  lemma EdRuns(host: Host, st: State, at: Addr, x: Index, bytes: nat)
    requires Ready(st, at, bytes) && Rd(st.mem, at) == 0xED && !DecodeOp(st.mem, at, PrefixOf(x), bytes).ty.Other?
    ensures Runs(host, st, at, x, bytes, EdPage(st, at))
  {
    hide Rd, At, Up, Wrap, DecodeOp, Apply, ExecPtr, ExecStack, ExecBranch, ExecCb, Alu8, DaaStep, AccRotate,
         ExecIncDec,
         BlockStores, LastByte, CopiedFrom, LastCopied, BlockFlags, CopyFlags, ReadReg8;
    EdDecode(st.mem, at, x, bytes);
    FetchedIs(st, at, bytes, 2);
    NoWrites(st.mem);
    Words();
    var r := Fetched(st, at, 2);
    var up := Rd(st.mem, Wrap(at + 1)) == 0xB0;
    var dir := if up then 1 else -1;
    CopiesAre(st.mem, r.hl, r.de, r.bc, dir);
    BlockFlagsIs(r.a, LastCopied(st.mem, r.hl, r.de, r.bc, dir), r.f);
  }

  // ---- every instruction ----

  /** Opcodes of the main page that are left to the host. */
  lemma HostOnes(op: bv8, x: Index)
    requires op == 0x08 || op == 0x76 || op == 0xD3 || op == 0xDB || op == 0xD9 || op == 0xF3 || op == 0xFB
             || op & 0xC7 == 0xC7 || op == 0xDD || op == 0xFD || (x != UseHl && (op == 0x7C || op == 0x7D))
    ensures ShapeOf(op, x).ty.Other? && !NeedsDisp(op)
  {
  }

  lemma HostDecodes(m: Memory, at: Addr, x: Index, bytes: nat)
    requires Rd(m, at) != 0xCB && Rd(m, at) != 0xED && !NeedsDisp(Rd(m, at)) && ShapeOf(Rd(m, at), x).ty.Other?
    ensures DecodeOp(m, at, PrefixOf(x), bytes).ty.Other?
  {
    hide Rd, MainShape, PrefixedShape, IndexedShape, NeedsDisp, Wrap;
  }

  /** The rows of the main page. */
  lemma Rows(op: bv8, y: bv8, z: bv8)
    requires y == (op >> 3) & 7 && z == op & 7
    ensures y <= 7 && z <= 7 && (op < 0x40 ==> y == op >> 3 && y >> 1 == op >> 4 && (y & 1 == 1 <==> op & 8 != 0))
    ensures op < 0x40 && z == 0 && y == 1 ==> op == 0x08
    ensures 0x40 <= op < 0x80 && y == 6 && z == 6 ==> op == 0x76
    ensures op < 0x40 && y == 6 && z == 4 ==> op == 0x34
    ensures op < 0x40 && y == 6 && z == 5 ==> op == 0x35
  {
  }

  lemma HighRows(op: bv8, y: bv8, z: bv8)
    requires op >= 0xC0 && y == (op >> 3) & 7 && z == op & 7
    ensures z == 1 && y & 1 == 1 ==> op == 0xC9 || op == 0xD9 || op == 0xE9 || op == 0xF9
    ensures z == 3 ==>
              op == 0xC3 || op == 0xCB || op == 0xD3 || op == 0xDB || op == 0xE3 || op == 0xEB || op == 0xF3
                  || op == 0xFB
    ensures z == 5 && y & 1 == 1 ==> op == 0xCD || op == 0xDD || op == 0xED || op == 0xFD
    ensures z == 7 ==> op & 0xC7 == 0xC7
    ensures op == 0xC9 ==> y == 1
    ensures op == 0xE9 ==> y == 5
    ensures op == 0xF9 ==> y == 7
    ensures op == 0xC3 ==> y == 0
    ensures op == 0xE3 ==> y == 4
    ensures op == 0xEB ==> y == 5
  {
  }

  lemma LowRuns(host: Host, st: State, at: Addr, x: Index, bytes: nat)
    requires Ready(st, at, bytes) && Rd(st.mem, at) < 0x40 && !DecodeOp(st.mem, at, PrefixOf(x), bytes).ty.Other?
    ensures Runs(host, st, at, x, bytes, Main(st, at, x))
  {
    hide Runs, Rd, At, Up, Wrap, DecodeOp, ShapeOf, NeedsDisp, Relative, Wides, Indirect, Counts, Immediate,
         Accumulator,
         Moves, Operates, Pair, WithPair, Fetched;
    var op := Rd(st.mem, at);
    var y, z := (op >> 3) & 7, op & 7;
    Words();
    Rows(op, y, z);
    if op == 0x08 {
      HostOnes(op, x);
      HostDecodes(st.mem, at, x, bytes);
    } else if z == 0 {
      RelativeRuns(host, st, at, x, bytes, y);
    } else if z == 1 {
      WidesRuns(host, st, at, x, bytes, y >> 1);
    } else if z == 2 {
      IndirectRuns(host, st, at, x, bytes, y);
    } else if z == 3 {
      PairStepRuns(host, st, at, x, bytes, y >> 1);
    } else if z == 4 || z == 5 {
      if y == 6 {
        CountsMemRuns(host, st, at, x, bytes);
      } else {
        CountsRegRuns(host, st, at, x, bytes, y);
      }
    } else if z == 6 {
      ImmediateRuns(host, st, at, x, bytes, y);
    } else {
      AccumulatorRuns(host, st, at, x, bytes, y);
    }
  }

  lemma MiddleRuns(host: Host, st: State, at: Addr, x: Index, bytes: nat)
    requires Ready(st, at, bytes) && 0x40 <= Rd(st.mem, at) < 0xC0
             && !DecodeOp(st.mem, at, PrefixOf(x), bytes).ty.Other?
    ensures Runs(host, st, at, x, bytes, Main(st, at, x))
  {
    hide Runs, Rd, At, Up, Wrap, DecodeOp, ShapeOf, NeedsDisp, Relative, Wides, Indirect, Counts, Immediate,
         Accumulator,
         Moves, Operates, Pair, WithPair, Fetched;
    var op := Rd(st.mem, at);
    var y, z := (op >> 3) & 7, op & 7;
    Words();
    Rows(op, y, z);
    if op == 0x76 || (x != UseHl && (op == 0x7C || op == 0x7D)) {
      HostOnes(op, x);
      HostDecodes(st.mem, at, x, bytes);
    } else if op < 0x80 {
      if y == 6 || z == 6 {
        MovesMemRuns(host, st, at, x, bytes, y, z);
      } else {
        MovesRegRuns(host, st, at, x, bytes, y, z);
      }
    } else if z == 6 {
      OperatesMemRuns(host, st, at, x, bytes, y);
    } else {
      OperatesRegRuns(host, st, at, x, bytes, y, z);
    }
  }

  lemma HighRuns(host: Host, st: State, at: Addr, x: Index, bytes: nat)
    requires Ready(st, at, bytes) && 0xC0 <= Rd(st.mem, at) && !DecodeOp(st.mem, at, PrefixOf(x), bytes).ty.Other?
    requires Rd(st.mem, at) != 0xCB && Rd(st.mem, at) != 0xED
    ensures Runs(host, st, at, x, bytes, Main(st, at, x))
  {
    hide Runs, Rd, At, Up, Wrap, DecodeOp, ShapeOf, NeedsDisp, Relative, Wides, Indirect, Counts, Immediate,
         Accumulator,
         Moves, Operates, Pair, WithPair, Fetched, Pops, Exchanges, Pushes, Called, WithArith, Reference.Returned,
             Jumped,
         Reference.Holds, At2;
    var op := Rd(st.mem, at);
    var y, z := (op >> 3) & 7, op & 7;
    Words();
    Rows(op, y, z);
    HighRows(op, y, z);
    if z == 7 || op == 0xD3 || op == 0xDB || op == 0xD9 || op == 0xF3 || op == 0xFB || op == 0xDD || op == 0xFD {
      HostOnes(op, x);
      HostDecodes(st.mem, at, x, bytes);
    } else if z == 0 {
      ReturnIfRuns(host, st, at, x, bytes, y);
    } else if z == 2 {
      JumpIfRuns(host, st, at, x, bytes, y);
    } else if z == 4 {
      CallIfRuns(host, st, at, x, bytes, y);
    } else if z == 6 {
      ArithImmediateRuns(host, st, at, x, bytes, y);
    } else if z == 1 && y & 1 == 0 {
      PopRuns(host, st, at, x, bytes, y);
    } else if z == 5 && y & 1 == 0 {
      PushRuns(host, st, at, x, bytes, y);
    } else if op == 0xF9 || op == 0xE3 || op == 0xEB {
      SwapRuns(host, st, at, x, bytes, y);
    } else {
      FlowRuns(host, st, at, x, bytes, y);
    }
  }

  lemma {:induction false} InstructionRuns(host: Host, st: State, at: Addr, x: Index, bytes: nat, room: nat)
    requires Ready(st, at, bytes) && !DecodeFrom(st.mem, at, PrefixOf(x), bytes, room).ty.Other?
    ensures ExecAt(host, DecodeFrom(st.mem, at, PrefixOf(x), bytes, room), st) == Instruction(st, at, x, room)
    decreases room
  {
    hide ExecAt, DecodeOp, Rd, At, Wrap, Up, Main, CbPage, EdPage;
    Words();
    var op := Rd(st.mem, at);
    if room > 0 && (op == 0xDD || op == 0xFD) {
      WrapAdd(st.regs.pc, bytes - 1, 1);
      InstructionRuns(host, st, Wrap(at + 1), if op == 0xDD then UseIx else UseIy, bytes + 1, room - 1);
    } else if op == 0xCB {
      CbRuns(host, st, at, x, bytes);
    } else if op == 0xED {
      EdRuns(host, st, at, x, bytes);
    } else if op < 0x40 {
      LowRuns(host, st, at, x, bytes);
    } else if op < 0xC0 {
      MiddleRuns(host, st, at, x, bytes);
    } else {
      HighRuns(host, st, at, x, bytes);
    }
  }

  lemma MainHost(op: bv8, x: Index)
    ensures (x == UseHl || !NeedsDisp(op)) && OnMainPage(op) ==> (ShapeOf(op, x).ty.Other? <==> MainToHost(op, x))
    ensures x != UseHl && NeedsDisp(op) ==> !IndexedShape(op).ty.Other? && !MainToHost(op, x)
  {
    hide AluOf;
  }

  lemma EdHost(op: bv8)
    ensures EdShape(op).ty.Other? <==> EdToHost(op)
  {
  }

  lemma {:induction false} HostExact(m: Memory, at: Addr, x: Index, bytes: nat, room: nat)
    ensures DecodeFrom(m, at, PrefixOf(x), bytes, room).ty.Other? <==> HostAt(m, at, x, room)
    decreases room
  {
    hide DecodeOp, MainToHost, EdToHost, Rd, At, Wrap, Up;
    Words();
    var op := Rd(m, at);
    if room > 0 && (op == 0xDD || op == 0xFD) {
      HostExact(m, Wrap(at + 1), if op == 0xDD then UseIx else UseIy, bytes + 1, room - 1);
    } else {
      OpHost(m, at, x, bytes);
    }
  }

  lemma OpHost(m: Memory, at: Addr, x: Index, bytes: nat)
    ensures var op := Rd(m, at);
            DecodeOp(m, at, PrefixOf(x), bytes).ty.Other?
            <==> if op == 0xCB then false else if op == 0xED then EdToHost(Rd(m, Wrap(at + 1))) else MainToHost(op, x)
  {
    hide Rd, ShapeOf, IndexedShape, NeedsDisp, MainToHost, EdToHost, Wrap, DecodeOp, Fetch;
    var op := Rd(m, at);
    if op == 0xCB {
      CbDecode(m, at, x, bytes);
    } else if op == 0xED {
      EdType(m, at, x, bytes);
    } else if op == 0xDD || op == 0xFD {
      HostOnes(op, x);
      HostDecodes(m, at, x, bytes);
      PrefixToHost(op, x);
    } else if x == UseHl || !NeedsDisp(op) {
      MainHost(op, x);
      DecodePlain(m, at, x, bytes);
      FetchTy(m, Wrap(at + 1), ShapeOf(op, x), PrefixOf(x), op, 0, bytes);
    } else {
      MainHost(op, x);
      DecodeIndexed(m, at, x, bytes);
      FetchTy(m, Wrap(at + 2), IndexedShape(op), PrefixOf(x), op, Rd(m, Wrap(at + 1)), bytes + 1);
    }
  }

  lemma FetchTy(m: Memory, at: Addr, s: Shape, prefix: bv8, opcode: bv8, disp: bv8, bytes: nat)
    ensures Fetch(m, at, s, prefix, opcode, disp, bytes).ty == s.ty
  {
    hide Rd, Rd16;
  }

  lemma EdType(m: Memory, at: Addr, x: Index, bytes: nat)
    requires Rd(m, at) == 0xED
    ensures DecodeOp(m, at, PrefixOf(x), bytes).ty.Other? <==> EdToHost(Rd(m, Wrap(at + 1)))
  {
    hide Rd, Wrap, EdShape, EdToHost, MainShape, PrefixedShape, IndexedShape, NeedsDisp, Fetch;
    var op := Rd(m, Wrap(at + 1));
    EdHost(op);
    FetchTy(m, Wrap(at + 2), EdShape(op), 0xED, op, 0, bytes + 1);
  }

  lemma PrefixToHost(op: bv8, x: Index)
    requires op == 0xDD || op == 0xFD
    ensures MainToHost(op, x)
  {
  }

  /** Exactly which instructions are left to the host, by their bytes. */
  lemma HostExactly(m: Memory, pc: Addr)
    ensures Decode(m, pc).ty.Other? <==> ToHost(m, pc)
  {
    hide DecodeFrom, HostAt;
    HostExact(m, pc, UseHl, 1, MAX_PREFIX);
  }

  /** The interpreter is the reference: for every machine state whose next instruction is not left to the host, decoding
      and executing it leaves exactly the state the bytes of the instruction call for. */
  lemma StepIsReference(host: Host, st: State)
    requires !ToHost(st.mem, st.regs.pc)
    ensures Step(host, st) == RefStep(st)
  {
    hide ExecAt, DecodeFrom, Instruction, HostAt;
    HostExactly(st.mem, st.regs.pc);
    InstructionRuns(host, st, st.regs.pc, UseHl, 1, MAX_PREFIX);
  }
}
