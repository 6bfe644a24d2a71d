/** The instruction set from its bytes: what each instruction the interpreter (core/z80_interp.c) runs itself does,
    written independently of the decoder's tables and of the interpreter's helpers, field by field of the opcode. */
module Reference {
  import opened Bits
  import opened Interp

  // ---- addresses, bytes and words ----

  function Up(a: Addr, k: int): Addr { (a + k) % 0x1_0000 }

  function At(m: Memory, a: Addr): bv8 { if a in m then m[a] else 0 }

  function Join(hi: bv8, lo: bv8): Addr { 256 * (hi as int) + lo as int }
  function Upper(w: Addr): bv8 { (w / 256) as bv8 }
  function Lower(w: Addr): bv8 { (w % 256) as bv8 }

  /** Little-endian words in memory. */
  function At2(m: Memory, a: Addr): Addr { Join(At(m, Up(a, 1)), At(m, a)) }
  function Put2(m: Memory, a: Addr, w: Addr): Memory { m[a := Lower(w)][Up(a, 1) := Upper(w)] }

  /** The value of a displacement byte, from -128 to 127. */
  function Offset(d: bv8): int { (d as int + 128) % 256 - 128 }

  // ---- registers ----

  /** What a DD or FD prefix puts in the place of HL. */
  datatype Index = UseHl | UseIx | UseIy

  function Base(r: Regs, x: Index): Addr { match x case UseHl => r.hl case UseIx => r.ix case UseIy => r.iy }

  function WithBase(r: Regs, x: Index, w: Addr): Regs {
    match x case UseHl => r.(hl := w) case UseIx => r.(ix := w) case UseIy => r.(iy := w)
  }

  /** Registers B C D E H L - A, with H and L those of the index register under a prefix. */
  function Reg(r: Regs, x: Index, i: bv8): bv8 {
    if i == 0 then Upper(r.bc) else if i == 1 then Lower(r.bc) else if i == 2 then Upper(r.de)
    else if i == 3 then Lower(r.de) else if i == 4 then Upper(Base(r, x)) else if i == 5 then Lower(Base(r, x)) else r.a
  }

  function WithReg(r: Regs, x: Index, i: bv8, v: bv8): Regs {
    if i == 0 then r.(bc := Join(v, Lower(r.bc))) else if i == 1 then r.(bc := Join(Upper(r.bc), v))
    else if i == 2 then r.(de := Join(v, Lower(r.de))) else if i == 3 then r.(de := Join(Upper(r.de), v))
    else if i == 4 then WithBase(r, x, Join(v, Lower(Base(r, x))))
    else if i == 5 then WithBase(r, x, Join(Upper(Base(r, x)), v))
    else r.(a := v)
  }

  /** Pairs BC DE HL SP. */
  function Pair(r: Regs, x: Index, p: bv8): Addr {
    if p == 0 then r.bc else if p == 1 then r.de else if p == 2 then Base(r, x) else r.sp
  }

  function WithPair(r: Regs, x: Index, p: bv8, w: Addr): Regs {
    if p == 0 then r.(bc := w) else if p == 1 then r.(de := w) else if p == 2 then WithBase(r, x, w) else r.(sp := w)
  }

  // ---- flags ----

  function If(c: bool, bit: bv8): bv8 { if c then bit else 0 }

  /** S Z 5 H 3 P N C; bits 5 and 3 are copied from `xy`. */
  function F(res: bv8, xy: bv8, h: bool, p: bool, n: bool, c: bool): bv8 {
    If(res >= 0x80, 0x80) | If(res == 0, 0x40) | (xy & 0x20) | If(h, 0x10) | (xy & 0x08) | If(p, 0x04) | If(n,
        0x02) | If(c, 0x01)
  }

  /** An even number of one bits. */
  predicate EvenOnes(v: bv8) {
    ((v & 1) + ((v >> 1) & 1) + ((v >> 2) & 1) + ((v >> 3) & 1)
     + ((v >> 4) & 1) + ((v >> 5) & 1) + ((v >> 6) & 1) + (v >> 7)) & 1 == 0
  }

  predicate Carry(f: bv8) { f & 1 == 1 }

  /** A byte as a signed number, in 16 bits, and the signed numbers that fit a byte. */
  function Wide(v: bv8): bv16 { if v >= 0x80 then 0xFF00 | (v as bv16) else v as bv16 }
  predicate Fits(w: bv16) { w + 0x80 <= 0xFF }

  /** Sum and difference with carry or borrow in. */
  function Plus(a: bv8, b: bv8, c: bv8): Res8 {
    var v := a + b + c;
    Res8(v, F(v, v, (a & 0xF) + (b & 0xF) + c > 0xF, !Fits(Wide(a) + Wide(b) + (c as bv16)), false,
              (a as bv16) + (b as bv16) + (c as bv16) > 0xFF))
  }

  function Minus(a: bv8, b: bv8, c: bv8): Res8 {
    var v := a - b - c;
    Res8(v, F(v, v, (a & 0xF) < (b & 0xF) + c, !Fits(Wide(a) - Wide(b) - (c as bv16)), true,
              (a as bv16) < (b as bv16) + (c as bv16)))
  }

  function Bitwise(v: bv8, h: bool): Res8 { Res8(v, F(v, v, h, EvenOnes(v), false, false)) }

  /** CP sets the flags of a subtraction, but takes bits 5 and 3 from its operand. */
  function Compared(a: bv8, b: bv8): Res8 { Res8(a, (Minus(a, b, 0).f & 0xD7) | (b & 0x28)) }

  /** ADD ADC SUB SBC AND XOR OR CP. */
  function Arith(i: bv8, a: bv8, b: bv8, f: bv8): Res8 {
    if i == 0 then Plus(a, b, 0) else if i == 1 then Plus(a, b, f & 1)
    else if i == 2 then Minus(a, b, 0) else if i == 3 then Minus(a, b, f & 1)
    else if i == 4 then Bitwise(a & b, true) else if i == 5 then Bitwise(a ^ b, false)
    else if i == 6 then Bitwise(a | b, false) else Compared(a, b)
  }

  /** INC and DEC leave C alone. */
  function Stepped(up: bool, v: bv8, f: bv8): Res8 {
    var x := if up then Plus(v, 1, 0) else Minus(v, 1, 0);
    Res8(x.v, (x.f & 0xFE) | (f & 1))
  }

  /** RLC RRC RL RR SLA SRA SLL SRL: the byte with the bit that moved in, and the bit that moved out. */
  function Shifted(i: bv8, v: bv8, c: bv8): (bv8, bv8) {
    if i == 0 then ((v << 1) | (v >> 7), v >> 7)
    else if i == 1 then ((v >> 1) | ((v & 1) << 7), v & 1)
    else if i == 2 then ((v << 1) | c, v >> 7)
    else if i == 3 then ((v >> 1) | (c << 7), v & 1)
    else if i == 4 then (v << 1, v >> 7)
    else if i == 5 then ((v >> 1) | (v & 0x80), v & 1)
    else if i == 6 then ((v << 1) | 1, v >> 7)
    else (v >> 1, v & 1)
  }

  function Rotated(i: bv8, v: bv8, f: bv8): Res8 {
    var s := Shifted(i, v, f & 1);
    Res8(s.0, F(s.0, s.0, false, EvenOnes(s.0), false, s.1 == 1))
  }

  /** RLCA RRCA RLA RRA keep S, Z and P/V. */
  function AccRotated(i: bv8, a: bv8, f: bv8): Res8 {
    var s := Shifted(i, a, f & 1);
    Res8(s.0, (f & 0xC4) | (s.0 & 0x28) | s.1)
  }

  /** DAA: add or subtract 6 for each digit that needs it; H is the carry between the digits. */
  function Adjusted(a: bv8, f: bv8): Res8 {
    var low := a & 0xF > 9 || f & 0x10 != 0;
    var high := a > 0x99 || Carry(f);
    var six := If(low, 0x06) + If(high, 0x60);
    var v := if f & 2 != 0 then a - six else a + six;
    Res8(v, F(v, v, (a ^ v) & 0x10 != 0, EvenOnes(v), f & 2 != 0, high))
  }

  /** CPL sets H and N, and takes bits 5 and 3 from the new A. */
  function Inverted(a: bv8): bv8 { 0xFF - a }
  function CplF(a: bv8, f: bv8): bv8 { (f & 0xC5) | 0x12 | (Inverted(a) & 0x28) }

  /** SCF and CCF: bits 5 and 3 come from A, and from F too unless the instruction before wrote F. */
  function CarryFlags(a: bv8, f: bv8, q: bool, h: bool, c: bool): bv8 {
    (f & 0xC4) | ((if q then a else a | f) & 0x28) | If(h, 0x10) | If(c, 0x01)
  }

  /** ADD HL keeps S, Z and P/V; H is the carry out of bit 11, bits 5 and 3 those of the high byte. */
  function WideFlags(x: bv16, y: bv16, f: bv8): bv8 {
    var t := (x as bv32) + (y as bv32);
    (f & 0xC4) | (((t >> 8) & 0x28) as bv8) | If((x & 0xFFF) + (y & 0xFFF) > 0xFFF, 0x10) | If(t > 0xFFFF, 0x01)
  }

  function PairFlags(x: Addr, y: Addr, f: bv8): bv8 { WideFlags(x as bv16, y as bv16, f) }

  /** Is bit `n` of the byte set? */
  predicate Bit(v: bv8, n: bv8)
    requires n <= 7
  {
    if n == 0 then v & 0x01 != 0 else if n == 1 then v & 0x02 != 0 else if n == 2 then v & 0x04 != 0
    else if n == 3 then v & 0x08 != 0 else if n == 4 then v & 0x10 != 0 else if n == 5 then v & 0x20 != 0
    else if n == 6 then v & 0x40 != 0 else v & 0x80 != 0
  }

  function Tested(n: bv8, v: bv8, xy: bv8, f: bv8): bv8
    requires n <= 7
  {
    If(n == 7 && Bit(v, n), 0x80) | If(!Bit(v, n), 0x44) | (xy & 0x28) | 0x10 | (f & 1)
  }

  function Cleared(n: bv8, v: bv8): bv8
    requires n <= 7
  {
    v & !((1 as bv8) << n)
  }

  function Raised(n: bv8, v: bv8): bv8
    requires n <= 7
  {
    v | ((1 as bv8) << n)
  }

  /** NZ Z NC C PO PE P M. */
  predicate Holds(cc: bv8, f: bv8)
    requires cc <= 7
  {
    if cc == 0 then f & 0x40 == 0 else if cc == 1 then f & 0x40 != 0
    else if cc == 2 then f & 0x01 == 0 else if cc == 3 then f & 0x01 != 0
    else if cc == 4 then f & 0x04 == 0 else if cc == 5 then f & 0x04 != 0
    else if cc == 6 then f & 0x80 == 0 else f & 0x80 != 0
  }

  // ---- instructions ----

  /** The instruction after `r` and `m`: one more is counted. */
  function Done(st: State, r: Regs, m: Memory): State { State(r, m, st.count + 1) }

  /** Registers as an instruction finds them: pc is past its `n` bytes, q is clear. */
  function Fetched(st: State, at: Addr, n: int): Regs { st.regs.(pc := Up(at, n), q := false) }

  /** Where the (HL) operand is: (IX+d) or (IY+d) under a prefix, with d after the opcode. */
  function OperandAt(st: State, at: Addr, x: Index): Addr {
    if x == UseHl then st.regs.hl else Up(Base(st.regs, x), Offset(At(st.mem, Up(at, 1))))
  }

  /** Bytes of an instruction with that operand, before any immediate byte. */
  function Length(x: Index): int { if x == UseHl then 1 else 2 }

  function Jumped(r: Regs, to: Addr): Regs { r.(pc := to, memptr := to) }

  function Called(st: State, r: Regs, to: Addr): State {
    var sp := Up(r.sp, -2);
    Done(st, Jumped(r.(sp := sp), to), Put2(st.mem, sp, r.pc))
  }

  function Returned(r: Regs, m: Memory): Regs { Jumped(r.(sp := Up(r.sp, 2)), At2(m, r.sp)) }

  /** Opcodes 00xxx000: NOP, DJNZ, JR, JR cc. */
  function Relative(st: State, at: Addr, y: bv8): State
    requires y <= 7
  {
    if y == 0 then Done(st, Fetched(st, at, 1), st.mem)
    else
      var r := Fetched(st, at, 2);
      var to := Up(r.pc, Offset(At(st.mem, Up(at, 1))));
      if y == 2 then
        var b := Upper(r.bc) - 1;
        var r1 := r.(bc := Join(b, Lower(r.bc)));
        Done(st, if b == 0 then r1 else Jumped(r1, to), st.mem)
      else if y == 3 || (y >= 4 && Holds(y - 4, r.f)) then Done(st, Jumped(r, to), st.mem)
      else Done(st, r, st.mem)
  }

  /** Opcodes 00xxx001: LD rr,nn and ADD HL,rr. */
  function Wides(st: State, at: Addr, x: Index, p: bv8, add: bool): State {
    if !add then Done(st, WithPair(Fetched(st, at, 3), x, p, At2(st.mem, Up(at, 1))), st.mem)
    else
      var r := Fetched(st, at, 1);
      var a, b := Base(r, x), Pair(r, x, p);
      Done(st, WithBase(r, x, Up(a, b)).(f := PairFlags(a, b, r.f), q := true, memptr := Up(a, 1)), st.mem)
  }

  /** Opcodes 00xxx010: A or HL to and from memory. */
  function Indirect(st: State, at: Addr, x: Index, y: bv8): State {
    var m := st.mem;
    if y <= 3 then
      var r := Fetched(st, at, 1);
      var p := if y <= 1 then r.bc else r.de;
      if y == 0 || y == 2 then Done(st, r.(memptr := Join(r.a, Lower(Up(p, 1)))), m[p := r.a])
      else Done(st, r.(a := At(m, p), memptr := Up(p, 1)), m)
    else
      var r := Fetched(st, at, 3);
      var nn := At2(m, Up(at, 1));
      if y == 4 then Done(st, r.(memptr := Up(nn, 1)), Put2(m, nn, Base(r, x)))
      else if y == 5 then Done(st, WithBase(r, x, At2(m, nn)).(memptr := Up(nn, 1)), m)
      else if y == 6 then Done(st, r.(memptr := Join(r.a, Lower(Up(nn, 1)))), m[nn := r.a])
      else Done(st, r.(a := At(m, nn), memptr := Up(nn, 1)), m)
  }

  /** INC and DEC of a register or of memory. */
  function Counts(st: State, at: Addr, x: Index, y: bv8, up: bool): State {
    if y == 6 then
      var o, r := OperandAt(st, at, x), Fetched(st, at, Length(x));
      var v := Stepped(up, At(st.mem, o), r.f);
      Done(st, r.(f := v.f, q := true), st.mem[o := v.v])
    else
      var r := Fetched(st, at, 1);
      var v := Stepped(up, Reg(r, x, y), r.f);
      Done(st, WithReg(r, x, y, v.v).(f := v.f, q := true), st.mem)
  }

  /** LD r,n and LD (HL),n. */
  function Immediate(st: State, at: Addr, x: Index, y: bv8): State {
    if y == 6 then
      Done(st, Fetched(st, at, Length(x) + 1), st.mem[OperandAt(st, at, x) := At(st.mem, Up(at, Length(x)))])
    else Done(st, WithReg(Fetched(st, at, 2), x, y, At(st.mem, Up(at, 1))), st.mem)
  }

  /** Opcodes 00xxx111: the four rotates of A, then DAA, CPL, SCF, CCF. */
  function AccRegs(r: Regs, y: bv8, q: bool): Regs {
    var a, f := r.a, r.f;
    if y <= 3 then var v := AccRotated(y, a, f); r.(a := v.v, f := v.f)
    else if y == 4 then var v := Adjusted(a, f); r.(a := v.v, f := v.f, q := true)
    else if y == 5 then r.(a := Inverted(a), f := CplF(a, f), q := true)
    else if y == 6 then r.(f := CarryFlags(a, f, q, false, true), q := true)
    else r.(f := CarryFlags(a, f, q, Carry(f), !Carry(f)), q := true)
  }

  function Accumulator(st: State, at: Addr, y: bv8): State {
    Done(st, AccRegs(Fetched(st, at, 1), y, st.regs.q), st.mem)
  }

  /** LD r,r' and the forms with memory, which name H and L themselves also under a prefix. */
  function Moves(st: State, at: Addr, x: Index, y: bv8, z: bv8): State {
    if y == 6 then Done(st, Fetched(st, at, Length(x)), st.mem[OperandAt(st, at, x) := Reg(st.regs, UseHl, z)])
    else if z == 6
        then Done(st, WithReg(Fetched(st, at, Length(x)), UseHl, y, At(st.mem, OperandAt(st, at, x))), st.mem)
    else var r := Fetched(st, at, 1); Done(st, WithReg(r, x, y, Reg(r, x, z)), st.mem)
  }

  function WithArith(st: State, r: Regs, i: bv8, b: bv8): State {
    var v := Arith(i, r.a, b, r.f);
    Done(st, r.(a := v.v, f := v.f, q := true), st.mem)
  }

  /** The eight operations on A and a register or memory. */
  function Operates(st: State, at: Addr, x: Index, y: bv8, z: bv8): State {
    if z == 6 then WithArith(st, Fetched(st, at, Length(x)), y, At(st.mem, OperandAt(st, at, x)))
    else WithArith(st, Fetched(st, at, 1), y, Reg(st.regs, x, z))
  }

  /** Opcodes 11xxx001: POP, RET, JP (HL), LD SP,HL. */
  function Pops(st: State, at: Addr, x: Index, y: bv8): State {
    var r, m := Fetched(st, at, 1), st.mem;
    if y & 1 == 0 then
      var p, w, r1 := y >> 1, At2(m, r.sp), r.(sp := Up(r.sp, 2));
      Done(st, if p == 3 then r1.(a := Upper(w), f := Lower(w)) else WithPair(r1, x, p, w), m)
    else if y == 1 then
      var to := At2(m, r.sp);
      State(Returned(r, m), m, st.count + (if to == 0 then 0 else 1))
    else if y == 5 then Done(st, r.(pc := r.hl), m)
    else Done(st, r.(sp := Base(r, x)), m)
  }

  /** Opcodes 11xxx011: JP nn, EX (SP),HL, EX DE,HL. */
  function Exchanges(st: State, at: Addr, x: Index, y: bv8): State {
    var m := st.mem;
    if y == 0 then Done(st, Jumped(Fetched(st, at, 3), At2(m, Up(at, 1))), m)
    else
      var r := Fetched(st, at, 1);
      if y == 4 then
        var w := At2(m, r.sp);
        Done(st, WithBase(r, x, w).(memptr := w), Put2(m, r.sp, Base(r, x)))
      else Done(st, r.(de := r.hl, hl := r.de), m)
  }

  /** PUSH rr: AF in place of SP. */
  function Pushes(st: State, at: Addr, x: Index, p: bv8): State {
    var r := Fetched(st, at, 1);
    var w, sp := if p == 3 then Join(r.a, r.f) else Pair(r, x, p), Up(r.sp, -2);
    Done(st, r.(sp := sp), Put2(st.mem, sp, w))
  }

  /** The main page: opcode 76543210 is x = 76, y = 543, z = 210. */
  function Main(st: State, at: Addr, x: Index): State {
    var op := At(st.mem, at);
    var y, z := (op >> 3) & 7, op & 7;
    if op < 0x40 then
      if z == 0 then Relative(st, at, y)
      else if z == 1 then Wides(st, at, x, y >> 1, y & 1 == 1)
      else if z == 2 then Indirect(st, at, x, y)
      else if z == 3 then
        var r := Fetched(st, at, 1);
        Done(st, WithPair(r, x, y >> 1, Up(Pair(r, x, y >> 1), if y & 1 == 0 then 1 else -1)), st.mem)
      else if z == 4 then Counts(st, at, x, y, true)
      else if z == 5 then Counts(st, at, x, y, false)
      else if z == 6 then Immediate(st, at, x, y)
      else Accumulator(st, at, y)
    else if op < 0x80 then Moves(st, at, x, y, z)
    else if op < 0xC0 then Operates(st, at, x, y, z)
    else if z == 0 then
      var r := Fetched(st, at, 1);
      Done(st, if Holds(y, r.f) then Returned(r, st.mem) else r, st.mem)
    else if z == 1 then Pops(st, at, x, y)
    else if z == 2 then
      var r, nn := Fetched(st, at, 3), At2(st.mem, Up(at, 1));
      Done(st, if Holds(y, r.f) then Jumped(r, nn) else r.(memptr := nn), st.mem)
    else if z == 3 then Exchanges(st, at, x, y)
    else if z == 4 || (z == 5 && y & 1 == 1) then
      var r, nn := Fetched(st, at, 3), At2(st.mem, Up(at, 1));
      if z == 5 || Holds(y, r.f) then Called(st, r, nn) else Done(st, r.(memptr := nn), st.mem)
    else if z == 5 then Pushes(st, at, x, y >> 1)
    else WithArith(st, Fetched(st, at, 2), y, At(st.mem, Up(at, 1)))
  }

  /** The CB page on a byte: rotate or shift, BIT, RES, SET.  BIT gives no new byte. */
  function Bits8(sub: bv8, v: bv8, xy: bv8, f: bv8): Res8 {
    var y := (sub >> 3) & 7;
    if sub < 0x40 then Rotated(y, v, f)
    else if sub < 0x80 then Res8(v, Tested(y, v, xy, f))
    else if sub < 0xC0 then Res8(Cleared(y, v), f)
    else Res8(Raised(y, v), f)
  }

  /** CB sub, or DD CB d sub, whose result goes to memory and to a register as well. */
  function CbPage(st: State, at: Addr, x: Index): State {
    var sub := At(st.mem, Up(at, Length(x)));
    var z, o, r := sub & 7, OperandAt(st, at, x), Fetched(st, at, Length(x) + 1);
    var inMemory := x != UseHl || z == 6;
    var v := if inMemory then At(st.mem, o) else Reg(r, UseHl, z);
    var xy := if x != UseHl then Upper(o) else if z == 6 then Upper(r.memptr) else v;
    var res := Bits8(sub, v, xy, r.f);
    var r1 := if sub < 0x80 then r.(f := res.f, q := true) else r;
    if 0x40 <= sub < 0x80 then Done(st, r1, st.mem)
    else Done(st, if z == 6 then r1 else WithReg(r1, UseHl, z, res.v), if inMemory then st.mem[o := res.v] else st.mem)
  }

  /** Memory after `n` bytes were copied one after another, upwards or downwards. */
  function CopiedFrom(m: Memory, src: Addr, dst: Addr, n: nat, dir: int): Memory
    decreases n
  {
    if n == 0 then m else CopiedFrom(m[dst := At(m, src)], Up(src, dir), Up(dst, dir), n - 1, dir)
  }

  /** The last byte copied; 0 if there was none. */
  function LastCopied(m: Memory, src: Addr, dst: Addr, n: nat, dir: int): bv8
    decreases n
  {
    if n == 0 then 0 else if n == 1 then At(m, src)
    else LastCopied(m[dst := At(m, src)], Up(src, dir), Up(dst, dir), n - 1, dir)
  }

  /** S, Z and C stay; H, N and P/V clear; bits 5 and 3 are bits 1 and 3 of A plus the last byte. */
  function CopyFlags(a: bv8, last: bv8, f: bv8): bv8 {
    var sum := a + last;
    (f & 0xC1) | If(sum & 2 != 0, 0x20) | (sum & 0x08)
  }

  /** LDIR (dir 1) and LDDR (dir -1), run to the end. */
  function Copies(st: State, at: Addr, dir: int): State {
    var r, n := Fetched(st, at, 2), st.regs.bc;
    Done(st, r.(hl := Up(r.hl, dir * n), de := Up(r.de, dir * n), bc := 0, q := true,
                f := CopyFlags(r.a, LastCopied(st.mem, r.hl, r.de, n, dir), r.f)),
         CopiedFrom(st.mem, r.hl, r.de, n, dir))
  }

  /** The ED page: LDIR, LDDR, and codes that do nothing. */
  function EdPage(st: State, at: Addr): State {
    var op := At(st.mem, Up(at, 1));
    if op == 0xB0 then Copies(st, at, 1) else if op == 0xB8 then Copies(st, at, -1)
        else Done(st, Fetched(st, at, 2), st.mem)
  }

  /** The instruction at `at`, with up to `room` more DD and FD prefixes, of which the last one counts. */
  function Instruction(st: State, at: Addr, x: Index, room: nat): State
    decreases room
  {
    var op := At(st.mem, at);
    if room > 0 && op == 0xDD then Instruction(st, Up(at, 1), UseIx, room - 1)
    else if room > 0 && op == 0xFD then Instruction(st, Up(at, 1), UseIy, room - 1)
    else if op == 0xCB then CbPage(st, at, x)
    else if op == 0xED then EdPage(st, at)
    else Main(st, at, x)
  }

  function RefStep(st: State): State { Instruction(st, st.regs.pc, UseHl, 4) }

  // ---- what is left to the host ----

  /** EX AF, HALT, OUT, IN, EXX, DI, EI, RST, a prefix with nothing after it, and LD A with half of an index
      register. */
  predicate MainToHost(op: bv8, x: Index) {
    op == 0x08 || op == 0x76 || op == 0xD3 || op == 0xDB || op == 0xD9 || op == 0xF3 || op == 0xFB || op == 0xDD
        || op == 0xFD
    || (op >= 0xC0 && op & 7 == 7) || (x != UseHl && (op == 0x7C || op == 0x7D))
  }

  /** The ED codes that do something, other than LDIR and LDDR. */
  predicate EdToHost(op: bv8) {
    (0x40 <= op < 0x80 && op != 0x77 && op != 0x7F) || (0xA0 <= op < 0xC0 && op & 7 <= 3 && op != 0xB0 && op != 0xB8)
  }

  predicate HostAt(m: Memory, at: Addr, x: Index, room: nat)
    decreases room
  {
    var op := At(m, at);
    if room > 0 && op == 0xDD then HostAt(m, Up(at, 1), UseIx, room - 1)
    else if room > 0 && op == 0xFD then HostAt(m, Up(at, 1), UseIy, room - 1)
    else if op == 0xCB then false
    else if op == 0xED then EdToHost(At(m, Up(at, 1)))
    else MainToHost(op, x)
  }

  /** Is the instruction at `pc` one the interpreter's own arithmetic does not run? */
  predicate ToHost(m: Memory, pc: Addr) { HostAt(m, pc, UseHl, 4) }
}
