/** Each folded loop equals running its instructions one by one in the interpreter. */
module FoldsProof {
  import opened Bits
  import opened Decoder
  import opened Interp
  import opened Emitter
  import opened FlagsProof
  import opened EmitterProof
  import opened Folds

  /** The decoded code holds `ops` at the addresses `at`. */
  ghost predicate Laid(code: Code, ops: seq<Decoded>, at: seq<Addr>) {
    Chain(ops, at) && forall k :: 0 <= k < |ops| ==> code(at[k]) == ops[k]
  }

  lemma {:induction false} FrozenAdd(host: Host, code: Code, st: State, a: nat, b: nat)
    ensures FrozenSteps(host, code, st, a + b) == FrozenSteps(host, code, FrozenSteps(host, code, st, a), b)
    decreases a
  {
    hide ExecAt;
    if a > 0 {
      FrozenAdd(host, code, ExecAt(host, code(st.regs.pc), st), a - 1, b);
    }
  }

  lemma FrozenOne(host: Host, code: Code, st: State)
    ensures FrozenSteps(host, code, st, 1) == ExecAt(host, code(st.regs.pc), st)
  {
    hide ExecAt;
    assert FrozenSteps(host, code, ExecAt(host, code(st.regs.pc), st), 0) == ExecAt(host, code(st.regs.pc), st);
  }

  lemma {:induction false} ApplyAppend(m: Memory, a: seq<Store>, b: seq<Store>)
    ensures Apply(m, a + b) == Apply(Apply(m, a), b)
    decreases |a|
  {
    if a == [] {
      assert a + b == b;
    } else {
      assert (a + b)[0] == a[0] && (a + b)[1..] == a[1..] + b;
      ApplyAppend(m[a[0].addr := a[0].val], a[1..], b);
    }
  }

  // ---- single instructions of the loops, spelled out ----

  /** Registers once pc is advanced past `d` and q cleared. */
  function Past(r: Regs, d: Decoded): Regs { r.(pc := Wrap(r.pc + d.bytes), q := false) }

  lemma OneStore(m: Memory, a: Addr, v: bv8)
    ensures Apply(m, [Store(a, v)]) == m[a := v]
  {
    assert [Store(a, v)][1..] == [];
    assert Apply(m[a := v], []) == m[a := v];
  }

  lemma StepLdAHl(host: Host, d: Decoded, st: State)
    requires IsLdAHl(d) && !IsIndexPrefix(d.prefix)
    ensures ExecAt(host, d, st) == State(Past(st.regs, d).(a := Rd(st.mem, st.regs.hl)), st.mem, st.count + 1)
  {
  }

  lemma StepLdHlA(host: Host, d: Decoded, st: State)
    requires IsLdHlA(d) && !IsIndexPrefix(d.prefix)
    ensures ExecAt(host, d, st) == State(Past(st.regs, d), st.mem[st.regs.hl := st.regs.a], st.count + 1)
  {
    OneStore(st.mem, st.regs.hl, st.regs.a);
  }

  lemma StepLdADe(host: Host, d: Decoded, st: State)
    requires d.ty == Ptr(LdADe)
    ensures ExecAt(host, d, st)
         == State(Past(st.regs, d).(a := Rd(st.mem, st.regs.de), memptr := Wrap(st.regs.de + 1)), st.mem, st.count + 1)
  {
  }

  lemma StepLdDeA(host: Host, d: Decoded, st: State)
    requires d.ty == Ptr(LdDeA)
    ensures ExecAt(host, d, st)
         == State(Past(st.regs, d).(memptr := StoreQuirk(st.regs.a, st.regs.de)), st.mem[st.regs.de := st.regs.a],
             st.count + 1)
  {
    OneStore(st.mem, st.regs.de, st.regs.a);
  }

  lemma StepIncPair(host: Host, d: Decoded, st: State)
    requires (IsIncPair(d, 1) || IsIncPair(d, 2)) && !IsIndexPrefix(d.prefix)
    ensures ExecAt(host, d, st)
         == State(if d.reg1 == 1 then Past(st.regs, d).(de := Wrap(st.regs.de + 1))
             else Past(st.regs, d).(hl := Wrap(st.regs.hl + 1)),
                  st.mem, st.count + 1)
  {
  }

  lemma StepIncDecR(host: Host, d: Decoded, st: State, isInc: bool)
    requires d.ty == Flag(if isInc then IncR else DecR) && !IsIndexPrefix(d.prefix) && Reg8Code(d.reg1)
    ensures var x := IncDec8(isInc, GetReg8(st.regs, d.reg1, 0), st.regs.f);
            ExecAt(host, d, st)
            == State(SetReg8(Past(st.regs, d).(f := x.f, q := true), d.reg1, 0, x.v), st.mem, st.count + 1)
  {
    hide IncDec8, Wrap, Hi, Lo, SetHi, SetLo;
  }

  lemma StepJpCc(host: Host, d: Decoded, st: State)
    requires d.ty == Branch(JpCc)
    ensures ExecAt(host, d, st)
         == State(Past(st.regs, d).(memptr := d.imm16, pc := if CondTrue(d.cc, st.regs.f) then d.imm16
             else Wrap(st.regs.pc + d.bytes)),
                  st.mem, st.count + 1)
  {
    hide CondTrue;
  }

  lemma StepJrCc(host: Host, d: Decoded, st: State)
    requires d.ty == Branch(JrCc)
    ensures var after := Wrap(st.regs.pc + d.bytes);
            ExecAt(host, d, st)
            == State(if CondTrue(d.cc, st.regs.f)
                then Past(st.regs, d).(pc := Wrap(after + Signed(d.disp)), memptr := Wrap(after + Signed(d.disp)))
                  else Past(st.regs, d), st.mem, st.count + 1)
  {
    hide CondTrue, Signed;
  }

  lemma StepDjnz(host: Host, d: Decoded, st: State)
    requires d.ty == Branch(Djnz)
    ensures var after := Wrap(st.regs.pc + d.bytes);
            var b := Hi(st.regs.bc) - 1;
            var r1 := Past(st.regs, d).(bc := SetHi(st.regs.bc, b));
            ExecAt(host, d, st)
            == State(if b != 0 then r1.(pc := Wrap(after + Signed(d.disp)), memptr := Wrap(after + Signed(d.disp)))
                else r1, st.mem, st.count + 1)
  {
    hide Hi, SetHi, Signed;
  }

  function AndF(a: bv8): bv8 { (LogicFlags(a) & 0xFC) | FLAG_H }

  lemma AndAlu(a: bv8, b: bv8, f: bv8)
    ensures Alu8(And, a, b, f) == Res8(a & b, AndF(a & b))
  {
    hide LogicFlags;
  }

  lemma StepAnd(host: Host, d: Decoded, st: State)
    requires d.ty == Flag(AluN(And))
    ensures ExecAt(host, d, st)
         == State(Past(st.regs, d).(a := st.regs.a & d.imm8, f := AndF(st.regs.a & d.imm8), q := true), st.mem,
             st.count + 1)
  {
    hide Alu8, AndF, Wrap;
    AndAlu(st.regs.a, d.imm8, st.regs.f);
  }

  lemma CpAlu(a: bv8, b: bv8, f: bv8)
    ensures Alu8(Cp, a, b, f) == Res8(a, CpF(a, b))
  {
    hide SubFlags;
  }

  lemma StepCp(host: Host, d: Decoded, st: State)
    requires d.ty == Flag(AluN(Cp))
    ensures ExecAt(host, d, st)
            == State(Past(st.regs, d).(f := CpF(st.regs.a, d.imm8), q := true), st.mem, st.count + 1)
  {
    hide Alu8, CpF, Wrap;
    CpAlu(st.regs.a, d.imm8, st.regs.f);
  }

  // ---- the loop's counter and branch ----

  predicate CounterCode(reg: bv8) { Reg8Code(reg) }

  lemma SetTwice(r: Regs, reg: bv8, v: bv8, w: bv8)
    requires CounterCode(reg)
    ensures GetReg8(SetReg8(r, reg, 0, v), reg, 0) == v
    ensures SetReg8(SetReg8(r, reg, 0, v), reg, 0, w) == SetReg8(r, reg, 0, w)
  {
    hide Word, Hi, Lo;
    WordHalves(v, Lo(r.bc)); WordHalves(Hi(r.bc), v);
    WordHalves(v, Lo(r.de)); WordHalves(Hi(r.de), v);
    WordHalves(v, Lo(r.hl)); WordHalves(Hi(r.hl), v);
    WordHalves(v, Lo(r.ix)); WordHalves(Hi(r.ix), v);
  }

  /** A register write commutes with changing F, q, pc and memptr. */
  lemma SetFrame(r: Regs, reg: bv8, v: bv8, f: bv8, q: bool, pc: Addr, mp: Addr)
    requires CounterCode(reg)
    ensures SetReg8(r.(f := f, q := q, pc := pc, memptr := mp), reg, 0, v)
         == SetReg8(r, reg, 0, v).(f := f, q := q, pc := pc, memptr := mp)
    ensures GetReg8(r.(f := f, q := q, pc := pc, memptr := mp), reg, 0) == GetReg8(r, reg, 0)
    ensures SetReg8(r, reg, 0, v).f == r.f && SetReg8(r, reg, 0, v).q == r.q
    ensures SetReg8(r, reg, 0, v).pc == r.pc && SetReg8(r, reg, 0, v).memptr == r.memptr
  {
    hide SetHi, SetLo, Hi, Lo;
  }

  lemma DecFacts(v: bv8, f: bv8)
    ensures CondTrue(0, Dec8(v, f).f) <==> v != 1
    ensures LastDecF(Dec8(v, f).f) == LastDecF(f)
    ensures v == 1 ==> Dec8(v, f).f == LastDecF(f)
  {
  }

  /** DEC reg; JP/JR NZ,head on the interpreter's registers. */
  function DecNz(back: Back, reg: bv8, head: Addr, exit: Addr, r: Regs): Regs {
    var v := GetReg8(r, reg, 0);
    var taken := v != 1;
    SetReg8(r, reg, 0, v - 1).(f := Dec8(v, r.f).f, q := false, pc := if taken then head else exit,
                               memptr := if taken || back == BackJp then head else r.memptr)
  }

  /** The DEC alone. */
  function DecOnly(reg: bv8, mid: Addr, r: Regs): Regs {
    var v := GetReg8(r, reg, 0);
    SetReg8(r, reg, 0, v - 1).(f := Dec8(v, r.f).f, q := true, pc := mid)
  }

  lemma DecStep(host: Host, dec: Decoded, mid: Addr, st: State)
    requires mid == Wrap(st.regs.pc + dec.bytes)
    requires dec.ty == Flag(DecR) && CounterCode(dec.reg1) && !IsIndexPrefix(dec.prefix)
    ensures ExecAt(host, dec, st) == State(DecOnly(dec.reg1, mid, st.regs), st.mem, st.count + 1)
  {
    hide Wrap, ExecAt, SetReg8, GetReg8, Dec8;
    var v := GetReg8(st.regs, dec.reg1, 0);
    StepIncDecR(host, dec, st, false);
    SetFrame(st.regs, dec.reg1, v - 1, Dec8(v, st.regs.f).f, true, mid, st.regs.memptr);
    Dec8Value(v, st.regs.f);
  }

  lemma BackStep(host: Host, br: Decoded, back: Back, reg: bv8, head: Addr, mid: Addr, exit: Addr, r: Regs, st: State)
    requires CounterCode(reg) && st.regs == DecOnly(reg, mid, r) && exit == Wrap(mid + br.bytes)
    requires back == BackBranch(br, exit, head) && back != NotBack
    ensures ExecAt(host, br, st) == State(DecNz(back, reg, head, exit, r), st.mem, st.count + 1)
  {
    hide Wrap, Signed, ExecAt, SetReg8, GetReg8, Dec8, CondTrue, LastDecF;
    var v := GetReg8(r, reg, 0);
    DecFacts(v, r.f);
    SetFrame(r, reg, v - 1, r.f, r.q, r.pc, r.memptr);
    if back == BackJp {
      StepJpCc(host, br, st);
    } else {
      StepJrCc(host, br, st);
    }
  }

  lemma DecBranchSteps(host: Host, code: Code, dec: Decoded, br: Decoded, back: Back, head: Addr, mid: Addr,
                       exit: Addr, st: State)
    requires code(st.regs.pc) == dec && mid == Wrap(st.regs.pc + dec.bytes)
    requires code(mid) == br && exit == Wrap(mid + br.bytes)
    requires dec.ty == Flag(DecR) && CounterCode(dec.reg1) && !IsIndexPrefix(dec.prefix)
    requires back == BackBranch(br, exit, head) && back != NotBack
    ensures FrozenSteps(host, code, st, 2) == State(DecNz(back, dec.reg1, head, exit, st.regs), st.mem, st.count + 2)
  {
    hide Wrap, ExecAt, SetReg8, GetReg8, Dec8, DecNz, BackBranch, FrozenSteps;
    DecStep(host, dec, mid, st);
    var s1 := ExecAt(host, dec, st);
    FrozenOne(host, code, st);
    FrozenOne(host, code, s1);
    FrozenAdd(host, code, st, 1, 1);
    BackStep(host, br, back, dec.reg1, head, mid, exit, st.regs, s1);
  }

  lemma Dec8Value(v: bv8, f: bv8)
    ensures Dec8(v, f).v == v - 1
  {
    hide XyFrom, ZeroSign;
  }

  // ---- countdown loops ----

  /** The interpreter's state when a DEC/branch countdown that starts at `r` is over. */
  function CountdownEnd(back: Back, reg: bv8, head: Addr, exit: Addr, r: Regs): Regs {
    SetReg8(r, reg, 0, 0).(f := LastDecF(r.f), q := false, pc := exit,
                           memptr := if back == BackJp || GetReg8(r, reg, 0) != 1 then head else r.memptr)
  }

  lemma CountdownNext(back: Back, reg: bv8, head: Addr, exit: Addr, r: Regs)
    requires CounterCode(reg)
    ensures var r1 := DecNz(back, reg, head, exit, r);
            if GetReg8(r, reg, 0) == 1 then r1 == CountdownEnd(back, reg, head, exit, r)
            else r1.pc == head && GetReg8(r1, reg, 0) == GetReg8(r, reg, 0) - 1
                 && CountdownEnd(back, reg, head, exit, r1) == CountdownEnd(back, reg, head, exit, r)
  {
    hide SetReg8, GetReg8, Dec8, CondTrue, LastDecF;
    var v := GetReg8(r, reg, 0);
    DecFacts(v, r.f);
    var f, pc, mp := Dec8(v, r.f).f, if v != 1 then head else exit, if v != 1 || back == BackJp then head else r.memptr;
    SetFrame(r, reg, v - 1, f, false, pc, mp);
    SetTwice(r, reg, v - 1, 0);
    SetFrame(SetReg8(r, reg, 0, v - 1), reg, 0, f, false, pc, mp);
  }

  lemma {:induction false} CountdownSteps(host: Host, code: Code, dec: Decoded, br: Decoded, back: Back, head: Addr,
                                          mid: Addr, exit: Addr, st: State)
    requires st.regs.pc == head && code(head) == dec && mid == Wrap(head + dec.bytes)
    requires code(mid) == br && exit == Wrap(mid + br.bytes)
    requires dec.ty == Flag(DecR) && CounterCode(dec.reg1) && !IsIndexPrefix(dec.prefix)
    requires back == BackBranch(br, exit, head) && back != NotBack
    ensures var n := Iterations(GetReg8(st.regs, dec.reg1, 0));
            FrozenSteps(host, code, st, 2 * n)
            == State(CountdownEnd(back, dec.reg1, head, exit, st.regs), st.mem, st.count + 2 * n)
    decreases Iterations(GetReg8(st.regs, dec.reg1, 0))
  {
    hide Wrap, GetReg8, SetReg8, BackBranch, DecNz, CountdownEnd, FrozenSteps, Iterations;
    var v := GetReg8(st.regs, dec.reg1, 0);
    DecBranchSteps(host, code, dec, br, back, head, mid, exit, st);
    CountdownNext(back, dec.reg1, head, exit, st.regs);
    if v == 1 {
      OneIteration();
    } else {
      FewerIterations(v);
      var s1 := FrozenSteps(host, code, st, 2);
      var k := Iterations(v) - 1;
      CountdownSteps(host, code, dec, br, back, head, mid, exit, s1);
      FrozenAdd(host, code, st, 2, 2 * k);
    }
  }

  lemma OneIteration()
    ensures Iterations(1) == 1
  {
  }

  function DjnzEnd(head: Addr, exit: Addr, r: Regs): Regs {
    r.(bc := SetHi(r.bc, 0), q := false, pc := exit, memptr := if Hi(r.bc) != 1 then head else r.memptr)
  }

  lemma {:induction false} DjnzSteps(host: Host, code: Code, d: Decoded, head: Addr, exit: Addr, st: State)
    requires st.regs.pc == head && code(head) == d && exit == Wrap(head + d.bytes)
    requires d.ty == Branch(Djnz) && Wrap(exit + Signed(d.disp)) == head
    ensures var n := Iterations(Hi(st.regs.bc));
            FrozenSteps(host, code, st, n) == State(DjnzEnd(head, exit, st.regs), st.mem, st.count + n)
    decreases Iterations(Hi(st.regs.bc))
  {
    hide Wrap, Signed, ExecAt, FrozenSteps, Hi, SetHi, Iterations;
    var b := Hi(st.regs.bc);
    StepDjnz(host, d, st);
    FrozenOne(host, code, st);
    HiTwice(st.regs.bc, b - 1, 0);
    if b == 1 {
      OneIteration();
    } else {
      FewerIterations(b);
      var s1 := FrozenSteps(host, code, st, 1);
      assert Hi(s1.regs.bc) == b - 1;
      DjnzSteps(host, code, d, head, exit, s1);
      FrozenAdd(host, code, st, 1, Iterations(b) - 1);
    }
  }

  lemma HiTwice(w: Addr, v: bv8, x: bv8)
    ensures Hi(SetHi(w, v)) == v && SetHi(SetHi(w, v), x) == SetHi(w, x)
  {
    hide Word, Hi, Lo;
    WordHalves(v, Lo(w));
  }

  // ---- copy loops ----

  predicate IsCopyBody(ops: seq<Decoded>, fromDe: bool) {
    |ops| == 6 && (forall k :: 0 <= k < 6 ==> !IsIndexPrefix(ops[k].prefix))
    && (if fromDe then ops[0].ty == Ptr(LdADe) && IsLdHlA(ops[1]) else IsLdAHl(ops[0]) && ops[1].ty == Ptr(LdDeA))
    && ((IsIncPair(ops[2], 2) && IsIncPair(ops[3], 1)) || (IsIncPair(ops[2], 1) && IsIncPair(ops[3], 2)))
    && ops[4].ty == Flag(DecR) && ops[4].reg1 <= 1
  }

  /** Registers after one load, store and the two increments. */
  function CopyOnce(fromDe: bool, mid: Addr, r: Regs, m: Memory): Regs {
    var v := Rd(m, if fromDe then r.de else r.hl);
    r.(a := v, memptr := if fromDe then Wrap(r.de + 1) else StoreQuirk(v, r.de),
       hl := Wrap(r.hl + 1), de := Wrap(r.de + 1), q := false, pc := mid)
  }

  function CopyStored(fromDe: bool, r: Regs, m: Memory): Memory {
    m[(if fromDe then r.hl else r.de) := Rd(m, if fromDe then r.de else r.hl)]
  }

  lemma LoadStoreSteps(host: Host, code: Code, ops: seq<Decoded>, at: seq<Addr>, fromDe: bool, st: State)
    requires Laid(code, ops, at) && IsCopyBody(ops, fromDe) && st.regs.pc == at[0]
    ensures FrozenSteps(host, code, st, 2)
         == State(CopyOnce(fromDe, at[2], st.regs, st.mem).(hl := st.regs.hl, de := st.regs.de),
                  CopyStored(fromDe, st.regs, st.mem), st.count + 2)
  {
    hide Wrap, Rd, ExecAt, FrozenSteps, StoreQuirk;
    assert at[1] == Wrap(at[0] + ops[0].bytes) && at[2] == Wrap(at[1] + ops[1].bytes);
    var s1 := ExecAt(host, ops[0], st);
    FrozenOne(host, code, st);
    FrozenOne(host, code, s1);
    FrozenAdd(host, code, st, 1, 1);
    if fromDe {
      StepLdADe(host, ops[0], st);
      StepLdHlA(host, ops[1], s1);
    } else {
      StepLdAHl(host, ops[0], st);
      StepLdDeA(host, ops[1], s1);
    }
  }

  lemma IncrementSteps(host: Host, code: Code, i0: Decoded, i1: Decoded, mid: Addr, exit: Addr, st: State)
    requires code(st.regs.pc) == i0 && mid == Wrap(st.regs.pc + i0.bytes) && code(mid) == i1
             && exit == Wrap(mid + i1.bytes)
    requires !IsIndexPrefix(i0.prefix) && !IsIndexPrefix(i1.prefix)
    requires (IsIncPair(i0, 2) && IsIncPair(i1, 1)) || (IsIncPair(i0, 1) && IsIncPair(i1, 2))
    ensures FrozenSteps(host, code, st, 2)
         == State(st.regs.(hl := Wrap(st.regs.hl + 1), de := Wrap(st.regs.de + 1), q := false, pc := exit), st.mem,
             st.count + 2)
  {
    hide Wrap, ExecAt, FrozenSteps;
    var s1 := ExecAt(host, i0, st);
    FrozenOne(host, code, st);
    FrozenOne(host, code, s1);
    FrozenAdd(host, code, st, 1, 1);
    StepIncPair(host, i0, st);
    StepIncPair(host, i1, s1);
  }

  lemma CopyIteration(host: Host, code: Code, ops: seq<Decoded>, at: seq<Addr>, fromDe: bool, back: Back, st: State)
    requires Laid(code, ops, at) && IsCopyBody(ops, fromDe) && st.regs.pc == at[0]
    requires back == BackBranch(ops[5], at[6], at[0]) && back != NotBack
    ensures FrozenSteps(host, code, st, 6)
         == State(DecNz(back, ops[4].reg1, at[0], at[6], CopyOnce(fromDe, at[4], st.regs, st.mem)),
                  CopyStored(fromDe, st.regs, st.mem), st.count + 6)
  {
    hide Wrap, Rd, ExecAt, FrozenSteps, StoreQuirk, DecNz, CopyStored, BackBranch;
    assert at[3] == Wrap(at[2] + ops[2].bytes) && at[4] == Wrap(at[3] + ops[3].bytes);
    assert at[5] == Wrap(at[4] + ops[4].bytes) && at[6] == Wrap(at[5] + ops[5].bytes);
    LoadStoreSteps(host, code, ops, at, fromDe, st);
    var s2 := FrozenSteps(host, code, st, 2);
    assert code(at[2]) == ops[2];
    IncrementSteps(host, code, ops[2], ops[3], at[3], at[4], s2);
    var s4 := FrozenSteps(host, code, s2, 2);
    assert code(at[4]) == ops[4];
    DecBranchSteps(host, code, ops[4], ops[5], back, at[0], at[5], at[6], s4);
    FrozenAdd(host, code, st, 2, 4);
    FrozenAdd(host, code, s2, 2, 2);
  }

  /** Where the copy loop leaves the registers after `n` iterations that store `ws`. */
  function CopyEnd(counter: bv8, fromDe: bool, back: Back, head: Addr, exit: Addr, r: Regs, n: nat, last: bv8): Regs {
    SetReg8(r, counter, 0, 0)
      .(hl := Wrap(r.hl + n), de := Wrap(r.de + n), a := last, f := LastDecF(r.f), q := false, pc := exit,
        memptr := if back == BackJp then head else if fromDe then Wrap(r.de + n) else Word(last, Lo(Wrap(r.de + n))))
  }

  function CopyWrites(fromDe: bool, r: Regs, m: Memory, n: nat): seq<Store> {
    BlockStores(m, if fromDe then r.de else r.hl, if fromDe then r.hl else r.de, n, 1)
  }

  /** The counter is B or C, so writing it leaves everything outside BC alone. */
  lemma CounterInBc(r: Regs, reg: bv8, v: bv8)
    requires reg <= 1
    ensures CounterCode(reg)
    ensures SetReg8(r, reg, 0, v) == r.(bc := SetReg8(r, reg, 0, v).bc)
    ensures GetReg8(r, reg, 0) == if reg == 0 then Hi(r.bc) else Lo(r.bc)
  {
    hide SetHi, SetLo, Hi, Lo;
  }

  lemma BcOnly(r1: Regs, r2: Regs, reg: bv8, v: bv8)
    requires reg <= 1 && r1.bc == r2.bc
    ensures SetReg8(r1, reg, 0, v).bc == SetReg8(r2, reg, 0, v).bc
    ensures GetReg8(r1, reg, 0) == GetReg8(r2, reg, 0)
  {
    hide SetHi, SetLo, Hi, Lo;
  }

  lemma SetTwiceBc(r: Regs, reg: bv8, v: bv8, w: bv8)
    requires reg <= 1
    ensures GetReg8(SetReg8(r, reg, 0, v), reg, 0) == v
    ensures SetReg8(SetReg8(r, reg, 0, v), reg, 0, w).bc == SetReg8(r, reg, 0, w).bc
  {
    hide SetReg8, GetReg8;
    SetTwice(r, reg, v, w);
  }

  /** What one iteration leaves, whether it is the last or not. */
  lemma CopyNext(counter: bv8, fromDe: bool, back: Back, head: Addr, mid: Addr, exit: Addr, r: Regs, m: Memory)
    requires counter <= 1
    ensures var v := Rd(m, if fromDe then r.de else r.hl);
            var r1 := DecNz(back, counter, head, exit, CopyOnce(fromDe, mid, r, m));
            r1 == r.(a := v, hl := Wrap(r.hl + 1), de := Wrap(r.de + 1), q := false,
                     bc := SetReg8(r, counter, 0, GetReg8(r, counter, 0) - 1).bc,
                     f := Dec8(GetReg8(r, counter, 0), r.f).f,
                     pc := if GetReg8(r, counter, 0) != 1 then head else exit,
                     memptr := if GetReg8(r, counter, 0) != 1 || back == BackJp then head
                               else if fromDe then Wrap(r.de + 1) else StoreQuirk(v, r.de))
  {
    hide Wrap, Rd, StoreQuirk, Dec8, SetReg8, GetReg8;
    var r0 := CopyOnce(fromDe, mid, r, m);
    BcOnly(r0, r, counter, GetReg8(r, counter, 0) - 1);
    CounterInBc(r0, counter, GetReg8(r, counter, 0) - 1);
  }

  lemma CopyTail(counter: bv8, fromDe: bool, back: Back, head: Addr, mid: Addr, exit: Addr, r: Regs, m: Memory,
                 n: nat, last: bv8)
    requires counter <= 1 && n >= 1 && GetReg8(r, counter, 0) != 1
    ensures var r1 := DecNz(back, counter, head, exit, CopyOnce(fromDe, mid, r, m));
            && CopyEnd(counter, fromDe, back, head, exit, r1, n, last)
               == CopyEnd(counter, fromDe, back, head, exit, r, n + 1, last)
            && GetReg8(r1, counter, 0) == GetReg8(r, counter, 0) - 1
            && r1.pc == head
  {
    hide Wrap, Rd, StoreQuirk, Dec8, SetReg8, GetReg8, DecNz, CopyOnce, Word, Lo, LastDecF;
    CopyNext(counter, fromDe, back, head, mid, exit, r, m);
    WrapAdd(r.hl, 1, n);
    WrapAdd(r.de, 1, n);
    DecFacts(GetReg8(r, counter, 0), r.f);
    CounterTail(counter, DecNz(back, counter, head, exit, CopyOnce(fromDe, mid, r, m)), r);
  }

  lemma CounterTail(counter: bv8, r1: Regs, r: Regs)
    requires counter <= 1 && r1.bc == SetReg8(r, counter, 0, GetReg8(r, counter, 0) - 1).bc
    ensures GetReg8(r1, counter, 0) == GetReg8(r, counter, 0) - 1
    ensures SetReg8(r1, counter, 0, 0) == r1.(bc := SetReg8(r, counter, 0, 0).bc)
    ensures SetReg8(r, counter, 0, 0) == r.(bc := SetReg8(r, counter, 0, 0).bc)
  {
    hide SetReg8, GetReg8;
    var v := GetReg8(r, counter, 0);
    SetTwiceBc(r, counter, v - 1, 0);
    BcOnly(r1, SetReg8(r, counter, 0, v - 1), counter, 0);
    CounterInBc(r1, counter, 0);
    CounterInBc(r, counter, 0);
  }

  lemma CopyLast(counter: bv8, fromDe: bool, back: Back, head: Addr, mid: Addr, exit: Addr, r: Regs, m: Memory)
    requires counter <= 1 && GetReg8(r, counter, 0) == 1
    ensures DecNz(back, counter, head, exit, CopyOnce(fromDe, mid, r, m))
         == CopyEnd(counter, fromDe, back, head, exit, r, 1, Rd(m, if fromDe then r.de else r.hl))
  {
    hide Wrap, Rd, Dec8, SetReg8, GetReg8, DecNz, CopyOnce, Word, Lo, LastDecF;
    CopyNext(counter, fromDe, back, head, mid, exit, r, m);
    DecFacts(1, r.f);
    CounterInBc(r, counter, 0);
    var zero: bv8 := 1 - 1;
    assert zero == 0;
  }

  lemma CopyWritesNext(fromDe: bool, r: Regs, m: Memory, r1: Regs, n: nat)
    requires r1.hl == Wrap(r.hl + 1) && r1.de == Wrap(r.de + 1)
    ensures var v := Rd(m, if fromDe then r.de else r.hl);
            var ws := CopyWrites(fromDe, r1, CopyStored(fromDe, r, m), n);
            && CopyWrites(fromDe, r, m, n + 1) == [Store(if fromDe then r.hl else r.de, v)] + ws
            && Apply(m, CopyWrites(fromDe, r, m, n + 1)) == Apply(CopyStored(fromDe, r, m), ws)
            && LastByte(CopyWrites(fromDe, r, m, n + 1)) == if n == 0 then v else LastByte(ws)
  {
    hide Wrap, Rd;
    var v := Rd(m, if fromDe then r.de else r.hl);
    var ws := CopyWrites(fromDe, r1, CopyStored(fromDe, r, m), n);
    assert CopyWrites(fromDe, r, m, n + 1) == [Store(if fromDe then r.hl else r.de, v)] + ws;
    assert ([Store(if fromDe then r.hl else r.de, v)] + ws)[1..] == ws;
    assert n > 0 ==> ws != [];
  }

  lemma {:induction false} CopySteps(host: Host, code: Code, ops: seq<Decoded>, at: seq<Addr>, fromDe: bool,
                                     back: Back, st: State)
    requires Laid(code, ops, at) && IsCopyBody(ops, fromDe) && st.regs.pc == at[0]
    requires back == BackBranch(ops[5], at[6], at[0]) && back != NotBack
    ensures var n := Iterations(GetReg8(st.regs, ops[4].reg1, 0));
            var ws := CopyWrites(fromDe, st.regs, st.mem, n);
            FrozenSteps(host, code, st, 6 * n)
            == State(CopyEnd(ops[4].reg1, fromDe, back, at[0], at[6], st.regs, n, LastByte(ws)), Apply(st.mem, ws),
                st.count + 6 * n)
    decreases Iterations(GetReg8(st.regs, ops[4].reg1, 0))
  {
    hide Wrap, Rd, IsCopyBody, GetReg8, SetReg8, BackBranch, CopyEnd, CopyWrites, CopyStored, FrozenSteps, Iterations,
         LastByte, Apply;
    var counter := CopyCounter(ops, fromDe);
    var r, v := st.regs, GetReg8(st.regs, counter, 0);
    CopyIteration(host, code, ops, at, fromDe, back, st);
    CopyNext(counter, fromDe, back, at[0], at[4], at[6], r, st.mem);
    var s1 := FrozenSteps(host, code, st, 6);
    if v == 1 {
      OneIteration();
      CopyLast(counter, fromDe, back, at[0], at[4], at[6], r, st.mem);
      CopyWritesNext(fromDe, r, st.mem, s1.regs, 0);
      NoCopies(fromDe, s1.regs, s1.mem);
    } else {
      FewerIterations(v);
      var n := Iterations(v) - 1;
      CopyTail(counter, fromDe, back, at[0], at[4], at[6], r, st.mem, n,
          LastByte(CopyWrites(fromDe, s1.regs, s1.mem, n)));
      CopyWritesNext(fromDe, r, st.mem, s1.regs, n);
      CopySteps(host, code, ops, at, fromDe, back, s1);
      FrozenAdd(host, code, st, 6, 6 * n);
    }
  }

  function CopyCounter(ops: seq<Decoded>, fromDe: bool): (c: bv8)
    requires IsCopyBody(ops, fromDe)
    ensures c == ops[4].reg1 && c <= 1 && |ops| == 6
  {
    ops[4].reg1
  }

  lemma NoCopies(fromDe: bool, r: Regs, m: Memory)
    ensures Apply(m, CopyWrites(fromDe, r, m, 0)) == m
  {
  }

  // ---- fill loops ----

  predicate IsFillBody(ops: seq<Decoded>) {
    |ops| == 4 && (forall k :: 0 <= k < 4 ==> !IsIndexPrefix(ops[k].prefix))
    && IsLdHlA(ops[0]) && IsIncPair(ops[1], 2) && ops[2].ty == Flag(DecR) && ops[2].reg1 <= 3
  }

  function FillOnce(mid: Addr, r: Regs): Regs { r.(hl := Wrap(r.hl + 1), q := false, pc := mid) }

  lemma FillIteration(host: Host, code: Code, ops: seq<Decoded>, at: seq<Addr>, back: Back, st: State)
    requires Laid(code, ops, at) && IsFillBody(ops) && st.regs.pc == at[0]
    requires back == BackBranch(ops[3], at[4], at[0]) && back != NotBack
    ensures FrozenSteps(host, code, st, 4)
         == State(DecNz(back, ops[2].reg1, at[0], at[4], FillOnce(at[2], st.regs)), st.mem[st.regs.hl := st.regs.a],
             st.count + 4)
  {
    hide Wrap, ExecAt, FrozenSteps, DecNz, BackBranch;
    assert at[1] == Wrap(at[0] + ops[0].bytes) && at[2] == Wrap(at[1] + ops[1].bytes);
    assert at[3] == Wrap(at[2] + ops[2].bytes) && at[4] == Wrap(at[3] + ops[3].bytes);
    var s1 := ExecAt(host, ops[0], st);
    StepLdHlA(host, ops[0], st);
    FrozenOne(host, code, st);
    var s2 := ExecAt(host, ops[1], s1);
    StepIncPair(host, ops[1], s1);
    FrozenOne(host, code, s1);
    FrozenAdd(host, code, st, 1, 1);
    assert code(at[2]) == ops[2];
    DecBranchSteps(host, code, ops[2], ops[3], back, at[0], at[3], at[4], s2);
    FrozenAdd(host, code, st, 2, 2);
  }

  function FillEnd(counter: bv8, back: Back, head: Addr, exit: Addr, r: Regs, n: nat): Regs {
    SetReg8(r, counter, 0, 0)
      .(hl := Wrap(r.hl + n), f := LastDecF(r.f), q := false, pc := exit,
        memptr := if back == BackJp || n >= 2 then head else r.memptr)
  }

  /** A counter in BC or DE commutes with the rest of the loop's register updates. */
  lemma SetFrameHl(r: Regs, reg: bv8, v: bv8, hl: Addr, f: bv8, q: bool, pc: Addr, mp: Addr)
    requires reg <= 3
    ensures CounterCode(reg)
    ensures SetReg8(r.(hl := hl, f := f, q := q, pc := pc, memptr := mp), reg, 0, v)
         == SetReg8(r, reg, 0, v).(hl := hl, f := f, q := q, pc := pc, memptr := mp)
    ensures GetReg8(r.(hl := hl, f := f, q := q, pc := pc, memptr := mp), reg, 0) == GetReg8(r, reg, 0)
    ensures SetReg8(r, reg, 0, v).hl == r.hl && SetReg8(r, reg, 0, v).a == r.a
  {
    hide SetHi, SetLo, Hi, Lo;
  }

  lemma FillNext(counter: bv8, back: Back, head: Addr, mid: Addr, exit: Addr, r: Regs)
    requires counter <= 3
    ensures var v := GetReg8(r, counter, 0);
            DecNz(back, counter, head, exit, FillOnce(mid, r))
            == SetReg8(r, counter, 0, v - 1)
                 .(hl := Wrap(r.hl + 1), f := Dec8(v, r.f).f, q := false, pc := if v != 1 then head else exit,
                   memptr := if v != 1 || back == BackJp then head else r.memptr)
  {
    hide Wrap, Dec8, SetReg8, GetReg8;
    var v := GetReg8(r, counter, 0);
    SetFrameHl(r, counter, v - 1, Wrap(r.hl + 1), r.f, false, mid, r.memptr);
  }

  lemma FillTail(counter: bv8, back: Back, head: Addr, mid: Addr, exit: Addr, r: Regs, n: nat)
    requires counter <= 3 && (GetReg8(r, counter, 0) == 1 <==> n == 0)
    ensures var r1 := DecNz(back, counter, head, exit, FillOnce(mid, r));
            && r1.hl == Wrap(r.hl + 1) && r1.a == r.a
            && if n == 0 then r1 == FillEnd(counter, back, head, exit, r, 1)
               else r1.pc == head && GetReg8(r1, counter, 0) == GetReg8(r, counter, 0) - 1
                    && FillEnd(counter, back, head, exit, r1, n) == FillEnd(counter, back, head, exit, r, n + 1)
  {
    hide Wrap, Dec8, SetReg8, GetReg8, DecNz, FillOnce, LastDecF;
    var v := GetReg8(r, counter, 0);
    FillNext(counter, back, head, mid, exit, r);
    var f, pc, mp := Dec8(v, r.f).f, if v != 1 then head else exit, if v != 1 || back == BackJp then head else r.memptr;
    DecFacts(v, r.f);
    SetFrameHl(r, counter, v - 1, r.hl, r.f, r.q, r.pc, r.memptr);
    SetFrameHl(r, counter, 0, r.hl, r.f, r.q, r.pc, r.memptr);
    SetTwice(r, counter, v - 1, 0);
    SetFrameHl(SetReg8(r, counter, 0, v - 1), counter, 0, Wrap(r.hl + 1), f, false, pc, mp);
    WrapAdd(r.hl, 1, n);
  }

  lemma {:induction false} FillShift(dst: Addr, v: bv8, i: nat, n: nat)
    requires i <= n
    ensures FillStores(dst, v, i + 1, n + 1) == FillStores(Wrap(dst + 1), v, i, n)
    decreases n - i
  {
    hide Wrap;
    if i < n {
      WrapAdd(dst, 1, i);
      FillShift(dst, v, i + 1, n);
    }
  }

  lemma FillWritesNext(dst: Addr, v: bv8, n: nat, m: Memory)
    ensures Apply(m, FillStores(dst, v, 0, n + 1)) == Apply(m[dst := v], FillStores(Wrap(dst + 1), v, 0, n))
  {
    FillShift(dst, v, 0, n);
    var ws := FillStores(dst, v, 1, n + 1);
    assert Wrap(dst + 0) == dst;
    assert FillStores(dst, v, 0, n + 1) == [Store(dst, v)] + ws;
    assert ([Store(dst, v)] + ws)[1..] == ws;
  }

  lemma {:induction false} FillSteps(host: Host, code: Code, ops: seq<Decoded>, at: seq<Addr>, back: Back, st: State)
    requires Laid(code, ops, at) && IsFillBody(ops) && st.regs.pc == at[0]
    requires back == BackBranch(ops[3], at[4], at[0]) && back != NotBack
    ensures var n := Iterations(GetReg8(st.regs, ops[2].reg1, 0));
            FrozenSteps(host, code, st, 4 * n)
            == State(FillEnd(ops[2].reg1, back, at[0], at[4], st.regs, n),
                     Apply(st.mem, FillStores(st.regs.hl, st.regs.a, 0, n)), st.count + 4 * n)
    decreases Iterations(GetReg8(st.regs, ops[2].reg1, 0))
  {
    hide Wrap, GetReg8, SetReg8, BackBranch, DecNz, FillOnce, FillEnd, FillStores, FrozenSteps, Iterations, Apply;
    var r, v := st.regs, GetReg8(st.regs, ops[2].reg1, 0);
    OneIteration();
    FillIteration(host, code, ops, at, back, st);
    var s1 := FrozenSteps(host, code, st, 4);
    if v == 1 {
      FillTail(ops[2].reg1, back, at[0], at[2], at[4], r, 0);
      FillWritesNext(r.hl, r.a, 0, st.mem);
      NoFill(s1.mem, s1.regs.hl, r.a);
    } else {
      FewerIterations(v);
      var n := Iterations(v) - 1;
      FillTail(ops[2].reg1, back, at[0], at[2], at[4], r, n);
      FillWritesNext(r.hl, r.a, n, st.mem);
      FillSteps(host, code, ops, at, back, s1);
      FrozenAdd(host, code, st, 4, 4 * n);
    }
  }

  lemma NoFill(m: Memory, dst: Addr, v: bv8)
    ensures Apply(m, FillStores(dst, v, 0, 0)) == m
  {
  }

  // ---- the filtered copy ----

  function CpF(a: bv8, b: bv8): bv8 { SubFlags(a, b, a - b, b) }

  /** Does JP C (cc 3) or JP Z leave after comparing `a` with `b`? */
  predicate Leaves(cc: bv8, a: bv8, b: bv8) { if cc == 3 then Below(a, b) else a == b }

  lemma CpFacts(cc: bv8, a: bv8, b: bv8)
    requires cc == 3 || cc == 1
    ensures CondTrue(cc, CpF(a, b)) <==> Leaves(cc, a, b)
  {
    assert a - b == 0 <==> a == b;
  }

  /** CP n; JP cc,exit, for C and for Z. */
  lemma CpJpSteps(host: Host, code: Code, cp: Decoded, jp: Decoded, mid: Addr, next: Addr, exit: Addr, st: State)
    requires code(st.regs.pc) == cp && mid == Wrap(st.regs.pc + cp.bytes) && code(mid) == jp
             && next == Wrap(mid + jp.bytes)
    requires cp.ty == Flag(AluN(Cp)) && (IsJp(jp, 3, exit) || IsJp(jp, 1, exit))
    ensures FrozenSteps(host, code, st, 2)
         == State(st.regs.(f := CpF(st.regs.a, cp.imm8), q := false, memptr := exit,
                           pc := if Leaves(jp.cc, st.regs.a, cp.imm8) then exit else next), st.mem, st.count + 2)
  {
    hide Wrap, ExecAt, FrozenSteps, CpF, CondTrue, Leaves;
    var s1 := ExecAt(host, cp, st);
    StepCp(host, cp, st);
    StepJpCc(host, jp, s1);
    CpFacts(jp.cc, st.regs.a, cp.imm8);
    FrozenOne(host, code, st);
    FrozenOne(host, code, s1);
    FrozenAdd(host, code, st, 1, 1);
  }

  ghost predicate FilterAt(code: Code, d: seq<Decoded>, at: seq<Addr>) {
    |d| == 12 && Laid(code, d, at) && IsFilterLoop(d, at[0], at[12]) && forall k :: 0 <= k < 12 ==>
        !IsIndexPrefix(d[k].prefix)
  }

  /** The byte under DE, masked. */
  function Masked(d: seq<Decoded>, st: State): bv8
    requires |d| == 12
  {
    MaskedByte(st.mem, st.regs.de, d[1].imm8)
  }

  /** LD A,(DE); AND mask; CP lo; JP C,exit. */
  lemma FilterFirst(host: Host, code: Code, d: seq<Decoded>, at: seq<Addr>, st: State)
    requires FilterAt(code, d, at) && st.regs.pc == at[0]
    ensures FrozenSteps(host, code, st, 4)
         == State(st.regs.(a := Masked(d, st), f := CpF(Masked(d, st), d[2].imm8), q := false, memptr := at[12],
                           pc := if Leaves(3, Masked(d, st), d[2].imm8) then at[12] else at[4]), st.mem, st.count + 4)
  {
    hide Wrap, Rd, ExecAt, FrozenSteps, CpF, AndF, Leaves;
    assert at[1] == Wrap(at[0] + d[0].bytes) && at[2] == Wrap(at[1] + d[1].bytes);
    assert at[3] == Wrap(at[2] + d[2].bytes) && at[4] == Wrap(at[3] + d[3].bytes);
    var s1 := ExecAt(host, d[0], st);
    StepLdADe(host, d[0], st);
    FrozenOne(host, code, st);
    var s2 := ExecAt(host, d[1], s1);
    StepAnd(host, d[1], s1);
    FrozenOne(host, code, s1);
    FrozenAdd(host, code, st, 1, 1);
    CpJpSteps(host, code, d[2], d[3], at[3], at[4], at[12], s2);
    FrozenAdd(host, code, st, 2, 2);
  }

  /** LD (HL),A; INC HL; INC DE. */
  lemma FilterStore(host: Host, code: Code, d: seq<Decoded>, at: seq<Addr>, st: State)
    requires FilterAt(code, d, at) && st.regs.pc == at[6]
    ensures FrozenSteps(host, code, st, 3)
         == State(st.regs.(hl := Wrap(st.regs.hl + 1), de := Wrap(st.regs.de + 1), q := false, pc := at[9]),
                  st.mem[st.regs.hl := st.regs.a], st.count + 3)
  {
    hide Wrap, ExecAt, FrozenSteps;
    assert at[7] == Wrap(at[6] + d[6].bytes) && at[8] == Wrap(at[7] + d[7].bytes) && at[9] == Wrap(at[8] + d[8].bytes);
    var s1 := ExecAt(host, d[6], st);
    StepLdHlA(host, d[6], st);
    FrozenOne(host, code, st);
    IncrementSteps(host, code, d[7], d[8], at[8], at[9], s1);
    FrozenAdd(host, code, st, 1, 2);
  }

  /** INC B; DEC C; JP NZ,head. */
  lemma FilterCount(host: Host, code: Code, d: seq<Decoded>, at: seq<Addr>, st: State)
    requires FilterAt(code, d, at) && st.regs.pc == at[9]
    ensures var c := Lo(st.regs.bc);
            FrozenSteps(host, code, st, 3)
            == State(st.regs.(bc := Word(Hi(st.regs.bc) + 1, c - 1), f := Dec8(c, Inc8(Hi(st.regs.bc), st.regs.f).f).f,
                              q := false, memptr := at[0], pc := if c == 1 then at[12] else at[0]), st.mem,
                                  st.count + 3)
  {
    hide Wrap, ExecAt, FrozenSteps, Inc8, Dec8, Hi, Lo, Word, DecNz, BackBranch;
    assert at[10] == Wrap(at[9] + d[9].bytes) && at[11] == Wrap(at[10] + d[10].bytes)
        && at[12] == Wrap(at[11] + d[11].bytes);
    var s1 := ExecAt(host, d[9], st);
    StepIncDecR(host, d[9], st, true);
    FrozenOne(host, code, st);
    IncBValue(Hi(st.regs.bc), st.regs.f);
    assert BackBranch(d[11], at[12], at[0]) == BackJp by { BackIsJp(d[11], at[12], at[0]); }
    DecBranchSteps(host, code, d[10], d[11], BackJp, at[0], at[11], at[12], s1);
    FrozenAdd(host, code, st, 1, 2);
    CountValue(s1.regs, at[0], at[12], Hi(st.regs.bc) + 1, st.regs.bc);
  }

  lemma BackIsJp(br: Decoded, after: Addr, head: Addr)
    requires IsJp(br, 0, head)
    ensures BackBranch(br, after, head) == BackJp
  {
  }

  lemma IncBValue(v: bv8, f: bv8)
    ensures Inc8(v, f).v == v + 1
  {
    hide XyFrom, ZeroSign;
  }

  lemma CountValue(r: Regs, head: Addr, exit: Addr, b: bv8, bc: Addr)
    requires r.bc == SetHi(bc, b)
    ensures DecNz(BackJp, 1, head, exit, r)
         == r.(bc := Word(b, Lo(bc) - 1), f := Dec8(Lo(bc), r.f).f, q := false, memptr := head, pc := if Lo(bc) == 1
             then exit else head)
  {
    hide Hi, Lo, Word, Dec8;
    WordHalves(b, Lo(bc));
  }

  /** The twelve instructions when no exit is taken. */
  lemma FilterFull(host: Host, code: Code, d: seq<Decoded>, at: seq<Addr>, st: State)
    requires FilterAt(code, d, at) && st.regs.pc == at[0]
    requires !Leaves(3, Masked(d, st), d[2].imm8) && !Leaves(1, Masked(d, st), d[4].imm8)
    ensures var r, b, c, a := st.regs, Hi(st.regs.bc), Lo(st.regs.bc), Masked(d, st);
            FrozenSteps(host, code, st, 12)
            == State(r.(a := a, hl := Wrap(r.hl + 1), de := Wrap(r.de + 1), bc := Word(b + 1, c - 1),
                        f := Dec8(c, Inc8(b, CpF(a, d[4].imm8)).f).f, q := false, memptr := at[0],
                        pc := if c == 1 then at[12] else at[0]),
                     st.mem[r.hl := a], st.count + 12)
  {
    hide Wrap, Rd, ExecAt, FrozenSteps, Inc8, Dec8, Hi, Lo, Word, CpF, Masked, Leaves;
    FilterFirst(host, code, d, at, st);
    var s4 := FrozenSteps(host, code, st, 4);
    assert at[5] == Wrap(at[4] + d[4].bytes) && at[6] == Wrap(at[5] + d[5].bytes);
    CpJpSteps(host, code, d[4], d[5], at[5], at[6], at[12], s4);
    var s6 := FrozenSteps(host, code, s4, 2);
    FilterStore(host, code, d, at, s6);
    var s9 := FrozenSteps(host, code, s6, 3);
    FilterCount(host, code, d, at, s9);
    FrozenAdd(host, code, s6, 3, 3);
    FrozenAdd(host, code, s4, 2, 6);
    FrozenAdd(host, code, st, 4, 8);
  }

  lemma FilterLastF(a: bv8, sen: bv8, b: bv8)
    ensures Dec8(1, Inc8(b, CpF(a, sen)).f).f == CountedDownF(a, sen)
  {
    hide Dec8, Inc8, CpF;
    DecFacts(1, Inc8(b, CpF(a, sen)).f);
    IncKeepsC(b, CpF(a, sen));
    CpCarry(a, sen);
  }

  lemma IncKeepsC(b: bv8, f: bv8)
    ensures Inc8(b, f).f & FLAG_C == f & FLAG_C
  {
  }

  lemma CpCarry(a: bv8, b: bv8)
    ensures CpF(a, b) & FLAG_C == When(a < b, FLAG_C)
  {
  }

  function FilterOf(d: seq<Decoded>): (s: FilterSpec)
    requires |d| == 12
    ensures s.Filter?
  {
    Filter(d[1].imm8, d[2].imm8, d[4].imm8)
  }

  function FilterRunOf(d: seq<Decoded>, st: State): (r: FilterRun)
    requires |d| == 12
    ensures r.executed >= 4
  {
    FilterLoop(FilterOf(d), st.mem, st.regs.hl, st.regs.de, Hi(st.regs.bc), Lo(st.regs.bc))
  }

  function FilterEnd(d: seq<Decoded>, at: seq<Addr>, x: FilterRun, st: State): State
    requires |d| == 12 && |at| == 13
  {
    State(FilterRegs(FilterOf(d), x, at[0], at[12], st.regs).(pc := at[12]), Apply(st.mem, x.writes),
        st.count + x.executed)
  }

  /** Filtered copy, main result: for every memory, overlap, mask, bounds and counter, and for each of the three
      exits, the helper leaves what the interpreter leaves after the number of instructions the helper reports. */
  lemma {:induction false} FilterSteps(host: Host, code: Code, d: seq<Decoded>, at: seq<Addr>, st: State)
    requires FilterAt(code, d, at) && st.regs.pc == at[0]
    ensures var x := FilterRunOf(d, st);
            FrozenSteps(host, code, st, x.executed) == FilterEnd(d, at, x, st)
    decreases Iterations(Lo(st.regs.bc))
  {
    hide FrozenSteps, Lo, Iterations, FilterRunOf, FilterEnd, Leaves, Masked, IsFilterLoop;
    var a := Masked(d, st);
    if Leaves(3, a, d[2].imm8) || Leaves(1, a, d[4].imm8) {
      FilterLeaves(host, code, d, at, st);
    } else {
      if Lo(st.regs.bc) == 1 {
        FilterLast(host, code, d, at, st);
      } else {
        var s := FrozenSteps(host, code, st, 12);
        FilterStays(host, code, d, at, st);
        FewerIterations(Lo(st.regs.bc));
        FilterSteps(host, code, d, at, s);
        FrozenAdd(host, code, st, 12, FilterRunOf(d, s).executed);
      }
    }
  }

  lemma FilterRunLeaves(d: seq<Decoded>, st: State)
    requires |d| == 12
    ensures var a, b, c := Masked(d, st), Hi(st.regs.bc), Lo(st.regs.bc);
            if Leaves(3, a, d[2].imm8)
                then FilterRunOf(d, st) == FilterRun(st.regs.hl, st.regs.de, b, c, a, [], 4, BelowLow)
            else Leaves(1, a, d[4].imm8) ==>
                FilterRunOf(d, st) == FilterRun(st.regs.hl, st.regs.de, b, c, a, [], 6, AtSentinel)
  {
    hide MaskedByte, Below, Hi, Lo;
  }

  lemma FilterRunStays(d: seq<Decoded>, st: State, s: State)
    requires |d| == 12 && !Leaves(3, Masked(d, st), d[2].imm8) && !Leaves(1, Masked(d, st), d[4].imm8)
    requires s.mem == st.mem[st.regs.hl := Masked(d, st)] && s.regs.hl == Wrap(st.regs.hl + 1)
             && s.regs.de == Wrap(st.regs.de + 1)
    requires Hi(s.regs.bc) == Hi(st.regs.bc) + 1 && Lo(s.regs.bc) == Lo(st.regs.bc) - 1
    ensures var w := [Store(st.regs.hl, Masked(d, st))];
            FilterRunOf(d, st)
            == if Lo(st.regs.bc) == 1
                then FilterRun(s.regs.hl, s.regs.de, Hi(s.regs.bc), 0, Masked(d, st), w, 12, CountedDown)
               else FilterRunOf(d, s).(writes := w + FilterRunOf(d, s).writes,
                   executed := FilterRunOf(d, s).executed + 12)
  {
    hide MaskedByte, Below, Hi, Lo, Wrap;
  }

  /** The exits through JP C and JP Z. */
  lemma FilterLeaves(host: Host, code: Code, d: seq<Decoded>, at: seq<Addr>, st: State)
    requires FilterAt(code, d, at) && st.regs.pc == at[0]
    requires Leaves(3, Masked(d, st), d[2].imm8) || Leaves(1, Masked(d, st), d[4].imm8)
    ensures FrozenSteps(host, code, st, FilterRunOf(d, st).executed) == FilterEnd(d, at, FilterRunOf(d, st), st)
  {
    hide Wrap, Rd, ExecAt, FrozenSteps, Hi, Lo, Word, FilterF, FilterRunOf, Leaves, Masked, CpF;
    var a := Masked(d, st);
    FilterRunLeaves(d, st);
    NoStores(st.mem);
    HalvesWord(st.regs.bc);
    FilterFirst(host, code, d, at, st);
    CpFilterF(FilterOf(d), a);
    if !Leaves(3, a, d[2].imm8) {
      var s4 := FrozenSteps(host, code, st, 4);
      assert at[5] == Wrap(at[4] + d[4].bytes) && at[6] == Wrap(at[5] + d[5].bytes);
      CpJpSteps(host, code, d[4], d[5], at[5], at[6], at[12], s4);
      FrozenAdd(host, code, st, 4, 2);
    }
  }

  /** The last full turn. */
  lemma FilterLast(host: Host, code: Code, d: seq<Decoded>, at: seq<Addr>, st: State)
    requires FilterAt(code, d, at) && st.regs.pc == at[0] && Lo(st.regs.bc) == 1
    requires !Leaves(3, Masked(d, st), d[2].imm8) && !Leaves(1, Masked(d, st), d[4].imm8)
    ensures FilterRunOf(d, st).executed == 12
    ensures FrozenSteps(host, code, st, 12) == FilterEnd(d, at, FilterRunOf(d, st), st)
  {
    hide Wrap, ExecAt, FrozenSteps, Inc8, Dec8, Hi, Lo, Word, CpF, FilterF, CountedDownF, Apply, Leaves, Masked,
         IsFilterLoop, FilterRunOf;
    var a, b, c := Masked(d, st), Hi(st.regs.bc), Lo(st.regs.bc);
    FilterFull(host, code, d, at, st);
    WordHalves(b + 1, c - 1);
    FilterRunStays(d, st, FrozenSteps(host, code, st, 12));
    OneStore(st.mem, st.regs.hl, a);
    FilterLastF(a, d[4].imm8, b);
    CpFilterF(FilterOf(d), a);
    Zero();
  }

  lemma FilterEndNext(d: seq<Decoded>, at: seq<Addr>, x: FilterRun, w: Store, st: State, s: State)
    requires |d| == 12 && |at| == 13 && s.mem == st.mem[w.addr := w.val] && s.count == st.count + 12
    requires s.regs == st.regs.(a := s.regs.a, hl := s.regs.hl, de := s.regs.de, bc := s.regs.bc, f := s.regs.f,
                                q := s.regs.q, memptr := s.regs.memptr, pc := s.regs.pc)
    ensures FilterEnd(d, at, x, s) == FilterEnd(d, at, x.(writes := [w] + x.writes, executed := x.executed + 12), st)
  {
    hide FilterF, Word;
    OneStore(st.mem, w.addr, w.val);
    ApplyAppend(st.mem, [w], x.writes);
  }

  /** A full turn that leaves the rest of the loop to do. */
  lemma FilterStays(host: Host, code: Code, d: seq<Decoded>, at: seq<Addr>, st: State)
    requires FilterAt(code, d, at) && st.regs.pc == at[0] && Lo(st.regs.bc) != 1
    requires !Leaves(3, Masked(d, st), d[2].imm8) && !Leaves(1, Masked(d, st), d[4].imm8)
    ensures var s := FrozenSteps(host, code, st, 12);
            && s.regs.pc == at[0] && Lo(s.regs.bc) == Lo(st.regs.bc) - 1
            && FilterRunOf(d, st).executed == 12 + FilterRunOf(d, s).executed
            && FilterEnd(d, at, FilterRunOf(d, s), s) == FilterEnd(d, at, FilterRunOf(d, st), st)
  {
    hide Wrap, ExecAt, FrozenSteps, Inc8, Dec8, Hi, Lo, Word, CpF, FilterEnd, Leaves, Masked, IsFilterLoop, FilterRunOf;
    FilterFull(host, code, d, at, st);
    var s := FrozenSteps(host, code, st, 12);
    WordHalves(Hi(st.regs.bc) + 1, Lo(st.regs.bc) - 1);
    FilterRunStays(d, st, s);
    FilterEndNext(d, at, FilterRunOf(d, s), Store(st.regs.hl, Masked(d, st)), st, s);
  }

  lemma Zero()
    ensures (1 as bv8) - 1 == 0
  {
  }

  lemma CpFilterF(spec: FilterSpec, a: bv8)
    requires spec.Filter?
    ensures FilterF(spec, BelowLow, a) == CpF(a, spec.lo) && FilterF(spec, AtSentinel, a) == CpF(a, spec.sen)
    ensures FilterF(spec, CountedDown, a) == CountedDownF(a, spec.sen)
  {
    hide SubFlags, CountedDownF;
  }

  lemma NoStores(m: Memory)
    ensures Apply(m, []) == m
  {
  }

  lemma FilterUnfold(spec: FilterSpec, m: Memory, hl: Addr, de: Addr, b: bv8, c: bv8)
    requires spec.Filter?
    ensures var a := MaskedByte(m, de, spec.mask);
            FilterLoop(spec, m, hl, de, b, c)
            == if Below(a, spec.lo) then FilterRun(hl, de, b, c, a, [], 4, BelowLow)
               else if a == spec.sen then FilterRun(hl, de, b, c, a, [], 6, AtSentinel)
               else if c == 1 then FilterRun(Wrap(hl + 1), Wrap(de + 1), b + 1, 0, a, [Store(hl, a)], 12, CountedDown)
               else var rest := FilterLoop(spec, m[hl := a], Wrap(hl + 1), Wrap(de + 1), b + 1, c - 1);
                    rest.(writes := [Store(hl, a)] + rest.writes, executed := rest.executed + 12)
  {
    hide Wrap, MaskedByte, Below;
  }

  /** The helper reads at most 256 bytes: it executes at most 12 instructions per byte. */
  lemma {:induction false} FilterBound(spec: FilterSpec, m: Memory, hl: Addr, de: Addr, b: bv8, c: bv8)
    requires spec.Filter?
    ensures FilterLoop(spec, m, hl, de, b, c).executed <= 12 * Iterations(c)
    ensures |FilterLoop(spec, m, hl, de, b, c).writes| <= Iterations(c)
    decreases Iterations(c)
  {
    hide Wrap, MaskedByte, Below, Iterations, FilterLoop;
    FilterUnfold(spec, m, hl, de, b, c);
    var a := MaskedByte(m, de, spec.mask);
    if !Below(a, spec.lo) && a != spec.sen && c != 1 {
      FewerIterations(c);
      FilterBound(spec, m[hl := a], Wrap(hl + 1), Wrap(de + 1), b + 1, c - 1);
    }
  }
}
