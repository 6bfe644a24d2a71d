/** What programs rely on, from instruction bytes to the machine's next state. */
module InstructionLaws {
  import opened Bits
  import opened Interp
  import opened Reference
  import opened ReferenceProof

  // ---- relative jumps and displacements ----

  /** The byte an assembler writes for a displacement. */
  function DisplacementByte(k: int): bv8 { (k % 256) as bv8 }

  lemma DisplacementBack(k: int)
    requires -128 <= k <= 127
    ensures Offset(DisplacementByte(k)) == k
  {
    ByteOf(k % 256);
  }

  /** JR to any address within -128 and 127 of the next instruction gets there. */
  lemma JumpsRelative(host: Host, st: State, k: int)
    requires -128 <= k <= 127
    requires At(st.mem, st.regs.pc) == 0x18 && At(st.mem, Up(st.regs.pc, 1)) == DisplacementByte(k)
    ensures Step(host, st).regs.pc == (st.regs.pc + 2 + k) % 0x1_0000 && Step(host, st).mem == st.mem
  {
    hide Interp.Step, At, Offset, DisplacementByte, Reference.Holds;
    DisplacementBack(k);
    StepIsReference(host, st);
    UpTwice(st.regs.pc, 2, k);
  }

  lemma UpTwice(a: Addr, j: int, k: int)
    ensures Up(Up(a, j), k) == (a + j + k) % 0x1_0000
  {
    WrapAdd(a, j, k);
  }

  /** JR cc does when its condition holds, and goes on with the next instruction when not. */
  lemma JumpsRelativeIf(host: Host, st: State, cc: bv8, k: int)
    requires -128 <= k <= 127 && cc <= 3
    requires At(st.mem, st.regs.pc) == 0x20 | (cc << 3) && At(st.mem, Up(st.regs.pc, 1)) == DisplacementByte(k)
    ensures Step(host, st).regs.pc
         == if Reference.Holds(cc, st.regs.f) then (st.regs.pc + 2 + k) % 0x1_0000 else (st.regs.pc + 2) % 0x1_0000
  {
    hide Interp.Step, At, Offset, DisplacementByte, Reference.Holds;
    var op: bv8 := 0x20 | (cc << 3);
    RelativeField(cc, op);
    DisplacementBack(k);
    StepIsReference(host, st);
    UpTwice(st.regs.pc, 2, k);
  }

  lemma RelativeField(cc: bv8, op: bv8)
    requires cc <= 3 && op == 0x20 | (cc << 3)
    ensures op < 0x40 && op & 7 == 0 && (op >> 3) & 7 == cc + 4 && op != 0x08 && cc + 4 >= 4 && (cc + 4) - 4 == cc
  {
  }

  /** DJNZ counts B down and jumps until it is 0. */
  lemma CountsDown(host: Host, st: State, k: int)
    requires -128 <= k <= 127
    requires At(st.mem, st.regs.pc) == 0x10 && At(st.mem, Up(st.regs.pc, 1)) == DisplacementByte(k)
    ensures var t, b := Step(host, st), Upper(st.regs.bc) - 1;
            && t.regs.bc == Join(b, Lower(st.regs.bc))
            && t.regs.pc == if b != 0 then (st.regs.pc + 2 + k) % 0x1_0000 else (st.regs.pc + 2) % 0x1_0000
  {
    hide Interp.Step, At, Offset, DisplacementByte, Reference.Holds, Upper, Lower, Join;
    DisplacementBack(k);
    StepIsReference(host, st);
    UpTwice(st.regs.pc, 2, k);
  }

  /** LD A,(IX+k) loads from IX plus k, for every displacement, and so for IY. */
  lemma LoadsIndexed(host: Host, st: State, iy: bool, k: int)
    requires -128 <= k <= 127
    requires At(st.mem, st.regs.pc) == (if iy then 0xFD else 0xDD) && At(st.mem, Up(st.regs.pc, 1)) == 0x7E
    requires At(st.mem, Up(Up(st.regs.pc, 1), 1)) == DisplacementByte(k)
    ensures var base := if iy then st.regs.iy else st.regs.ix;
            Step(host, st).regs.a == At(st.mem, (base + k) % 0x1_0000)
  {
    hide Interp.Step, At, Offset, DisplacementByte, Reference.Holds, Upper, Lower, Join;
    DisplacementBack(k);
    var x := if iy then UseIy else UseIx;
    var at := Up(st.regs.pc, 1);
    assert !HostAt(st.mem, at, x, 3);
    assert Instruction(st, at, x, 3) == Main(st, at, x);
    StepIsReference(host, st);
  }

  // ---- registers and bits ----

  /** Writing register i is seen by reading i and by no other register. */
  lemma RegisterFile(r: Regs, x: Index, i: bv8, j: bv8, v: bv8)
    requires i <= 7 && j <= 7 && i != 6 && j != 6
    ensures Reg(WithReg(r, x, i, v), x, j) == if i == j then v else Reg(r, x, j)
  {
    hide Upper, Lower, Join;
    HalvesOf(v, r.bc);
    HalvesOf(v, r.de);
    HalvesOf(v, Base(r, x));
  }

  lemma HalvesOf(v: bv8, w: Addr)
    ensures Upper(Join(v, Lower(w))) == v && Lower(Join(v, Lower(w))) == Lower(w)
    ensures Upper(Join(Upper(w), v)) == Upper(w) && Lower(Join(Upper(w), v)) == v
  {
    hide Upper, Lower, Join, Hi, Lo, Word;
    Words();
    WordHalves(v, Lo(w));
    WordHalves(Hi(w), v);
  }

  /** RES clears bit n and no other, SET sets it and no other. */
  lemma OneBit(n: bv8, k: bv8, v: bv8)
    requires n <= 7 && k <= 7
    ensures Reference.Bit(Cleared(n, v), k) <==> k != n && Reference.Bit(v, k)
    ensures Reference.Bit(Raised(n, v), k) <==> k == n || Reference.Bit(v, k)
  {
  }

  /** A word stored is the word loaded. */
  lemma WordBack(m: Memory, a: Addr, w: Addr)
    ensures At2(Put2(m, a, w), a) == w
  {
    HalvesWord(w);
    assert Up(a, 1) != a;
  }

  // ---- block copies ----

  /** Address of the i-th byte of a run that goes up or down from `a`. */
  function Nth(a: Addr, i: int, dir: int): Addr { Up(a, dir * i) }

  lemma NthNext(a: Addr, i: int, dir: int)
    requires dir == 1 || dir == -1
    ensures Nth(Up(a, dir), i, dir) == Nth(a, i + 1, dir) && Nth(a, 0, dir) == a
  {
    UpTwice(a, dir, dir * i);
  }

  lemma NthDiffer(a: Addr, i: int, dir: int)
    requires (dir == 1 || dir == -1) && 0 < i < 0x1_0000
    ensures Nth(a, i, dir) != a
  {
  }

  /** No byte is written before it is read. */
  ghost predicate ReadsFirst(src: Addr, dst: Addr, n: nat, dir: int) {
    forall i, j :: 0 <= i < j < n ==> Nth(dst, i, dir) != Nth(src, j, dir)
  }

  /** Bytes outside the destination stay. */
  lemma {:induction false} CopyFrame(m: Memory, src: Addr, dst: Addr, n: nat, dir: int, a: Addr)
    requires (dir == 1 || dir == -1) && forall i :: 0 <= i < n ==> Nth(dst, i, dir) != a
    ensures At(CopiedFrom(m, src, dst, n, dir), a) == At(m, a)
    decreases n
  {
    hide Nth, Up;
    if n > 0 {
      NthNext(dst, 0, dir);
      assert Nth(dst, 0, dir) != a;
      forall i | 0 <= i < n - 1 ensures Nth(Up(dst, dir), i, dir) != a {
        NthNext(dst, i, dir);
      }
      CopyFrame(m[dst := At(m, src)], Up(src, dir), Up(dst, dir), n - 1, dir, a);
    }
  }

  lemma {:induction false} CopyMoves(m: Memory, src: Addr, dst: Addr, n: nat, dir: int, i: nat)
    requires (dir == 1 || dir == -1) && n < 0x1_0000 && i < n && ReadsFirst(src, dst, n, dir)
    ensures At(CopiedFrom(m, src, dst, n, dir), Nth(dst, i, dir)) == At(m, Nth(src, i, dir))
    decreases n
  {
    hide Nth, Up;
    NthNext(dst, 0, dir);
    NthNext(src, 0, dir);
    var m1, src1, dst1 := m[dst := At(m, src)], Up(src, dir), Up(dst, dir);
    if i == 0 {
      forall j | 0 <= j < n - 1 ensures Nth(dst1, j, dir) != dst {
        NthNext(dst, j, dir);
        NthDiffer(dst, j + 1, dir);
      }
      CopyFrame(m1, src1, dst1, n - 1, dir, dst);
    } else {
      forall a, b | 0 <= a < b < n - 1 ensures Nth(dst1, a, dir) != Nth(src1, b, dir) {
        NthNext(dst, a, dir);
        NthNext(src, b, dir);
        assert Nth(dst, a + 1, dir) != Nth(src, b + 1, dir);
      }
      CopyMoves(m1, src1, dst1, n - 1, dir, i - 1);
      NthNext(dst, i - 1, dir);
      NthNext(src, i - 1, dir);
      assert Nth(dst, 0, dir) != Nth(src, i, dir);
    }
  }

  /** LDIR and LDDR: as long as no byte is written before it is read, each byte arrives, every other byte stays, and the
      pointers end past what was copied. */
  lemma BlockMoves(host: Host, st: State, up: bool, dir: int)
    requires At(st.mem, st.regs.pc) == 0xED && At(st.mem, Up(st.regs.pc, 1)) == (if up then 0xB0 else 0xB8)
    requires dir == (if up then 1 else -1) && ReadsFirst(st.regs.hl, st.regs.de, st.regs.bc, dir)
    ensures var t, n := Step(host, st), st.regs.bc;
            && (forall i :: 0 <= i < n ==> At(t.mem, Nth(st.regs.de, i, dir)) == At(st.mem, Nth(st.regs.hl, i, dir)))
            && (forall a: Addr :: (forall i :: 0 <= i < n ==> Nth(st.regs.de, i, dir) != a) ==>
               At(t.mem, a) == At(st.mem, a))
            && t.regs.bc == 0 && t.regs.hl == Nth(st.regs.hl, n, dir) && t.regs.de == Nth(st.regs.de, n, dir)
            && t.regs.pc == (st.regs.pc + 2) % 0x1_0000
  {
    hide Interp.Step, At, CopiedFrom, LastCopied, CopyFlags, ReadsFirst;
    StepIsReference(host, st);
    var t, n := Step(host, st), st.regs.bc;
    assert t == Copies(st, st.regs.pc, dir);
    hide Up;
    forall i | 0 <= i < n ensures At(t.mem, Nth(st.regs.de, i, dir)) == At(st.mem, Nth(st.regs.hl, i, dir)) {
      CopyMoves(st.mem, st.regs.hl, st.regs.de, n, dir, i);
    }
    forall a: Addr | forall i :: 0 <= i < n ==> Nth(st.regs.de, i, dir) != a ensures At(t.mem, a) == At(st.mem, a) {
      CopyFrame(st.mem, st.regs.hl, st.regs.de, n, dir, a);
    }
  }
}
