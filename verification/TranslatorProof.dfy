/** Translated blocks do what the interpreter does, at every exit. */
module TranslatorProof {
  import opened Bits
  import opened Decoder
  import opened Interp
  import opened Emitter
  import opened FlagsProof
  import opened EmitterProof
  import opened Folds
  import opened FoldsProof
  import opened Trails
  import opened Translator

  // ---- events and stores ----

  lemma {:induction false} StoresAppend(a: seq<Event>, b: seq<Event>)
    ensures StoresOf(a + b) == StoresOf(a) + StoresOf(b)
    decreases |a|
  {
    if a == [] {
      assert a + b == b;
    } else {
      assert (a + b)[0] == a[0] && (a + b)[1..] == a[1..] + b;
      StoresAppend(a[1..], b);
    }
  }

  lemma {:induction false} EachStored(ws: seq<Store>, evs: seq<Event>)
    requires |evs| == |ws| && forall i :: 0 <= i < |ws| ==> EventStores(evs[i]) == [ws[i]]
    ensures StoresOf(evs) == ws
    decreases |ws|
  {
    if ws != [] {
      EachStored(ws[1..], evs[1..]);
      assert ws == [ws[0]] + ws[1..];
    }
  }

  lemma PushedStores(ws: seq<Store>)
    ensures StoresOf(AllPushed(ws)) == ws && StoresOf(AllChecked(ws)) == ws
  {
    EachStored(ws, AllPushed(ws));
    EachStored(ws, AllChecked(ws));
  }

  lemma BulkStores(ws: seq<Store>, lo: Addr, len: nat)
    ensures StoresOf([Bulk(ws, lo, len)]) == ws
  {
    assert [Bulk(ws, lo, len)][1..] == [];
    assert StoresOf([]) == [];
  }

  lemma EventsStore(d: Decoded, e: Regs, ws: seq<Store>)
    ensures StoresOf(EventsOf(d, e, ws)) == ws
  {
    hide StoresOf, AllPushed, AllChecked, BlockLow;
    PushedStores(ws);
    if d.ty == Flag(Ldir) || d.ty == Flag(Lddr) {
      BulkStores(ws, BlockLow(d.ty.flag, e.de, e.bc), e.bc);
    }
  }

  // ---- where an exit stands in the interpreter's run ----

  /** Leaving through `x` is the interpreter's state after `n` more instructions: registers, F, memptr, q, memory
      and count.  The one difference is a RET that pops address 0, which the interpreter does not count.  On the way it
      stays on the addresses `inside`, and memory changes only where the exit's stores go. */
  ghost predicate Reaches(host: Host, code: Code, s: State, x: Exit, n: nat, inside: set<Addr>) {
    var t := FrozenSteps(host, code, s, n);
    t.regs == x.regs && t.mem == Apply(s.mem, StoresOf(x.events))
    && t.count == s.count + n - (if x.edge == Return && x.regs.pc == 0 then 1 else 0)
    && Trail(host, code, s, n, inside, StoresOf(x.events))
  }

  /** The addresses of a block's instructions. */
  ghost function Inside(at: seq<Addr>): set<Addr>
    requires at != []
  {
    var starts := at[..|at| - 1];
    set a | a in starts
  }

  lemma ReachesAfter(host: Host, code: Code, s: State, k: nat, t: State, evs: seq<Event>, x: Exit, n: nat,
                     inside: set<Addr>)
    requires FrozenSteps(host, code, s, k) == t && t.mem == Apply(s.mem, StoresOf(evs)) && t.count == s.count + k
    requires Trail(host, code, s, k, inside, StoresOf(evs)) && Reaches(host, code, t, x, n, inside)
    ensures Reaches(host, code, s, x.(events := evs + x.events), k + n, inside)
  {
    hide FrozenSteps, StoresOf, Apply, Trail;
    FrozenAdd(host, code, s, k, n);
    TrailAdd(host, code, s, k, t, n, inside, StoresOf(evs), StoresOf(x.events));
    StoresAppend(evs, x.events);
    ApplyAppend(s.mem, StoresOf(evs), StoresOf(x.events));
  }

  // ---- conditional branches ----

  lemma HostTestIs(cc: bv8, f: bv8)
    requires cc <= 7
    ensures HostTest(cc, f) <==> CondTrue(cc, f)
  {
  }

  /** A conditional's taken arm is the interpreter's branch; so is the fall-through, on all registers and F,
      and on memptr where the instruction defines it. */
  ghost predicate SideOk(d: Decoded, e1: Regs, mp: bool, x: Exit, taken: bool, r: Regs, o: Out) {
    if taken then x.regs == o.regs && StoresOf(x.events) == o.writes && x.edge != Return
    else SameCore(e1, o.regs) && e1.f == o.regs.f && !o.regs.q && o.regs.pc == r.pc && o.writes == []
         && (mp || EffectOnMemptr(d) != MNone ==> e1.memptr == o.regs.memptr)
  }

  /** The states agree on entry to a conditional; `mp` says whether memptr does. */
  ghost predicate SideReady(d: Decoded, e: Regs, mp: bool, r: Regs) {
    d.ty.Branch? && d.cc <= 7 && SameCore(e, r) && e.f == r.f && !r.q && (mp ==> e.memptr == r.memptr)
  }

  lemma JpSide(d: Decoded, slot: nat, e: Regs, mp: bool, r: Regs, m: Memory)
    requires SideReady(d, e, mp, r) && d.ty == Branch(JpCc)
    ensures var e1 := SideInline(d, e);
            SideOk(d, e1, mp, TakenTail(d, r.pc, slot, e1.(q := false), m), SideTaken(d, e1), r,
                ExecBranch(JpCc, r, m, d))
  {
    hide HostTest, CondTrue, StoresOf, Wrap, Signed;
    HostTestIs(d.cc, e.f);
    NoEvents();
  }

  lemma JrSide(d: Decoded, slot: nat, e: Regs, mp: bool, r: Regs, m: Memory)
    requires SideReady(d, e, mp, r) && d.ty == Branch(JrCc)
    ensures var e1 := SideInline(d, e);
            SideOk(d, e1, mp, TakenTail(d, r.pc, slot, e1.(q := false), m), SideTaken(d, e1), r,
                ExecBranch(JrCc, r, m, d))
  {
    hide HostTest, CondTrue, StoresOf, Wrap, Signed;
    HostTestIs(d.cc, e.f);
    NoEvents();
  }

  lemma DjnzSide(d: Decoded, slot: nat, e: Regs, mp: bool, r: Regs, m: Memory)
    requires SideReady(d, e, mp, r) && d.ty == Branch(Djnz)
    ensures var e1 := SideInline(d, e);
            SideOk(d, e1, mp, TakenTail(d, r.pc, slot, e1.(q := false), m), SideTaken(d, e1), r,
                ExecBranch(Djnz, r, m, d))
  {
    hide StoresOf, Wrap, Signed, Hi, SetHi;
    HiTwice(e.bc, Hi(e.bc) - 1, 0);
    NoEvents();
  }

  lemma CallSide(d: Decoded, slot: nat, e: Regs, mp: bool, r: Regs, m: Memory)
    requires SideReady(d, e, mp, r) && d.ty == Branch(CallCc)
    ensures var e1 := SideInline(d, e);
            SideOk(d, e1, mp, TakenTail(d, r.pc, slot, e1.(q := false), m), SideTaken(d, e1), r,
                ExecBranch(CallCc, r, m, d))
  {
    hide HostTest, CondTrue, StoresOf, AllPushed, Wrap, Signed, Hi, Lo;
    HostTestIs(d.cc, e.f);
    var sp: Addr := Wrap(e.sp - 2);
    PushedStores([Store(sp, Lo(r.pc)), Store(Wrap(sp + 1), Hi(r.pc))]);
  }

  lemma RetSide(d: Decoded, slot: nat, e: Regs, mp: bool, r: Regs, m: Memory)
    requires SideReady(d, e, mp, r) && d.ty == Branch(RetCc)
    ensures var e1 := SideInline(d, e);
            SideOk(d, e1, mp, TakenTail(d, r.pc, slot, e1.(q := false), m), SideTaken(d, e1), r,
                ExecBranch(RetCc, r, m, d))
  {
    hide HostTest, CondTrue, StoresOf, Wrap, Signed, Word, Rd;
    HostTestIs(d.cc, e.f);
    NoEvents();
  }

  lemma SideMatches(d: Decoded, slot: nat, e: Regs, mp: bool, r: Regs, m: Memory)
    requires SideReady(d, e, mp, r) && IsCondEnder(d)
    ensures var e1 := SideInline(d, e);
            SideOk(d, e1, mp, TakenTail(d, r.pc, slot, e1.(q := false), m), SideTaken(d, e1), r,
                ExecBranch(d.ty.branch, r, m, d))
  {
    hide SideInline, TakenTail, SideTaken, ExecBranch, SideOk;
    if d.ty == Branch(JpCc) {
      JpSide(d, slot, e, mp, r, m);
    } else if d.ty == Branch(JrCc) {
      JrSide(d, slot, e, mp, r, m);
    } else if d.ty == Branch(Djnz) {
      DjnzSide(d, slot, e, mp, r, m);
    } else if d.ty == Branch(CallCc) {
      CallSide(d, slot, e, mp, r, m);
    } else {
      RetSide(d, slot, e, mp, r, m);
    }
  }

  lemma NoEvents()
    ensures StoresOf([]) == []
  {
  }

  /** The last instruction of a block that ends in a branch. */
  lemma EnderMatches(d: Decoded, slot: nat, e: Regs, r: Regs, m: Memory)
    requires SideReady(d, e, EffectOnMemptr(d) == MNone, r)
    ensures var o := ExecBranch(d.ty.branch, r, m, d);
            var x := EnderTail(d, r.pc, slot, e.(q := false), m);
            x.regs == o.regs && StoresOf(x.events) == o.writes && (x.edge == Return <==> d.ty == Branch(Ret))
  {
    hide Rd, Wrap, Word, Signed, StoresOf, AllPushed, Hi, Lo, SideInline, SideTaken, TakenTail;
    NoEvents();
    if IsCondEnder(d) {
      CondEnderMatches(d, slot, e, r, m);
    } else {
      var sp: Addr := Wrap(e.sp - 2);
      PushedStores([Store(sp, Lo(r.pc)), Store(Wrap(sp + 1), Hi(r.pc))]);
    }
  }

  lemma CondEnderMatches(d: Decoded, slot: nat, e: Regs, r: Regs, m: Memory)
    requires IsCondEnder(d) && SideReady(d, e, EffectOnMemptr(d) == MNone, r)
    ensures var o := ExecBranch(d.ty.branch, r, m, d);
            var x := EnderTail(d, r.pc, slot, e.(q := false), m);
            x.regs == o.regs && StoresOf(x.events) == o.writes && x.edge != Return
  {
    hide ExecBranch, StoresOf, SideInline, SideTaken, TakenTail;
    NoEvents();
    SideMatches(d, slot + 1, e, EffectOnMemptr(d) == MNone, r, m);
    SideFrame(d, e);
  }

  lemma SideFrame(d: Decoded, e: Regs)
    ensures SideInline(d, e.(q := false)) == SideInline(d, e).(q := false)
    ensures SideInline(d, e).q == e.q
    ensures SideTaken(d, SideInline(d, e.(q := false))) == SideTaken(d, SideInline(d, e))
  {
    hide HostTest, Hi, SetHi;
  }

  // ---- folded loops ----

  /** After a fold: all registers and the whole of F agree, memptr where it is live, and q is clear. */
  ghost predicate Folded(x: FoldOut, t: Regs, mlive: bool) {
    SameCore(x.regs, t) && x.regs.f == t.f && !t.q && (mlive ==> x.regs.memptr == t.memptr)
  }

  lemma SpinsAre(v: bv8)
    ensures Spins(v) == Iterations(v) - 1
    ensures Iterations(v) == 1 <==> v == 1
  {
    if v != 0 {
      assert (v - 1) as int == v as int - 1;
    }
  }

  lemma LastDecAgrees(fe: bv8, fs: bv8)
    requires Agree(fe, fs, FLAG_C)
    ensures LastDecF(fe) == LastDecF(fs)
  {
  }

  lemma SetCore(e: Regs, r: Regs, reg: bv8, v: bv8)
    requires CounterCode(reg) && SameCore(e, r)
    ensures SameCore(SetReg8(e, reg, 0, v), SetReg8(r, reg, 0, v))
    ensures GetReg8(e, reg, 0) == GetReg8(r, reg, 0)
    ensures SetReg8(e, reg, 0, v).f == e.f && SetReg8(e, reg, 0, v).memptr == e.memptr
    ensures SetReg8(r, reg, 0, v).f == r.f && SetReg8(r, reg, 0, v).memptr == r.memptr
  {
    hide SetHi, SetLo, Hi, Lo;
  }

  lemma CountdownMatches(back: Back, reg: bv8, head: Addr, exit: Addr, e: Regs, r: Regs, mlive: bool)
    requires CounterCode(reg) && SameCore(e, r) && Agree(e.f, r.f, FLAG_C) && back != NotBack
    requires back == BackJr && mlive ==> e.memptr == r.memptr
    ensures var x := Countdown(FuseDec(back), reg, head, e);
            && Folded(x, CountdownEnd(back, reg, head, exit, r), mlive)
            && x.extra == 2 * (Iterations(GetReg8(r, reg, 0)) - 1) && x.writes == []
  {
    hide GetReg8, SetReg8, LastDecF, Agree, Iterations, Spins;
    SetCore(e, r, reg, 0);
    LastDecAgrees(e.f, r.f);
    SpinsAre(GetReg8(r, reg, 0));
  }

  lemma DjnzFoldMatches(head: Addr, exit: Addr, e: Regs, r: Regs, mlive: bool)
    requires SameCore(e, r) && e.f == r.f && (mlive ==> e.memptr == r.memptr)
    ensures var x := Countdown(FuseDjnz, 0, head, e);
            && Folded(x, DjnzEnd(head, exit, r), mlive)
            && x.extra == Iterations(Hi(r.bc)) - 1 && x.writes == []
  {
    hide SetHi, Hi, Iterations, Spins;
    SpinsAre(Hi(r.bc));
  }

  lemma CopyMatches(counter: bv8, fromDe: bool, back: Back, head: Addr, exit: Addr, e: Regs, r: Regs, m: Memory)
    requires counter <= 1 && SameCore(e, r) && Agree(e.f, r.f, FLAG_C)
    ensures var n := Iterations(GetReg8(r, counter, 0));
            var x := LoopCopy(counter, fromDe, back, head, e, m);
            && x.writes == CopyWrites(fromDe, r, m, n)
            && Folded(x, CopyEnd(counter, fromDe, back, head, exit, r, n, LastByte(x.writes)), true)
            && x.extra == 6 * (n - 1)
  {
    hide LastDecF, Agree, Iterations, HelperStores, BlockStores, LastByte, Wrap, Moved, Word, Lo, GetReg8, SetReg8;
    BcOnly(e, r, counter, 0);
    var n := Iterations(GetReg8(r, counter, 0));
    LastDecAgrees(e.f, r.f);
    var e1 := e.(hl := Wrap(e.hl + n), de := Wrap(e.de + n),
        a := LastByte(LoopCopy(counter, fromDe, back, head, e, m).writes));
    CounterInBc(e1, counter, 0);
    CounterInBc(r, counter, 0);
    BcOnly(e1, r, counter, 0);
    var src: Addr, dst: Addr := if fromDe then r.de else r.hl, if fromDe then r.hl else r.de;
    BlockCopyStores(m, src, dst, 0, n, 1);
    MovedNone(src, 1);
    MovedNone(dst, 1);
    WrapAdd(r.de, n - 1, 1);
  }

  lemma WrapSelf(a: Addr)
    ensures Wrap(a + 0) == a
  {
  }

  lemma FillMatches(counter: bv8, back: Back, head: Addr, exit: Addr, e: Regs, r: Regs, mlive: bool)
    requires counter <= 3 && SameCore(e, r) && Agree(e.f, r.f, FLAG_C)
    requires back != BackJp && mlive ==> e.memptr == r.memptr
    ensures var n := Iterations(GetReg8(r, counter, 0));
            var x := LoopFill(counter, back, head, e);
            && x.writes == FillStores(r.hl, r.a, 0, n)
            && Folded(x, FillEnd(counter, back, head, exit, r, n), mlive)
            && x.extra == 4 * (n - 1)
  {
    hide LastDecF, Agree, Iterations, FillStores, Wrap, Lo, Hi, SetHi, SetLo;
    LastDecAgrees(e.f, r.f);
  }

  lemma FilterMatches(d: seq<Decoded>, at: seq<Addr>, e: Regs, s: State)
    requires |d| == 12 && |at| == 13 && SameCore(e, s.regs)
    ensures var run := FilterRunOf(d, s);
            var x := LoopFilter(FilterOf(d), at[0], at[12], e, s.mem);
            && x.writes == run.writes && x.extra == run.executed - 12
            && Folded(x, FilterEnd(d, at, run, s).regs, true)
  {
    hide FilterLoop, FilterF, Word, Hi, Lo, Apply;
  }

  // ---- one piece of a block at a time ----

  /** What the decode loop guarantees about the instructions of a block. */
  ghost predicate BlockShape(ops: seq<Decoded>) {
    (forall i :: 0 <= i < |ops| ==> CanTranslate(ops[i]) && ops[i].cc <= 7)
    && forall i :: 0 <= i < |ops| - 1 ==> !IsUncondEnder(ops[i])
  }

  /** `k` interpreter steps take `s` to instruction `j` of the block, where `e` stands for the interpreter's
      registers as far as the rest of the block can tell. */
  ghost predicate Advances(host: Host, code: Code, ops: seq<Decoded>, at: seq<Addr>, j: nat, e: Regs, prevQ: PrevQ,
                           s: State, evs: seq<Event>, k: nat)
    requires j <= |ops| && |at| == |ops| + 1
  {
    var t := FrozenSteps(host, code, s, k);
    t.mem == Apply(s.mem, StoresOf(evs)) && t.count == s.count + k && t.regs.pc == at[j]
    && Trail(host, code, s, k, Inside(at), StoresOf(evs))
    && Sim(e, t.regs, LiveAt(ops, j), MemptrLiveAt(ops, j), prevQ)
  }

  /** The block's state stands for the interpreter's at instruction `i`. */
  ghost predicate AtOp(code: Code, ops: seq<Decoded>, at: seq<Addr>, i: nat, e: Regs, prevQ: PrevQ, s: State) {
    Laid(code, ops, at) && BlockShape(ops) && i < |ops| && s.regs.pc == at[i]
    && Sim(e, s.regs, LiveAt(ops, i), MemptrLiveAt(ops, i), prevQ)
  }

  lemma LaidSlice(code: Code, ops: seq<Decoded>, at: seq<Addr>, i: nat, n: nat)
    requires Laid(code, ops, at) && i + n <= |ops|
    ensures Laid(code, ops[i..i + n], at[i..i + n + 1])
    ensures at[i..i + n + 1][0] == at[i] && at[i..i + n + 1][n] == at[i + n]
  {
    hide Wrap;
    var o, a := ops[i..i + n], at[i..i + n + 1];
    forall k | 0 <= k < n
      ensures a[k + 1] == Wrap(a[k] + o[k].bytes) && code(a[k]) == o[k]
    {
      assert a[k] == at[i + k] && a[k + 1] == at[i + k + 1] && o[k] == ops[i + k];
    }
  }

  lemma HeadIs(ops: seq<Decoded>, at: seq<Addr>, i: nat)
    requires Chain(ops, at) && i < |ops|
    ensures Wrap(at[i + 1] - ops[i].bytes) == at[i]
  {
    WrapBack(at[i], ops[i].bytes);
  }

  lemma WrapBack(a: Addr, n: int)
    ensures Wrap(Wrap(a + n) - n) == a
  {
  }

  lemma FullAgrees(f: bv8, g: bv8, live: bv8)
    requires f == g
    ensures Agree(f, g, live)
  {
  }

  lemma FoldedSim(x: FoldOut, t: Regs, live: bv8, mlive: bool)
    requires Folded(x, t, mlive)
    ensures Sim(x.regs, t, live, mlive, Known(false))
  {
    hide Agree;
    FullAgrees(x.regs.f, t.f, live);
  }

  lemma OpQMode(d: Decoded, prevQ: PrevQ, fmask: bv8, mstore: bool, e: Regs, m: Memory)
    requires CanTranslate(d) && !d.ty.Branch?
    ensures EmitOp(d, prevQ, fmask, mstore, e, m).qmode == QModeOf(d)
  {
    hide CanTranslate, EmitLoad, EmitPtr, EmitFlag, EmitStack;
    if d.ty.Load? {
      LoadQMode(d.ty.load, d, e, m);
    } else if d.ty.Ptr? {
      PtrQMode(d.ty.ptr, d, fmask, mstore, e, m);
    } else if d.ty.Flag? {
      FlagQMode(d.ty.flag, d, prevQ, fmask, e, m);
    } else if d.ty.Stack? {
      StackQMode(d.ty.stack, d, e, m);
    }
  }

  lemma LoadQMode(op: LoadOp, d: Decoded, e: Regs, m: Memory)
    ensures EmitLoad(op, d, e, m).qmode == QClear
  {
    hide GetReg8, SetReg8, GetPairP, SetPairP, GetHlLike, IdxAddr, Wrap, Rd;
  }

  lemma PtrQMode(op: PtrOp, d: Decoded, fmask: bv8, mstore: bool, e: Regs, m: Memory)
    ensures EmitPtr(op, d, fmask, mstore, e, m).qmode == if op.AddHlRr? then QSet else QClear
  {
    hide GetHlLike, SetHlLike, GetPair, EmitAddHlW, Wrap, Rd, Word, Hi, Lo, StoreQuirk;
  }

  lemma StackQMode(op: StackOp, d: Decoded, e: Regs, m: Memory)
    ensures EmitStack(op, d, e, m).qmode == QClear
  {
    hide EmitPushValue, SetPair, Wrap, Rd, Word, Hi, Lo;
  }

  lemma FlagQMode(op: FlagOp, d: Decoded, prevQ: PrevQ, fmask: bv8, e: Regs, m: Memory)
    requires d.ty == Flag(op)
    ensures EmitFlag(op, d, prevQ, fmask, e, m).qmode == QModeOf(d)
  {
    hide AluCode, EmitIncDec, EmitCb, EmitAccRotate, EmitScfCcf, DaaStep, DaaEntry, HelperStores, GetReg8, SetReg8,
         IdxAddr, MemAddr, Wrap, Rd, EmitCpl, LastByte, BlockFlags;
    if op.Cb? {
      CbQMode(d, e, m, fmask);
    }
  }

  lemma CbQMode(d: Decoded, e: Regs, m: Memory, fmask: bv8)
    ensures EmitCb(e, m, d, fmask).qmode == if d.imm8 >> 6 >= 2 then QClear else QSet
  {
    hide EmitCbRotate, EmitBit, ResSet, GetReg8, SetReg8, IdxAddr, Rd, Hi;
  }

  lemma InsideAt(at: seq<Addr>, i: nat)
    requires i + 1 < |at|
    ensures at[i] in Inside(at)
  {
  }

  lemma InsideSlice(at: seq<Addr>, i: nat, n: nat)
    requires i + n + 1 <= |at|
    ensures Within(at[i..i + n + 1], Inside(at))
  {
    var a := at[i..i + n + 1];
    forall k | 0 <= k < |a| - 1 ensures a[k] in Inside(at) {
      InsideAt(at, i + k);
    }
  }

  // ---- straight-line instructions ----

  lemma OpAdvances(host: Host, code: Code, ops: seq<Decoded>, at: seq<Addr>, i: nat, e: Regs, prevQ: PrevQ, s: State)
    requires AtOp(code, ops, at, i, e, prevQ, s) && !ops[i].ty.Branch?
    ensures var d := ops[i];
            var o := EmitOp(d, prevQ, LiveAt(ops, i + 1), MemptrStored(d, MemptrLiveAt(ops, i + 1)), e, s.mem);
            && Advances(host, code, ops, at, i + 1, o.regs, PrevQAfter(QModeOf(d)), s, EventsOf(d, e, o.writes), 1)
            && (QModeOf(d) == QKeep ==> o.regs.q)
  {
    hide Wrap, CanTranslate, EmitOp, Exec, LiveBefore, MemptrLiveBefore, MemptrStored, StoresOf, EventsOf, Apply,
         FrozenSteps, QModeOf, Agree, Trail, Inside;
    var d := ops[i];
    var live, mlive := LiveAt(ops, i + 1), MemptrLiveAt(ops, i + 1);
    OpMatches(host, d, prevQ, live, mlive, e, s.regs, s.mem);
    OpQMode(d, prevQ, live, MemptrStored(d, mlive), e, s.mem);
    EventsStore(d, e, EmitOp(d, prevQ, live, MemptrStored(d, mlive), e, s.mem).writes);
    FrozenOne(host, code, s);
    InsideAt(at, i);
    TrailOne(host, code, s, Inside(at), EmitOp(d, prevQ, live, MemptrStored(d, mlive), e, s.mem).writes);
    assert at[i + 1] == Wrap(at[i] + d.bytes);
  }

  // ---- folded loops inside a block ----

  lemma FoldSlice(code: Code, ops: seq<Decoded>, at: seq<Addr>, i: nat, n: nat)
    requires Laid(code, ops, at) && BlockShape(ops) && i + n <= |ops| && n >= 1
    ensures Laid(code, ops[i..i + n], at[i..i + n + 1])
    ensures Wrap(at[i + 1] - ops[i].bytes) == at[i]
    ensures forall k :: i <= k < i + n ==> CanTranslate(ops[k])
  {
    hide Wrap, CanTranslate;
    LaidSlice(code, ops, at, i, n);
    HeadIs(ops, at, i);
  }

  lemma CarryLive(fe: bv8, fs: bv8, d: Decoded, live: bv8)
    requires d.ty == Flag(DecR) && Agree(fe, fs, LiveBefore(d, live))
    ensures Agree(fe, fs, FLAG_C)
  {
  }

  lemma DecReg(d: Decoded)
    requires d.ty == Flag(DecR) && CanTranslate(d) && d.reg1 != 6
    ensures CounterCode(d.reg1)
  {
  }

  lemma MemptrAcross(ops: seq<Decoded>, i: nat, j: nat)
    requires i <= j <= |ops| && forall k :: i <= k < j ==> EffectOnMemptr(ops[k]) == MNone
    ensures MemptrLiveAt(ops, i) == MemptrLiveAt(ops, j)
    decreases j - i
  {
    hide EffectOnMemptr;
    if i < j {
      MemptrAcross(ops, i + 1, j);
    }
  }

  lemma LiveAcross(ops: seq<Decoded>, i: nat, j: nat)
    requires i <= j <= |ops|
    requires forall k :: i <= k < j ==> ops[k].ty.Load? || (ops[k].ty.Ptr? && !ops[k].ty.ptr.AddHlRr?)
    ensures LiveAt(ops, i) == LiveAt(ops, j)
    decreases j - i
  {
    hide LiveBefore;
    if i < j {
      NoFlagEffect(ops[i], LiveAt(ops, i + 1));
      LiveAcross(ops, i + 1, j);
    }
  }

  lemma DecAdvances(host: Host, code: Code, ops: seq<Decoded>, at: seq<Addr>, i: nat, e: Regs, prevQ: PrevQ, s: State)
    requires AtOp(code, ops, at, i, e, prevQ, s) && CountdownKind(ops, at, i).FuseDec?
    ensures i + 2 <= |ops|
    ensures var x := Countdown(CountdownKind(ops, at, i), ops[i].reg1, at[i], e);
            x.extra >= 0 && x.writes == []
                && Advances(host, code, ops, at, i + 2, x.regs, Known(false), s, [], 2 + x.extra)
  {
    hide Wrap, CanTranslate, StoresOf, Apply, FrozenSteps, Agree, LiveBefore, Countdown, CountdownEnd, GetReg8,
         Iterations, Trail, Inside;
    var d, br := ops[i], ops[i + 1];
    var back := CountdownKind(ops, at, i).back;
    FoldSlice(code, ops, at, i, 2);
    assert BackBranch(br, at[i + 2], at[i]) == back && code(at[i + 1]) == br && code(at[i]) == d;
    assert at[i + 1] == Wrap(at[i] + d.bytes) && at[i + 2] == Wrap(at[i + 1] + br.bytes);
    DecReg(d);
    CarryLive(e.f, s.regs.f, d, LiveAt(ops, i + 1));
    var mlive := MemptrLiveAt(ops, i + 2);
    if back == BackJr {
      MemptrAcross(ops, i, i + 2);
    }
    CountdownSteps(host, code, d, br, back, at[i], at[i + 1], at[i + 2], s);
    InsideAt(at, i);
    InsideAt(at, i + 1);
    CountdownTrail(host, code, d, br, back, at[i], at[i + 1], at[i + 2], s, Inside(at));
    CountdownMatches(back, d.reg1, at[i], at[i + 2], e, s.regs, mlive);
    FoldedSim(Countdown(FuseDec(back), d.reg1, at[i], e), CountdownEnd(back, d.reg1, at[i], at[i + 2], s.regs),
        LiveAt(ops, i + 2), mlive);
    NoEvents();
    NoStores(s.mem);
    CountdownPc(back, d.reg1, at[i], at[i + 2], s.regs);
  }

  lemma CountdownPc(back: Back, reg: bv8, head: Addr, exit: Addr, r: Regs)
    ensures CountdownEnd(back, reg, head, exit, r).pc == exit
  {
    hide GetReg8, SetReg8, LastDecF;
  }

  lemma DjnzAdvances(host: Host, code: Code, ops: seq<Decoded>, at: seq<Addr>, i: nat, e: Regs, prevQ: PrevQ, s: State)
    requires AtOp(code, ops, at, i, e, prevQ, s) && CountdownKind(ops, at, i).FuseDjnz?
    ensures var x := Countdown(FuseDjnz, 0, at[i], e);
            x.extra >= 0 && x.writes == []
                && Advances(host, code, ops, at, i + 1, x.regs, Known(false), s, [], 1 + x.extra)
  {
    hide Wrap, CanTranslate, StoresOf, Apply, FrozenSteps, Agree, LiveBefore, Countdown, Iterations, Hi, SetHi, Trail,
         Inside;
    var d := ops[i];
    FoldSlice(code, ops, at, i, 1);
    assert at[i + 1] == Wrap(at[i] + d.bytes) && code(at[i]) == d;
    BranchLive(e.f, s.regs.f, d, LiveAt(ops, i + 1));
    MemptrAcross(ops, i, i + 1);
    var mlive := MemptrLiveAt(ops, i + 1);
    DjnzSteps(host, code, d, at[i], at[i + 1], s);
    InsideAt(at, i);
    DjnzTrail(host, code, d, at[i], at[i + 1], s, Inside(at));
    DjnzFoldMatches(at[i], at[i + 1], e, s.regs, mlive);
    FoldedSim(Countdown(FuseDjnz, 0, at[i], e), DjnzEnd(at[i], at[i + 1], s.regs), LiveAt(ops, i + 1), mlive);
    NoEvents();
    NoStores(s.mem);
  }

  /** Conditionals read all of F. */
  lemma BranchLive(fe: bv8, fs: bv8, d: Decoded, live: bv8)
    requires IsCondEnder(d) && Agree(fe, fs, LiveBefore(d, live))
    ensures fe == fs
  {
  }

  lemma CopyAdvances(host: Host, code: Code, ops: seq<Decoded>, at: seq<Addr>, i: nat, e: Regs, prevQ: PrevQ, s: State)
    requires AtOp(code, ops, at, i, e, prevQ, s) && CopyFillKind(ops, at, i).CopyLoop?
    ensures i + 6 <= |ops|
    ensures var c := CopyFillKind(ops, at, i);
            var x := LoopCopy(c.counter, c.fromDe, c.back, at[i], e, s.mem);
            && x.extra >= 0
            && forall lo,
               len :: Advances(host, code, ops, at, i + 6, x.regs, Known(false), s, [Bulk(x.writes, lo, len)],
               6 + x.extra)
  {
    hide Wrap, CanTranslate, StoresOf, Apply, FrozenSteps, Agree, LiveBefore, LoopCopy, CopyWrites, CopyEnd,
         Iterations, GetReg8, LastByte, BackBranch, Trail, Inside, Within;
    var c := CopyFillKind(ops, at, i);
    FoldSlice(code, ops, at, i, 6);
    var o, a := ops[i..i + 6], at[i..i + 7];
    assert IsCopyBody(o, c.fromDe) && o[4].reg1 == c.counter && c.back == BackBranch(o[5], a[6], a[0]);
    LiveAcross(ops, i, i + 4);
    CarryLive(e.f, s.regs.f, ops[i + 4], LiveAt(ops, i + 5));
    CopySteps(host, code, o, a, c.fromDe, c.back, s);
    InsideSlice(at, i, 6);
    CopyTrail(host, code, o, a, c.fromDe, c.back, s, Inside(at));
    CopyMatches(c.counter, c.fromDe, c.back, at[i], at[i + 6], e, s.regs, s.mem);
    var x := LoopCopy(c.counter, c.fromDe, c.back, at[i], e, s.mem);
    var n := Iterations(GetReg8(s.regs, c.counter, 0));
    FoldedSim(x, CopyEnd(c.counter, c.fromDe, c.back, at[i], at[i + 6], s.regs, n, LastByte(x.writes)),
        LiveAt(ops, i + 6), MemptrLiveAt(ops, i + 6));
    forall lo, len ensures StoresOf([Bulk(x.writes, lo, len)]) == x.writes { BulkStores(x.writes, lo, len); }
    CopyPc(c.counter, c.fromDe, c.back, at[i], at[i + 6], s.regs, n, LastByte(x.writes));
  }

  lemma CopyPc(counter: bv8, fromDe: bool, back: Back, head: Addr, exit: Addr, r: Regs, n: nat, last: bv8)
    ensures CopyEnd(counter, fromDe, back, head, exit, r, n, last).pc == exit
  {
    hide Wrap, SetReg8, LastDecF, Word, Lo;
  }

  lemma FillAdvances(host: Host, code: Code, ops: seq<Decoded>, at: seq<Addr>, i: nat, e: Regs, prevQ: PrevQ, s: State)
    requires AtOp(code, ops, at, i, e, prevQ, s) && CopyFillKind(ops, at, i).FillLoop?
    ensures i + 4 <= |ops|
    ensures var c := CopyFillKind(ops, at, i);
            var x := LoopFill(c.counter, c.back, at[i], e);
            && x.extra >= 0
            && forall lo,
               len :: Advances(host, code, ops, at, i + 4, x.regs, Known(false), s, [Bulk(x.writes, lo, len)],
               4 + x.extra)
  {
    hide Wrap, CanTranslate, StoresOf, Apply, FrozenSteps, Agree, LiveBefore, LoopFill, FillStores, FillEnd,
         Iterations, GetReg8, BackBranch, Trail, Inside, Within;
    var c := CopyFillKind(ops, at, i);
    FoldSlice(code, ops, at, i, 4);
    var o, a := ops[i..i + 4], at[i..i + 5];
    assert IsFillBody(o) && o[2].reg1 == c.counter && c.back == BackBranch(o[3], a[4], a[0]);
    LiveAcross(ops, i, i + 2);
    CarryLive(e.f, s.regs.f, ops[i + 2], LiveAt(ops, i + 3));
    if c.back == BackJr {
      BackIsJr(o[3], a[4], a[0]);
      MemptrAcross(ops, i, i + 4);
    }
    BackKinds(o[3], a[4], a[0]);
    var mlive := MemptrLiveAt(ops, i + 4);
    FillSteps(host, code, o, a, c.back, s);
    InsideSlice(at, i, 4);
    FillTrail(host, code, o, a, c.back, s, Inside(at));
    FillMatches(c.counter, c.back, at[i], at[i + 4], e, s.regs, mlive);
    var x := LoopFill(c.counter, c.back, at[i], e);
    var n := Iterations(GetReg8(s.regs, c.counter, 0));
    FoldedSim(x, FillEnd(c.counter, c.back, at[i], at[i + 4], s.regs, n), LiveAt(ops, i + 4), mlive);
    forall lo, len ensures StoresOf([Bulk(x.writes, lo, len)]) == x.writes { BulkStores(x.writes, lo, len); }
    FillPc(c.counter, c.back, at[i], at[i + 4], s.regs, n);
  }

  lemma BackIsJr(br: Decoded, after: Addr, head: Addr)
    requires BackBranch(br, after, head) == BackJr
    ensures br.ty == Branch(JrCc)
  {
  }

  lemma BackKinds(br: Decoded, after: Addr, head: Addr)
    ensures BackBranch(br, after, head) in {NotBack, BackJp, BackJr}
  {
  }

  lemma FillPc(counter: bv8, back: Back, head: Addr, exit: Addr, r: Regs, n: nat)
    ensures FillEnd(counter, back, head, exit, r, n).pc == exit
  {
    hide Wrap, SetReg8, LastDecF;
  }

  lemma FilterAdvances(host: Host, code: Code, ops: seq<Decoded>, at: seq<Addr>, i: nat, e: Regs, prevQ: PrevQ,
                       s: State)
    requires AtOp(code, ops, at, i, e, prevQ, s) && FilterKind(ops, at, i).Filter?
    ensures i + 12 <= |ops|
    ensures var x := LoopFilter(FilterKind(ops, at, i), at[i], at[i + 12], e, s.mem);
            && 12 + x.extra >= 1
            && forall lo,
               len :: Advances(host, code, ops, at, i + 12, x.regs, Known(false), s, [Bulk(x.writes, lo, len)],
               12 + x.extra)
  {
    hide Wrap, CanTranslate, StoresOf, Apply, FrozenSteps, Agree, LiveBefore, LoopFilter, FilterRunOf, FilterRegs,
         IsFilterLoop, Trail, Inside, Within;
    FoldSlice(code, ops, at, i, 12);
    var d, a := ops[i..i + 12], at[i..i + 13];
    assert FilterAt(code, d, a) && FilterOf(d) == FilterKind(ops, at, i);
    FilterSteps(host, code, d, a, s);
    InsideSlice(at, i, 12);
    FilterTrail(host, code, d, a, s, Inside(at));
    FilterMatches(d, a, e, s);
    var x := LoopFilter(FilterOf(d), a[0], a[12], e, s.mem);
    FoldedMemptr(x, FilterEnd(d, a, FilterRunOf(d, s), s).regs, MemptrLiveAt(ops, i + 12));
    FoldedSim(x, FilterEnd(d, a, FilterRunOf(d, s), s).regs, LiveAt(ops, i + 12), MemptrLiveAt(ops, i + 12));
    forall lo, len ensures StoresOf([Bulk(x.writes, lo, len)]) == x.writes { BulkStores(x.writes, lo, len); }
  }

  lemma FoldedMemptr(x: FoldOut, t: Regs, mlive: bool)
    requires Folded(x, t, true)
    ensures Folded(x, t, mlive)
  {
  }

  // ---- whole blocks ----

  /** What one emitted fold does to the interpreter's run. */
  lemma FoldAdvances(host: Host, code: Code, ops: seq<Decoded>, at: seq<Addr>, i: nat, e: Regs, prevQ: PrevQ,
                     s: State, fmask: bv8, mstore: bool)
    requires AtOp(code, ops, at, i, e, prevQ, s) && IsFold(PieceAt(ops, at, i, prevQ, fmask, mstore).chunk)
    ensures var p := PieceAt(ops, at, i, prevQ, fmask, mstore);
            var x := FoldRun(p.chunk, e, s.mem);
            && p.used + x.extra >= 1 && p.prevQ == Known(false) && p.qmode == QClear && !p.last
            && Advances(host, code, ops, at, i + p.used, x.regs, Known(false), s, FoldEvents(p.chunk, e, x),
               p.used + x.extra)
  {
    hide Advances, AtOp, FilterKind, CopyFillKind, CountdownKind, Wrap, Countdown, LoopCopy, LoopFill, LoopFilter;
    assert i < |ops| && |at| == |ops| + 1
        && Wrap(at[i + 1] - ops[i].bytes) == at[i] by { AtHead(code, ops, at, i, e, prevQ, s); }
    var c := PieceAt(ops, at, i, prevQ, fmask, mstore).chunk;
    if c.CFilter? {
      FilterAdvances(host, code, ops, at, i, e, prevQ, s);
    } else if c.CCopy? {
      CopyAdvances(host, code, ops, at, i, e, prevQ, s);
    } else if c.CFill? {
      FillAdvances(host, code, ops, at, i, e, prevQ, s);
    } else if c.kind == FuseDjnz {
      DjnzAdvances(host, code, ops, at, i, e, prevQ, s);
    } else {
      DecAdvances(host, code, ops, at, i, e, prevQ, s);
    }
  }

  lemma AtHead(code: Code, ops: seq<Decoded>, at: seq<Addr>, i: nat, e: Regs, prevQ: PrevQ, s: State)
    requires AtOp(code, ops, at, i, e, prevQ, s)
    ensures i < |ops| && |at| == |ops| + 1 && Wrap(at[i + 1] - ops[i].bytes) == at[i]
  {
    hide Wrap;
    HeadIs(ops, at, i);
  }

  /** A conditional in mid-block: out through its own exit, or on to the next instruction. */
  lemma SideAdvances(host: Host, code: Code, ops: seq<Decoded>, at: seq<Addr>, i: nat, e: Regs, prevQ: PrevQ,
                     s: State, slot: nat)
    requires AtOp(code, ops, at, i, e, prevQ, s) && IsCondEnder(ops[i])
    ensures var e1 := SideInline(ops[i], e);
            if SideTaken(ops[i], e1)
                then Reaches(host, code, s, TakenTail(ops[i], at[i + 1], slot, e1.(q := false), s.mem), 1, Inside(at))
            else Advances(host, code, ops, at, i + 1, e1, Known(false), s, [], 1)
  {
    hide Wrap, SideInline, SideTaken, TakenTail, ExecBranch, StoresOf, FrozenSteps, Apply, Agree, LiveBefore,
         CanTranslate, EffectOnMemptr, Exec, Trail, Inside;
    var d := ops[i];
    var r := s.regs.(pc := at[i + 1], q := false);
    assert at[i + 1] == Wrap(at[i] + d.bytes);
    BranchLive(e.f, s.regs.f, d, LiveAt(ops, i + 1));
    var mp := MemptrLiveAt(ops, i);
    SideMatches(d, slot, e, mp, r, s.mem);
    FrozenOne(host, code, s);
    var o := ExecBranch(d.ty.branch, r, s.mem, d);
    CondExec(host, d, s, at[i + 1]);
    InsideAt(at, i);
    TrailOne(host, code, s, Inside(at), o.writes);
    NoEvents();
    NoStores(s.mem);
    if !SideTaken(d, SideInline(d, e)) {
      FullAgrees(SideInline(d, e).f, o.regs.f, LiveAt(ops, i + 1));
    }
    CondMemptr(d, MemptrLiveAt(ops, i + 1));
  }

  /** A conditional is always counted. */
  lemma CondExec(host: Host, d: Decoded, s: State, after: Addr)
    requires IsCondEnder(d) && after == Wrap(s.regs.pc + d.bytes)
    ensures var o := ExecBranch(d.ty.branch, s.regs.(pc := after, q := false), s.mem, d);
            ExecAt(host, d, s) == State(o.regs, Apply(s.mem, o.writes), s.count + 1)
  {
    hide Wrap, ExecBranch, Apply;
  }

  lemma CondMemptr(d: Decoded, mlive: bool)
    requires IsCondEnder(d)
    ensures EffectOnMemptr(d) == MNone ==> MemptrLiveBefore(d, mlive) == mlive
  {
  }

  lemma EnderReaches(host: Host, code: Code, ops: seq<Decoded>, at: seq<Addr>, i: nat, e: Regs, prevQ: PrevQ,
                     s: State, slot: nat)
    requires AtOp(code, ops, at, i, e, prevQ, s) && ops[i].ty.Branch? && i == |ops| - 1
    ensures Reaches(host, code, s, EnderTail(ops[i], at[i + 1], slot, e.(q := false), s.mem), 1, Inside(at))
  {
    hide Wrap, EnderTail, ExecBranch, StoresOf, FrozenSteps, Apply, Agree, LiveBefore, CanTranslate, EffectOnMemptr,
         Trail, Inside;
    var d := ops[i];
    var r := s.regs.(pc := at[i + 1], q := false);
    assert at[i + 1] == Wrap(at[i] + d.bytes);
    EnderLive(e.f, s.regs.f, d);
    LiveAtEnd(ops, i);
    EnderMatches(d, slot, e, r, s.mem);
    FrozenOne(host, code, s);
    var o := ExecBranch(d.ty.branch, r, s.mem, d);
    assert Exec(host, d, s.regs, s.mem) == o;
    InsideAt(at, i);
    TrailOne(host, code, s, Inside(at), o.writes);
  }

  lemma LiveAtEnd(ops: seq<Decoded>, i: nat)
    requires i == |ops| - 1 && ops[i].ty.Branch?
    ensures LiveAt(ops, i) == LiveBefore(ops[i], 0xFF)
    ensures EffectOnMemptr(ops[i]) == MNone ==> MemptrLiveAt(ops, i)
  {
    hide LiveBefore, EffectOnMemptr;
    assert LiveAt(ops, i + 1) == 0xFF && MemptrLiveAt(ops, i + 1);
  }

  lemma EnderLive(fe: bv8, fs: bv8, d: Decoded)
    requires d.ty.Branch?
    ensures Agree(fe, fs, LiveBefore(d, 0xFF)) ==> fe == fs
  {
  }

  lemma {:induction false} RunUnfold(c: Chunk, rest: seq<Chunk>, e: Regs, m: Memory, count: int)
    ensures Run([c] + rest, e, m, count)
         == (if c.COp? then
               var o := EmitOp(c.d, c.prevQ, c.fmask, c.mstore, e, m);
               var x := Run(rest, o.regs, Apply(m, o.writes), count);
               x.(events := EventsOf(c.d, e, o.writes) + x.events)
             else if c.CSide? then
               var e1 := SideInline(c.d, e);
               if SideTaken(c.d, e1) then TakenTail(c.d, c.after, c.slot, e1.(q := false), m).(count := count + c.insns)
               else Run(rest, e1, m, count)
             else if c.CEnder? then EnderTail(c.d, c.after, c.slot, e.(q := false), m).(count := count + c.insns)
             else if c.CTail? then Exit(TailQ(e, c.qmode).(pc := c.pc), [], count + c.insns, Direct(c.slot))
             else
               var x := FoldRun(c, e, m);
               var y := Run(rest, x.regs, Apply(m, x.writes), count + x.extra);
               y.(events := FoldEvents(c, e, x) + y.events))
  {
    hide EmitOp, Apply, EventsOf, SideInline, SideTaken, TakenTail, EnderTail, TailQ, FoldRun, FoldEvents;
    assert ([c] + rest)[1..] == rest;
  }

  lemma FoldEventsStore(c: Chunk, e: Regs, m: Memory)
    requires IsFold(c)
    ensures StoresOf(FoldEvents(c, e, FoldRun(c, e, m))) == FoldRun(c, e, m).writes
  {
    hide StoresOf, LoopCopy, LoopFill, LoopFilter, GetReg8, SetReg8, Spins, LastDecF;
    var x := FoldRun(c, e, m);
    NoEvents();
    if !c.CCountdown? {
      BulkStores(x.writes, if c.CCopy? && !c.fromDe then e.de else e.hl, |x.writes|);
    }
  }

  /** What the rest of the block does, and so what the block does from here. */
  ghost predicate Sound(host: Host, code: Code, ops: seq<Decoded>, at: seq<Addr>, i: nat, prevQ: PrevQ, qmode: QMode,
                        e: Regs, s: State, count: int)
    requires i <= |ops| && |at| == |ops| + 1
  {
    var x := Run(EmitFrom(ops, at, i, prevQ, qmode), e, s.mem, count);
    x.count - count >= (if i < |ops| then i + 1 else i) && Reaches(host, code, s, x, x.count - count - i, Inside(at))
  }

  lemma TailSound(host: Host, code: Code, ops: seq<Decoded>, at: seq<Addr>, prevQ: PrevQ, qmode: QMode, e: Regs,
                  s: State, count: int)
    requires |at| == |ops| + 1 && s.regs.pc == at[|ops|] && Sim(e, s.regs, 0xFF, true, prevQ)
    requires prevQ == PrevQAfter(qmode) && (qmode == QKeep ==> e.q)
    ensures Sound(host, code, ops, at, |ops|, prevQ, qmode, e, s, count)
  {
    hide Agree, StoresOf, Trail, Inside;
    AgreeAll(e.f, s.regs.f);
    var c := CTail(at[|ops|], |ops|, qmode, 2 * |ops|);
    RunUnfold(c, [], e, s.mem, count);
    assert [c] + [] == [c];
    NoEvents();
    NoStores(s.mem);
    TrailNone(host, code, s, Inside(at), []);
  }

  lemma FoldSound(host: Host, code: Code, ops: seq<Decoded>, at: seq<Addr>, i: nat, prevQ: PrevQ, qmode: QMode,
                  e: Regs, s: State, count: int, p: Piece)
    requires i < |ops| && |at| == |ops| + 1 && AtOp(code, ops, at, i, e, prevQ, s)
    requires p == PieceAt(ops, at, i, prevQ, LiveAt(ops, i + 1), MemptrStored(ops[i], MemptrLiveAt(ops, i + 1)))
             && IsFold(p.chunk)
    requires var x := FoldRun(p.chunk, e, s.mem);
             p.used + x.extra >= 0
                 && Sound(host, code, ops, at, i + p.used, Known(false), QClear, x.regs,
                 FrozenSteps(host, code, s, p.used + x.extra), count + x.extra)
    ensures Sound(host, code, ops, at, i, prevQ, qmode, e, s, count)
  {
    hide AtOp, PieceAt, FoldRun, FoldEvents, FrozenSteps, Apply, StoresOf, Reaches, Run, LiveAt, MemptrLiveAt, Sim,
         Trail, Inside;
    FoldAdvances(host, code, ops, at, i, e, prevQ, s, LiveAt(ops, i + 1),
        MemptrStored(ops[i], MemptrLiveAt(ops, i + 1)));
    var x := FoldRun(p.chunk, e, s.mem);
    var rest := EmitFrom(ops, at, i + p.used, Known(false), QClear);
    var t := FrozenSteps(host, code, s, p.used + x.extra);
    RunUnfold(p.chunk, rest, e, s.mem, count);
    FoldEventsStore(p.chunk, e, s.mem);
    var y := Run(rest, x.regs, t.mem, count + x.extra);
    ReachesAfter(host, code, s, p.used + x.extra, t, FoldEvents(p.chunk, e, x), y,
        y.count - count - x.extra - i - p.used, Inside(at));
  }

  lemma OpSound(host: Host, code: Code, ops: seq<Decoded>, at: seq<Addr>, i: nat, prevQ: PrevQ, qmode: QMode, e: Regs,
                s: State, count: int, p: Piece)
    requires i < |ops| && |at| == |ops| + 1 && AtOp(code, ops, at, i, e, prevQ, s)
    requires p == PieceAt(ops, at, i, prevQ, LiveAt(ops, i + 1), MemptrStored(ops[i], MemptrLiveAt(ops, i + 1)))
             && p.chunk.COp?
    requires var d := ops[i];
             var o := EmitOp(d, prevQ, LiveAt(ops, i + 1), MemptrStored(d, MemptrLiveAt(ops, i + 1)), e, s.mem);
             Sound(host, code, ops, at, i + 1, PrevQAfter(QModeOf(d)), QModeOf(d), o.regs,
                 FrozenSteps(host, code, s, 1), count)
    ensures Sound(host, code, ops, at, i, prevQ, qmode, e, s, count)
  {
    hide AtOp, EmitOp, EventsOf, FrozenSteps, Apply, StoresOf, Reaches, Run, LiveAt, MemptrLiveAt, Sim, QModeOf,
         FilterKind, CopyFillKind, CountdownKind, Wrap, Trail, Inside;
    var d := ops[i];
    OpAdvances(host, code, ops, at, i, e, prevQ, s);
    var o := EmitOp(d, prevQ, LiveAt(ops, i + 1), MemptrStored(d, MemptrLiveAt(ops, i + 1)), e, s.mem);
    var rest := EmitFrom(ops, at, i + 1, p.prevQ, p.qmode);
    var t := FrozenSteps(host, code, s, 1);
    RunUnfold(p.chunk, rest, e, s.mem, count);
    EventsStore(d, e, o.writes);
    var y := Run(rest, o.regs, t.mem, count);
    ReachesAfter(host, code, s, 1, t, EventsOf(d, e, o.writes), y, y.count - count - i - 1, Inside(at));
  }

  lemma SideSound(host: Host, code: Code, ops: seq<Decoded>, at: seq<Addr>, i: nat, prevQ: PrevQ, qmode: QMode,
                  e: Regs, s: State, count: int, p: Piece)
    requires i < |ops| && |at| == |ops| + 1 && AtOp(code, ops, at, i, e, prevQ, s)
    requires p == PieceAt(ops, at, i, prevQ, LiveAt(ops, i + 1), MemptrStored(ops[i], MemptrLiveAt(ops, i + 1)))
             && p.chunk.CSide?
    requires var e1 := SideInline(ops[i], e);
             !SideTaken(ops[i], e1) ==>
                 Sound(host, code, ops, at, i + 1, Known(false), QClear, e1, FrozenSteps(host, code, s, 1), count)
    ensures Sound(host, code, ops, at, i, prevQ, qmode, e, s, count)
  {
    hide AtOp, FrozenSteps, Apply, StoresOf, Run, LiveAt, MemptrLiveAt, MemptrStored, Sim, PieceAt, Wrap, SideInline,
         SideTaken, TakenTail, Trail, Inside;
    PieceKind(ops, at, i, prevQ, LiveAt(ops, i + 1), MemptrStored(ops[i], MemptrLiveAt(ops, i + 1)));
    SideAdvances(host, code, ops, at, i, e, prevQ, s, 3 * i + 1);
    var e1 := SideInline(ops[i], e);
    var rest := EmitFrom(ops, at, i + 1, Known(false), QClear);
    RunUnfold(p.chunk, rest, e, s.mem, count);
    if !SideTaken(ops[i], e1) {
      var t := FrozenSteps(host, code, s, 1);
      NoEvents();
      NoStores(s.mem);
      var y := Run(rest, e1, t.mem, count);
      ReachesAfter(host, code, s, 1, t, [], y, y.count - count - i - 1, Inside(at));
      assert [] + y.events == y.events;
    }
  }

  lemma EnderLast(code: Code, ops: seq<Decoded>, at: seq<Addr>, i: nat, e: Regs, prevQ: PrevQ, s: State)
    requires AtOp(code, ops, at, i, e, prevQ, s)
    ensures IsUncondEnder(ops[i]) ==> i == |ops| - 1
  {
    hide Laid, Sim, CanTranslate;
  }

  lemma EnderSound(host: Host, code: Code, ops: seq<Decoded>, at: seq<Addr>, i: nat, prevQ: PrevQ, qmode: QMode,
                   e: Regs, s: State, count: int, p: Piece)
    requires i < |ops| && |at| == |ops| + 1 && AtOp(code, ops, at, i, e, prevQ, s)
    requires p == PieceAt(ops, at, i, prevQ, LiveAt(ops, i + 1), MemptrStored(ops[i], MemptrLiveAt(ops, i + 1)))
             && p.chunk.CEnder?
    ensures Sound(host, code, ops, at, i, prevQ, qmode, e, s, count)
  {
    hide AtOp, FrozenSteps, Apply, StoresOf, Run, LiveAt, MemptrLiveAt, Sim, FilterKind, CopyFillKind, CountdownKind,
         Wrap, EnderTail, Trail, Inside;
    EnderLast(code, ops, at, i, e, prevQ, s);
    EnderReaches(host, code, ops, at, i, e, prevQ, s, 3 * i);
    RunUnfold(p.chunk, [], e, s.mem, count);
  }

  lemma PieceKind(ops: seq<Decoded>, at: seq<Addr>, i: nat, prevQ: PrevQ, fmask: bv8, mstore: bool)
    requires i < |ops| && |at| == |ops| + 1
    ensures var p := PieceAt(ops, at, i, prevQ, fmask, mstore);
            && !p.chunk.CTail?
            && (p.chunk.CSide? ==> IsCondEnder(ops[i]) && p == FoldPiece(CSide(ops[i], at[i + 1], i + 1, 3 * i + 1), 1))
            && (p.chunk.COp? ==> !ops[i].ty.Branch? && p.used == 1)
  {
    hide FilterKind, CopyFillKind, CountdownKind, Wrap, QModeOf;
  }

  lemma Arrived(host: Host, code: Code, ops: seq<Decoded>, at: seq<Addr>, j: nat, e: Regs, prevQ: PrevQ, s: State,
                evs: seq<Event>, k: nat)
    requires j <= |ops| && |at| == |ops| + 1 && Advances(host, code, ops, at, j, e, prevQ, s, evs, k)
    ensures var t := FrozenSteps(host, code, s, k);
            t.regs.pc == at[j] && Sim(e, t.regs, LiveAt(ops, j), MemptrLiveAt(ops, j), prevQ)
  {
    hide FrozenSteps, Apply, StoresOf, Sim, Trail, Inside, LiveAt, MemptrLiveAt;
  }

  /** From any instruction of a block, and any block state that stands for the interpreter's. */
  lemma {:induction false} RunSound(host: Host, code: Code, ops: seq<Decoded>, at: seq<Addr>, i: nat, prevQ: PrevQ,
                                    qmode: QMode, e: Regs, s: State, count: int)
    requires Laid(code, ops, at) && BlockShape(ops) && i <= |ops| && s.regs.pc == at[i]
    requires Sim(e, s.regs, LiveAt(ops, i), MemptrLiveAt(ops, i), prevQ)
    requires i == |ops| ==> prevQ == PrevQAfter(qmode) && (qmode == QKeep ==> e.q)
    ensures Sound(host, code, ops, at, i, prevQ, qmode, e, s, count)
    decreases |ops| - i
  {
    hide Sim, Sound, Advances, Reaches, FrozenSteps, Apply, StoresOf, FoldRun, FoldEvents, EmitOp, EventsOf,
         SideInline, SideTaken, QModeOf,
         PieceAt, Wrap, BlockShape, MemptrStored, LiveBefore, MemptrLiveBefore, Trail, Inside;
    if i == |ops| {
      TailSound(host, code, ops, at, prevQ, qmode, e, s, count);
    } else {
      var d, live, mstore := ops[i], LiveAt(ops, i + 1), MemptrStored(ops[i], MemptrLiveAt(ops, i + 1));
      var p := PieceAt(ops, at, i, prevQ, live, mstore);
      PieceKind(ops, at, i, prevQ, live, mstore);
      if IsFold(p.chunk) {
        FoldAdvances(host, code, ops, at, i, e, prevQ, s, live, mstore);
        var x := FoldRun(p.chunk, e, s.mem);
        Arrived(host, code, ops, at, i + p.used, x.regs, Known(false), s, FoldEvents(p.chunk, e, x), p.used + x.extra);
        RunSound(host, code, ops, at, i + p.used, Known(false), QClear, x.regs,
            FrozenSteps(host, code, s, p.used + x.extra), count + x.extra);
        FoldSound(host, code, ops, at, i, prevQ, qmode, e, s, count, p);
      } else if p.chunk.CEnder? {
        EnderSound(host, code, ops, at, i, prevQ, qmode, e, s, count, p);
      } else if p.chunk.CSide? {
        SideAdvances(host, code, ops, at, i, e, prevQ, s, 3 * i + 1);
        var e1 := SideInline(d, e);
        if !SideTaken(d, e1) {
          Arrived(host, code, ops, at, i + 1, e1, Known(false), s, [], 1);
          RunSound(host, code, ops, at, i + 1, Known(false), QClear, e1, FrozenSteps(host, code, s, 1), count);
        }
        SideSound(host, code, ops, at, i, prevQ, qmode, e, s, count, p);
      } else {
        OpAdvances(host, code, ops, at, i, e, prevQ, s);
        var o := EmitOp(d, prevQ, live, mstore, e, s.mem);
        Arrived(host, code, ops, at, i + 1, o.regs, PrevQAfter(QModeOf(d)), s, EventsOf(d, e, o.writes), 1);
        RunSound(host, code, ops, at, i + 1, PrevQAfter(QModeOf(d)), QModeOf(d), o.regs,
            FrozenSteps(host, code, s, 1), count);
        OpSound(host, code, ops, at, i, prevQ, qmode, e, s, count, p);
      }
    }
  }

  lemma EmitCons(ops: seq<Decoded>, at: seq<Addr>, i: nat, prevQ: PrevQ, qmode: QMode)
    requires i <= |ops| && |at| == |ops| + 1
    ensures i == |ops| ==> EmitFrom(ops, at, i, prevQ, qmode) == [CTail(at[i], |ops|, qmode, 3 * i)]
    ensures i < |ops| ==>
              var p := PieceAt(ops, at, i, prevQ, LiveAt(ops, i + 1), MemptrStored(ops[i], MemptrLiveAt(ops, i + 1)));
              EmitFrom(ops, at, i, prevQ, qmode)
              == if p.last then [p.chunk] else [p.chunk] + EmitFrom(ops, at, i + p.used, p.prevQ, p.qmode)
  {
    hide PieceAt, LiveAt, MemptrLiveAt, MemptrStored;
  }
}
