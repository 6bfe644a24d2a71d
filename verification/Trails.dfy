/** Where the interpreter goes on the way: while a block's instructions run, it stays on their addresses and changes
    only what the block reports storing. */
module Trails {
  import opened Bits
  import opened Decoder
  import opened Interp
  import opened Emitter
  import opened FlagsProof
  import opened EmitterProof
  import opened Folds
  import opened FoldsProof

  predicate Hits(ws: seq<Store>, a: Addr) { exists i :: 0 <= i < |ws| && ws[i].addr == a }

  /** `m1` differs from `m` only where one of the stores went. */
  ghost predicate OnlyHit(m: Memory, m1: Memory, ws: seq<Store>) {
    forall a: Addr :: !Hits(ws, a) ==> Rd(m1, a) == Rd(m, a)
  }

  /** The first `n` instructions from `st` are at addresses of `inside`, and memory changes only where `ws` goes. */
  ghost predicate Trail(host: Host, code: Code, st: State, n: nat, inside: set<Addr>, ws: seq<Store>) {
    forall j :: 0 <= j < n ==>
      var t := FrozenSteps(host, code, st, j);
      t.regs.pc in inside && OnlyHit(st.mem, t.mem, ws)
  }

  lemma TrailNone(host: Host, code: Code, st: State, inside: set<Addr>, ws: seq<Store>)
    ensures Trail(host, code, st, 0, inside, ws)
  {
  }

  lemma TrailOne(host: Host, code: Code, st: State, inside: set<Addr>, ws: seq<Store>)
    requires st.regs.pc in inside
    ensures Trail(host, code, st, 1, inside, ws)
  {
    hide ExecAt;
    assert FrozenSteps(host, code, st, 0) == st;
  }

  lemma HitsTail(ws: seq<Store>, a: Addr)
    requires ws != []
    ensures Hits(ws[1..], a) ==> Hits(ws, a)
  {
    if Hits(ws[1..], a) {
      var i :| 0 <= i < |ws[1..]| && ws[1..][i].addr == a;
      assert ws[i + 1].addr == a;
    }
  }

  lemma {:induction false} ApplyHits(m: Memory, ws: seq<Store>)
    ensures OnlyHit(m, Apply(m, ws), ws)
    decreases |ws|
  {
    if ws != [] {
      var m1, rest := m[ws[0].addr := ws[0].val], ws[1..];
      ApplyHits(m1, rest);
      forall a: Addr | !Hits(ws, a) ensures Rd(Apply(m, ws), a) == Rd(m, a) {
        assert ws[0].addr != a;
        HitsTail(ws, a);
      }
    }
  }

  lemma HitsAppend(wa: seq<Store>, wb: seq<Store>, a: Addr)
    ensures Hits(wa + wb, a) <==> Hits(wa, a) || Hits(wb, a)
  {
    if Hits(wa, a) {
      var i :| 0 <= i < |wa| && wa[i].addr == a;
      assert (wa + wb)[i].addr == a;
    }
    if Hits(wb, a) {
      var i :| 0 <= i < |wb| && wb[i].addr == a;
      assert (wa + wb)[|wa| + i].addr == a;
    }
  }

  /** One stretch after another. */
  lemma TrailAdd(host: Host, code: Code, st: State, a: nat, t: State, b: nat, inside: set<Addr>, wa: seq<Store>,
                 wb: seq<Store>)
    requires Trail(host, code, st, a, inside, wa) && FrozenSteps(host, code, st, a) == t && t.mem == Apply(st.mem, wa)
    requires Trail(host, code, t, b, inside, wb)
    ensures Trail(host, code, st, a + b, inside, wa + wb)
  {
    hide FrozenSteps, Hits, Rd, Apply;
    ApplyHits(st.mem, wa);
    forall x: Addr ensures Hits(wa + wb, x) <==> Hits(wa, x) || Hits(wb, x) { HitsAppend(wa, wb, x); }
    forall j | 0 <= j < a + b
      ensures var u := FrozenSteps(host, code, st, j);
              u.regs.pc in inside && OnlyHit(st.mem, u.mem, wa + wb)
    {
      if j >= a {
        FrozenAdd(host, code, st, a, j - a);
      }
    }
  }

  /** Two instructions, the second at `mid`; `ws` are the first one's stores. */
  lemma TrailTwo(host: Host, code: Code, st: State, t: State, inside: set<Addr>, wa: seq<Store>, wb: seq<Store>)
    requires t == ExecAt(host, code(st.regs.pc), st) && t.mem == Apply(st.mem, wa) && st.regs.pc in inside
             && t.regs.pc in inside
    ensures Trail(host, code, st, 2, inside, wa + wb)
  {
    hide FrozenSteps, ExecAt, Trail, Apply;
    FrozenOne(host, code, st);
    TrailOne(host, code, st, inside, wa);
    TrailOne(host, code, t, inside, wb);
    TrailAdd(host, code, st, 1, t, 1, inside, wa, wb);
  }

  /** The same for two instructions that do not store. */
  lemma TrailQuiet(host: Host, code: Code, st: State, t: State, inside: set<Addr>)
    requires t == ExecAt(host, code(st.regs.pc), st) && t.mem == st.mem && st.regs.pc in inside && t.regs.pc in inside
    ensures Trail(host, code, st, 2, inside, [])
  {
    hide ExecAt, Trail, Apply;
    NoStores(st.mem);
    var none: seq<Store> := [];
    TrailTwo(host, code, st, t, inside, none, none);
    assert none + none == none;
  }

  /** A stretch without stores in front, or behind. */
  lemma TrailQuietThen(host: Host, code: Code, st: State, a: nat, t: State, b: nat, inside: set<Addr>, ws: seq<Store>)
    requires Trail(host, code, st, a, inside, []) && FrozenSteps(host, code, st, a) == t && t.mem == st.mem
    requires Trail(host, code, t, b, inside, ws)
    ensures Trail(host, code, st, a + b, inside, ws)
  {
    hide FrozenSteps, Trail, Apply;
    NoStores(st.mem);
    TrailAdd(host, code, st, a, t, b, inside, [], ws);
    assert [] + ws == ws;
  }

  lemma TrailThenQuiet(host: Host, code: Code, st: State, a: nat, t: State, b: nat, inside: set<Addr>, ws: seq<Store>)
    requires Trail(host, code, st, a, inside, ws) && FrozenSteps(host, code, st, a) == t && t.mem == Apply(st.mem, ws)
    requires Trail(host, code, t, b, inside, [])
    ensures Trail(host, code, st, a + b, inside, ws)
  {
    hide FrozenSteps, Trail, Apply;
    TrailAdd(host, code, st, a, t, b, inside, ws, []);
    assert ws + [] == ws;
  }

  // ---- countdown loops ----

  lemma DecBranchTrail(host: Host, code: Code, dec: Decoded, mid: Addr, st: State, inside: set<Addr>)
    requires code(st.regs.pc) == dec && mid == Wrap(st.regs.pc + dec.bytes) && st.regs.pc in inside && mid in inside
    requires dec.ty == Flag(DecR) && CounterCode(dec.reg1) && !IsIndexPrefix(dec.prefix)
    ensures Trail(host, code, st, 2, inside, [])
  {
    hide ExecAt, Wrap, SetReg8, GetReg8, Dec8, Trail;
    DecStep(host, dec, mid, st);
    TrailQuiet(host, code, st, ExecAt(host, dec, st), inside);
  }

  lemma {:induction false} CountdownTrail(host: Host, code: Code, dec: Decoded, br: Decoded, back: Back, head: Addr,
                                          mid: Addr, exit: Addr, st: State, inside: set<Addr>)
    requires st.regs.pc == head && code(head) == dec && mid == Wrap(head + dec.bytes) && head in inside && mid in inside
    requires code(mid) == br && exit == Wrap(mid + br.bytes)
    requires dec.ty == Flag(DecR) && CounterCode(dec.reg1) && !IsIndexPrefix(dec.prefix)
    requires back == BackBranch(br, exit, head) && back != NotBack
    ensures Trail(host, code, st, 2 * Iterations(GetReg8(st.regs, dec.reg1, 0)), inside, [])
    decreases Iterations(GetReg8(st.regs, dec.reg1, 0))
  {
    hide Wrap, GetReg8, SetReg8, BackBranch, DecNz, CountdownEnd, FrozenSteps, Iterations, Trail;
    var v := GetReg8(st.regs, dec.reg1, 0);
    DecBranchSteps(host, code, dec, br, back, head, mid, exit, st);
    DecBranchTrail(host, code, dec, mid, st, inside);
    CountdownNext(back, dec.reg1, head, exit, st.regs);
    if v == 1 {
      OneIteration();
    } else {
      FewerIterations(v);
      var s1, k := FrozenSteps(host, code, st, 2), Iterations(v) - 1;
      CountdownTrail(host, code, dec, br, back, head, mid, exit, s1, inside);
      TrailQuietThen(host, code, st, 2, s1, 2 * k, inside, []);
    }
  }

  lemma {:induction false} DjnzTrail(host: Host, code: Code, d: Decoded, head: Addr, exit: Addr, st: State,
                                     inside: set<Addr>)
    requires st.regs.pc == head && code(head) == d && exit == Wrap(head + d.bytes) && head in inside
    requires d.ty == Branch(Djnz) && Wrap(exit + Signed(d.disp)) == head
    ensures Trail(host, code, st, Iterations(Hi(st.regs.bc)), inside, [])
    decreases Iterations(Hi(st.regs.bc))
  {
    hide Wrap, Signed, ExecAt, FrozenSteps, Hi, SetHi, Iterations, Trail;
    var b := Hi(st.regs.bc);
    StepDjnz(host, d, st);
    FrozenOne(host, code, st);
    TrailOne(host, code, st, inside, []);
    HiTwice(st.regs.bc, b - 1, 0);
    if b == 1 {
      OneIteration();
    } else {
      FewerIterations(b);
      var s1 := FrozenSteps(host, code, st, 1);
      assert Hi(s1.regs.bc) == b - 1;
      DjnzTrail(host, code, d, head, exit, s1, inside);
      TrailQuietThen(host, code, st, 1, s1, Iterations(b) - 1, inside, []);
    }
  }

  // ---- copy and fill loops ----

  /** The addresses of the instructions are among those allowed. */
  ghost predicate Within(at: seq<Addr>, inside: set<Addr>) { forall k :: 0 <= k < |at| - 1 ==> at[k] in inside }

  lemma LoadStoreTrail(host: Host, code: Code, ops: seq<Decoded>, at: seq<Addr>, fromDe: bool, st: State,
                       inside: set<Addr>)
    requires Laid(code, ops, at) && IsCopyBody(ops, fromDe) && st.regs.pc == at[0] && Within(at, inside)
    ensures Trail(host, code, st, 2, inside, [])
  {
    hide Wrap, Rd, ExecAt, Trail, StoreQuirk;
    assert at[1] == Wrap(at[0] + ops[0].bytes);
    if fromDe {
      StepLdADe(host, ops[0], st);
    } else {
      StepLdAHl(host, ops[0], st);
    }
    TrailQuiet(host, code, st, ExecAt(host, ops[0], st), inside);
  }

  lemma IncrementTrail(host: Host, code: Code, i0: Decoded, mid: Addr, st: State, inside: set<Addr>)
    requires code(st.regs.pc) == i0 && mid == Wrap(st.regs.pc + i0.bytes) && st.regs.pc in inside && mid in inside
    requires !IsIndexPrefix(i0.prefix) && (IsIncPair(i0, 2) || IsIncPair(i0, 1))
    ensures Trail(host, code, st, 2, inside, [])
  {
    hide Wrap, ExecAt, Trail;
    StepIncPair(host, i0, st);
    TrailQuiet(host, code, st, ExecAt(host, i0, st), inside);
  }

  lemma CopyIterationTrail(host: Host, code: Code, ops: seq<Decoded>, at: seq<Addr>, fromDe: bool, back: Back,
                           st: State, inside: set<Addr>)
    requires Laid(code, ops, at) && IsCopyBody(ops, fromDe) && st.regs.pc == at[0] && Within(at, inside)
    requires back == BackBranch(ops[5], at[6], at[0]) && back != NotBack
    ensures var w := Store(if fromDe then st.regs.hl
            else st.regs.de, Rd(st.mem, if fromDe then st.regs.de else st.regs.hl));
            Trail(host, code, st, 6, inside, [w]) && CopyStored(fromDe, st.regs, st.mem) == Apply(st.mem, [w])
  {
    hide Wrap, Rd, ExecAt, FrozenSteps, StoreQuirk, DecNz, BackBranch, Trail, Apply;
    var w := Store(if fromDe then st.regs.hl else st.regs.de, Rd(st.mem, if fromDe then st.regs.de else st.regs.hl));
    OneStore(st.mem, w.addr, w.val);
    assert at[3] == Wrap(at[2] + ops[2].bytes) && at[4] == Wrap(at[3] + ops[3].bytes)
        && at[5] == Wrap(at[4] + ops[4].bytes);
    LoadStoreSteps(host, code, ops, at, fromDe, st);
    LoadStoreTrail(host, code, ops, at, fromDe, st, inside);
    var s2 := FrozenSteps(host, code, st, 2);
    assert code(at[2]) == ops[2] && code(at[4]) == ops[4];
    IncrementSteps(host, code, ops[2], ops[3], at[3], at[4], s2);
    IncrementTrail(host, code, ops[2], at[3], s2, inside);
    var s4 := FrozenSteps(host, code, s2, 2);
    DecBranchTrail(host, code, ops[4], at[5], s4, inside);
    TrailQuietThen(host, code, s2, 2, s4, 2, inside, []);
    TrailWider(host, code, st, 2, inside, w);
    TrailThenQuiet(host, code, st, 2, s2, 4, inside, [w]);
  }

  lemma TrailWider(host: Host, code: Code, st: State, n: nat, inside: set<Addr>, w: Store)
    requires Trail(host, code, st, n, inside, [])
    ensures Trail(host, code, st, n, inside, [w])
  {
    hide FrozenSteps, Rd;
  }

  lemma {:induction false} CopyTrail(host: Host, code: Code, ops: seq<Decoded>, at: seq<Addr>, fromDe: bool,
                                     back: Back, st: State, inside: set<Addr>)
    requires Laid(code, ops, at) && IsCopyBody(ops, fromDe) && st.regs.pc == at[0] && Within(at, inside)
    requires back == BackBranch(ops[5], at[6], at[0]) && back != NotBack
    ensures var n := Iterations(GetReg8(st.regs, ops[4].reg1, 0));
            Trail(host, code, st, 6 * n, inside, CopyWrites(fromDe, st.regs, st.mem, n))
    decreases Iterations(GetReg8(st.regs, ops[4].reg1, 0))
  {
    hide Wrap, Rd, IsCopyBody, GetReg8, SetReg8, BackBranch, CopyWrites, CopyStored, FrozenSteps, Iterations,
         LastByte, Apply, Trail, Within;
    var counter := CopyCounter(ops, fromDe);
    var r, v := st.regs, GetReg8(st.regs, counter, 0);
    CopyIteration(host, code, ops, at, fromDe, back, st);
    CopyIterationTrail(host, code, ops, at, fromDe, back, st, inside);
    CopyNext(counter, fromDe, back, at[0], at[4], at[6], r, st.mem);
    var s1 := FrozenSteps(host, code, st, 6);
    if v == 1 {
      OneIteration();
      CopyWritesNext(fromDe, r, st.mem, s1.regs, 0);
      NoCopyWrites(fromDe, s1.regs, s1.mem);
      var w := Store(if fromDe then r.hl else r.de, Rd(st.mem, if fromDe then r.de else r.hl));
      assert [w] + [] == [w];
    } else {
      FewerIterations(v);
      var n := Iterations(v) - 1;
      CopyTail(counter, fromDe, back, at[0], at[4], at[6], r, st.mem, n,
          LastByte(CopyWrites(fromDe, s1.regs, s1.mem, n)));
      CopyWritesNext(fromDe, r, st.mem, s1.regs, n);
      CopyTrail(host, code, ops, at, fromDe, back, s1, inside);
      TrailAdd(host, code, st, 6, s1, 6 * n, inside,
               [Store(if fromDe then r.hl else r.de, Rd(st.mem, if fromDe then r.de else r.hl))],
                   CopyWrites(fromDe, s1.regs, s1.mem, n));
    }
  }

  lemma NoCopyWrites(fromDe: bool, r: Regs, m: Memory)
    ensures CopyWrites(fromDe, r, m, 0) == []
  {
  }

  lemma FillIterationTrail(host: Host, code: Code, ops: seq<Decoded>, at: seq<Addr>, st: State, inside: set<Addr>)
    requires Laid(code, ops, at) && IsFillBody(ops) && st.regs.pc == at[0] && Within(at, inside)
    ensures Trail(host, code, st, 4, inside, [Store(st.regs.hl, st.regs.a)])
  {
    hide Wrap, ExecAt, FrozenSteps, Trail, Apply;
    assert at[1] == Wrap(at[0] + ops[0].bytes) && at[2] == Wrap(at[1] + ops[1].bytes)
        && at[3] == Wrap(at[2] + ops[2].bytes);
    var w := Store(st.regs.hl, st.regs.a);
    OneStore(st.mem, w.addr, w.val);
    var s1 := ExecAt(host, ops[0], st);
    StepLdHlA(host, ops[0], st);
    FrozenOne(host, code, st);
    TrailOne(host, code, st, inside, [w]);
    StepIncPair(host, ops[1], s1);
    FrozenOne(host, code, s1);
    TrailOne(host, code, s1, inside, []);
    var s2 := ExecAt(host, ops[1], s1);
    assert code(at[1]) == ops[1] && code(at[2]) == ops[2];
    DecBranchTrail(host, code, ops[2], at[3], s2, inside);
    TrailQuietThen(host, code, s1, 1, s2, 2, inside, []);
    TrailThenQuiet(host, code, st, 1, s1, 3, inside, [w]);
  }

  lemma FillCons(dst: Addr, v: bv8, n: nat)
    ensures FillStores(dst, v, 0, n + 1) == [Store(dst, v)] + FillStores(Wrap(dst + 1), v, 0, n)
    ensures FillStores(dst, v, 0, 0) == []
  {
    FillShift(dst, v, 0, n);
    assert Wrap(dst + 0) == dst;
  }

  lemma {:induction false} FillTrail(host: Host, code: Code, ops: seq<Decoded>, at: seq<Addr>, back: Back, st: State,
                                     inside: set<Addr>)
    requires Laid(code, ops, at) && IsFillBody(ops) && st.regs.pc == at[0] && Within(at, inside)
    requires back == BackBranch(ops[3], at[4], at[0]) && back != NotBack
    ensures var n := Iterations(GetReg8(st.regs, ops[2].reg1, 0));
            Trail(host, code, st, 4 * n, inside, FillStores(st.regs.hl, st.regs.a, 0, n))
    decreases Iterations(GetReg8(st.regs, ops[2].reg1, 0))
  {
    hide Wrap, GetReg8, SetReg8, BackBranch, DecNz, FillOnce, FillEnd, FillStores, FrozenSteps, Iterations, Apply,
         Trail, Within;
    var r, v := st.regs, GetReg8(st.regs, ops[2].reg1, 0);
    OneIteration();
    FillIteration(host, code, ops, at, back, st);
    FillIterationTrail(host, code, ops, at, st, inside);
    OneStore(st.mem, r.hl, r.a);
    var s1 := FrozenSteps(host, code, st, 4);
    if v == 1 {
      FillTail(ops[2].reg1, back, at[0], at[2], at[4], r, 0);
      FillCons(r.hl, r.a, 0);
      FillCons(s1.regs.hl, r.a, 0);
      assert [Store(r.hl, r.a)] + [] == [Store(r.hl, r.a)];
    } else {
      FewerIterations(v);
      var n := Iterations(v) - 1;
      FillTail(ops[2].reg1, back, at[0], at[2], at[4], r, n);
      FillCons(r.hl, r.a, n);
      FillTrail(host, code, ops, at, back, s1, inside);
      TrailAdd(host, code, st, 4, s1, 4 * n, inside, [Store(r.hl, r.a)], FillStores(s1.regs.hl, r.a, 0, n));
    }
  }

  // ---- the filtered copy ----

  lemma FilterFirstTrail(host: Host, code: Code, d: seq<Decoded>, at: seq<Addr>, st: State, inside: set<Addr>)
    requires FilterAt(code, d, at) && st.regs.pc == at[0] && Within(at, inside)
    ensures Trail(host, code, st, 4, inside, [])
  {
    hide Wrap, Rd, ExecAt, FrozenSteps, CpF, AndF, Leaves, Trail;
    assert at[1] == Wrap(at[0] + d[0].bytes) && at[2] == Wrap(at[1] + d[1].bytes) && at[3] == Wrap(at[2] + d[2].bytes);
    var s1 := ExecAt(host, d[0], st);
    StepLdADe(host, d[0], st);
    FrozenOne(host, code, st);
    TrailOne(host, code, st, inside, []);
    var s2 := ExecAt(host, d[1], s1);
    StepAnd(host, d[1], s1);
    FrozenOne(host, code, s1);
    TrailOne(host, code, s1, inside, []);
    CpJpTrail(host, code, d[2], at[3], s2, inside);
    TrailQuietThen(host, code, s1, 1, s2, 2, inside, []);
    TrailQuietThen(host, code, st, 1, s1, 3, inside, []);
  }

  lemma CpJpTrail(host: Host, code: Code, cp: Decoded, mid: Addr, st: State, inside: set<Addr>)
    requires code(st.regs.pc) == cp && mid == Wrap(st.regs.pc + cp.bytes) && cp.ty == Flag(AluN(Cp))
             && st.regs.pc in inside && mid in inside
    ensures Trail(host, code, st, 2, inside, [])
  {
    hide Wrap, ExecAt, CpF, Trail;
    StepCp(host, cp, st);
    TrailQuiet(host, code, st, ExecAt(host, cp, st), inside);
  }

  lemma FilterStoreTrail(host: Host, code: Code, d: seq<Decoded>, at: seq<Addr>, st: State, inside: set<Addr>)
    requires FilterAt(code, d, at) && st.regs.pc == at[6] && Within(at, inside)
    ensures Trail(host, code, st, 3, inside, [Store(st.regs.hl, st.regs.a)])
  {
    hide Wrap, ExecAt, FrozenSteps, Trail, Apply;
    assert at[7] == Wrap(at[6] + d[6].bytes) && at[8] == Wrap(at[7] + d[7].bytes);
    var w := Store(st.regs.hl, st.regs.a);
    OneStore(st.mem, w.addr, w.val);
    var s1 := ExecAt(host, d[6], st);
    StepLdHlA(host, d[6], st);
    FrozenOne(host, code, st);
    TrailOne(host, code, st, inside, [w]);
    assert code(at[7]) == d[7];
    IncrementTrail(host, code, d[7], at[8], s1, inside);
    TrailThenQuiet(host, code, st, 1, s1, 2, inside, [w]);
  }

  lemma FilterCountTrail(host: Host, code: Code, d: seq<Decoded>, at: seq<Addr>, st: State, inside: set<Addr>)
    requires FilterAt(code, d, at) && st.regs.pc == at[9] && Within(at, inside)
    ensures Trail(host, code, st, 3, inside, [])
  {
    hide Wrap, ExecAt, FrozenSteps, IncDec8, Trail, GetReg8, Hi, Lo;
    assert at[10] == Wrap(at[9] + d[9].bytes) && at[11] == Wrap(at[10] + d[10].bytes);
    var s1 := ExecAt(host, d[9], st);
    StepIncDecR(host, d[9], st, true);
    FrozenOne(host, code, st);
    TrailOne(host, code, st, inside, []);
    assert code(at[10]) == d[10];
    DecBranchTrail(host, code, d[10], at[11], s1, inside);
    TrailQuietThen(host, code, st, 1, s1, 2, inside, []);
  }

  /** The part of a turn up to the second exit. */
  lemma FilterTestTrail(host: Host, code: Code, d: seq<Decoded>, at: seq<Addr>, st: State, inside: set<Addr>)
    requires FilterAt(code, d, at) && st.regs.pc == at[0] && Within(at, inside) && !Leaves(3, Masked(d, st), d[2].imm8)
    ensures Trail(host, code, st, 6, inside, [])
    ensures FrozenSteps(host, code, st, 6)
         == State(st.regs.(a := Masked(d, st), f := CpF(Masked(d, st), d[4].imm8), q := false, memptr := at[12],
                           pc := if Leaves(1, Masked(d, st), d[4].imm8) then at[12] else at[6]), st.mem, st.count + 6)
  {
    hide Wrap, Rd, ExecAt, FrozenSteps, CpF, Masked, Leaves, Trail;
    FilterFirst(host, code, d, at, st);
    FilterFirstTrail(host, code, d, at, st, inside);
    var s4 := FrozenSteps(host, code, st, 4);
    assert at[5] == Wrap(at[4] + d[4].bytes) && at[6] == Wrap(at[5] + d[5].bytes) && code(at[4]) == d[4];
    CpJpSteps(host, code, d[4], d[5], at[5], at[6], at[12], s4);
    CpJpTrail(host, code, d[4], at[5], s4, inside);
    TrailQuietThen(host, code, st, 4, s4, 2, inside, []);
    FrozenAdd(host, code, st, 4, 2);
  }

  lemma FilterFullTrail(host: Host, code: Code, d: seq<Decoded>, at: seq<Addr>, st: State, inside: set<Addr>)
    requires FilterAt(code, d, at) && st.regs.pc == at[0] && Within(at, inside)
    requires !Leaves(3, Masked(d, st), d[2].imm8) && !Leaves(1, Masked(d, st), d[4].imm8)
    ensures Trail(host, code, st, 12, inside, [Store(st.regs.hl, Masked(d, st))])
  {
    hide Wrap, Rd, ExecAt, FrozenSteps, Hi, Lo, Word, CpF, Masked, Leaves, Trail, Apply, IsFilterLoop;
    FilterTestTrail(host, code, d, at, st, inside);
    var w := Store(st.regs.hl, Masked(d, st));
    OneStore(st.mem, w.addr, w.val);
    var s6 := FrozenSteps(host, code, st, 6);
    FilterStore(host, code, d, at, s6);
    FilterStoreTrail(host, code, d, at, s6, inside);
    var s9 := FrozenSteps(host, code, s6, 3);
    FilterCountTrail(host, code, d, at, s9, inside);
    TrailThenQuiet(host, code, s6, 3, s9, 3, inside, [w]);
    TrailQuietThen(host, code, st, 6, s6, 6, inside, [w]);
  }

  lemma {:induction false} FilterTrail(host: Host, code: Code, d: seq<Decoded>, at: seq<Addr>, st: State,
                                       inside: set<Addr>)
    requires FilterAt(code, d, at) && st.regs.pc == at[0] && Within(at, inside)
    ensures var x := FilterRunOf(d, st);
            Trail(host, code, st, x.executed, inside, x.writes)
    decreases Iterations(Lo(st.regs.bc))
  {
    hide FrozenSteps, Lo, Hi, Word, Wrap, Iterations, FilterRunOf, Leaves, Masked, IsFilterLoop, Trail, Within, Laid,
         CpF, Dec8, Inc8, Apply;
    var a := Masked(d, st);
    if Leaves(3, a, d[2].imm8) {
      FilterFirstTrail(host, code, d, at, st, inside);
      FilterRunLeaves(d, st);
    } else if Leaves(1, a, d[4].imm8) {
      FilterTestTrail(host, code, d, at, st, inside);
      FilterRunLeaves(d, st);
    } else {
      FilterFull(host, code, d, at, st);
      FilterFullTrail(host, code, d, at, st, inside);
      var s := FrozenSteps(host, code, st, 12);
      WordHalves(Hi(st.regs.bc) + 1, Lo(st.regs.bc) - 1);
      FilterRunStays(d, st, s);
      if Lo(st.regs.bc) != 1 {
        FewerIterations(Lo(st.regs.bc));
        FilterTrail(host, code, d, at, s, inside);
        OneStore(st.mem, st.regs.hl, a);
        TrailAdd(host, code, st, 12, s, FilterRunOf(d, s).executed, inside, [Store(st.regs.hl, a)],
            FilterRunOf(d, s).writes);
      }
    }
  }
}
