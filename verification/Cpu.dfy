/** The processor as the interpreter and the translator's helpers update it: registers, memory and the instruction
    count in place, bytes moved by loops (core/z80_interp.c, dbt/dbt_flags.c). */
module CpuState {
  import opened Bits
  import opened Decoder
  import opened Interp
  import opened Emitter
  import opened Folds
  import opened FoldsProof

  class Cpu {
    var regs: Regs
    var mem: Memory
    var count: int

    constructor (st: State)
      ensures Now() == st
    {
      regs, mem, count := st.regs, st.mem, st.count;
    }

    ghost function Now(): State
      reads this
    {
      State(regs, mem, count)
    }

    /** Store the bytes of an instruction in order. */
    method StoreAll(ws: seq<Store>)
      modifies this`mem
      ensures mem == Apply(old(mem), ws)
    {
      var i := 0;
      while i < |ws|
        invariant i <= |ws| && Apply(mem, ws[i..]) == Apply(old(mem), ws)
      {
        assert ws[i..][1..] == ws[i + 1..];
        mem := mem[ws[i].addr := ws[i].val];
        i := i + 1;
      }
      assert ws[i..] == [];
    }

    /** z80_step. */
    method Step(host: Host)
      modifies this
      ensures Now() == Interp.Step(host, old(Now()))
    {
      hide Exec, Decode, ExecBlockCopy, Apply, Wrap;
      var d := DecodeOne(mem, regs.pc);
      if d.ty == Flag(Ldir) || d.ty == Flag(Lddr) {
        var incr := if d.ty == Flag(Ldir) then 1 else -1;
        BlockStep(host, d, regs, mem, incr);
        regs := regs.(pc := Wrap(regs.pc + d.bytes), q := false);
        BlockCopy(incr);
        count := count + 1;
      } else {
        var o := Exec(host, d, regs, mem);
        regs := o.regs;
        StoreAll(o.writes);
        if !(d.ty == Branch(Ret) && o.regs.pc == 0) {
          count := count + 1;
        }
      }
    }

    /** LDIR and LDDR in the interpreter: one byte at a time while BC is not 0. */
    method BlockCopy(incr: int)
      requires incr == 1 || incr == -1
      modifies this`regs, this`mem
      ensures var o := ExecBlockCopy(old(regs), old(mem), incr);
              regs == o.regs && mem == Apply(old(mem), o.writes)
    {
      hide Wrap, Rd, BlockFlags, Moved, BlockStores, Apply, LastByte;
      var last: bv8, hl: Addr, de: Addr, bc: nat := 0, regs.hl, regs.de, regs.bc;
      ghost var r, n, m := regs, regs.bc, mem;
      ghost var done: seq<Store> := [];
      ghost var all := BlockStores(mem, hl, de, bc, incr);
      MovedNone(r.hl, incr);
      MovedNone(r.de, incr);
      NoStores(mem);
      BlockCons(mem, hl, de, bc, incr);
      assert [] + all == all;
      while bc != 0
        invariant bc <= n && regs == r && done + BlockStores(mem, hl, de, bc, incr) == all
        invariant mem == Apply(m, done) && last == LastByte(done)
        invariant hl == Moved(r.hl, incr, n - bc) && de == Moved(r.de, incr, n - bc)
        decreases bc
      {
        BlockCons(mem, hl, de, bc, incr);
        last := Rd(mem, hl);
        StoreOne(m, done, de, last, BlockStores(mem[de := last], Wrap(hl + incr), Wrap(de + incr), bc - 1, incr));
        mem := mem[de := last];
        done := done + [Store(de, last)];
        MovedNext(r.hl, incr, n - bc);
        MovedNext(r.de, incr, n - bc);
        hl, de, bc := Wrap(hl + incr), Wrap(de + incr), bc - 1;
      }
      BlockCons(mem, hl, de, bc, incr);
      assert done + [] == done;
      regs := regs.(hl := hl, de := de, bc := 0, f := BlockFlags(regs.a, last, regs.f), q := true);
    }

    /** The byte loop of ldir_lddr_common and z80_jit_loop_copy: `n` bytes by index. */
    method MoveBytes(src: Addr, dst: Addr, n: nat, incr: int) returns (last: bv8)
      modifies this`mem
      ensures var ws := HelperStores(old(mem), src, dst, 0, n, incr);
              mem == Apply(old(mem), ws) && last == LastByte(ws) && |ws| == n
    {
      hide Rd, Moved, HelperStores, Apply, LastByte;
      last := 0;
      var i: nat := 0;
      ghost var m := mem;
      ghost var done: seq<Store> := [];
      ghost var all := HelperStores(mem, src, dst, 0, n, incr);
      NoStores(mem);
      HelperCons(mem, src, dst, 0, n, incr);
      assert [] + all == all;
      while i < n
        invariant i <= n && done + HelperStores(mem, src, dst, i, n, incr) == all
        invariant mem == Apply(m, done) && last == LastByte(done) && |done| == i
      {
        HelperCons(mem, src, dst, i, n, incr);
        last := Rd(mem, Moved(src, incr, i));
        var d := Moved(dst, incr, i);
        StoreOne(m, done, d, last, HelperStores(mem[d := last], src, dst, i + 1, n, incr));
        mem := mem[d := last];
        done := done + [Store(d, last)];
        i := i + 1;
      }
      HelperCons(mem, src, dst, n, n, incr);
      assert done + [] == done;
    }

    /** ldir_lddr_common. */
    method JitBlockCopy(incr: int)
      modifies this`regs, this`mem
      ensures var o := EmitBlockCopy(old(regs), old(mem), incr);
              regs == o.regs && mem == Apply(old(mem), o.writes)
    {
      hide HelperStores, Moved, BlockFlags, LastByte;
      var last := MoveBytes(regs.hl, regs.de, regs.bc, incr);
      regs := regs.(hl := Moved(regs.hl, incr, regs.bc), de := Moved(regs.de, incr, regs.bc), bc := 0,
                    f := BlockFlags(regs.a, last, regs.f), q := true);
    }

    /** z80_jit_loop_copy, up to its sweep of `n` bytes. */
    method JitLoopCopy(counter: bv8, fromDe: bool, back: Back, head: Addr) returns (n: nat)
      modifies this
      ensures var x := LoopCopy(counter, fromDe, back, head, old(regs), old(mem));
              regs == x.regs && mem == Apply(old(mem), x.writes) && count == old(count) + x.extra && n == |x.writes|
    {
      hide HelperStores, Wrap, LastByte, GetReg8, SetReg8, LastDecF, Iterations, Word, Lo;
      n := Iterations(GetReg8(regs, counter, 0));
      var src, dst := if fromDe then regs.de else regs.hl, if fromDe then regs.hl else regs.de;
      var last := MoveBytes(src, dst, n, 1);
      var deLast := Wrap(regs.de + n - 1);
      var mp := if back == BackJp then head else if fromDe then Succ(deLast) else Word(last, Lo(Succ(deLast)));
      count := count + 6 * (n - 1);
      regs := SetReg8(regs.(hl := Wrap(regs.hl + n), de := Wrap(regs.de + n), a := last), counter, 0, 0)
                .(f := LastDecF(regs.f), q := false, memptr := mp);
    }

    /** The byte loop of z80_jit_loop_fill. */
    method FillBytes(dst: Addr, v: bv8, n: nat)
      modifies this`mem
      ensures mem == Apply(old(mem), FillStores(dst, v, 0, n)) && |FillStores(dst, v, 0, n)| == n
    {
      hide Wrap, FillStores, Apply;
      ghost var m := mem;
      NoStores(mem);
      ghost var all := FillStores(dst, v, 0, n);
      ghost var done: seq<Store> := [];
      assert [] + all == all;
      var i: nat := 0;
      while i < n
        invariant i <= n && done + FillStores(dst, v, i, n) == all
        invariant mem == Apply(m, done) && |done| == i
      {
        FillCons(dst, v, i, n);
        var d := Wrap(dst + i);
        StoreOne(m, done, d, v, FillStores(dst, v, i + 1, n));
        mem := mem[d := v];
        done := done + [Store(d, v)];
        i := i + 1;
      }
      FillCons(dst, v, n, n);
      assert done + [] == done;
    }

    /** z80_jit_loop_fill, up to its sweep of `n` bytes. */
    method JitLoopFill(counter: bv8, back: Back, head: Addr) returns (n: nat)
      modifies this
      ensures var x := LoopFill(counter, back, head, old(regs));
              regs == x.regs && mem == Apply(old(mem), x.writes) && count == old(count) + x.extra && n == |x.writes|
    {
      hide Wrap, GetReg8, SetReg8, LastDecF, Iterations, FillStores;
      n := Iterations(GetReg8(regs, counter, 0));
      FillBytes(regs.hl, regs.a, n);
      count := count + 4 * (n - 1);
      regs := SetReg8(regs.(hl := Wrap(regs.hl + n)), counter, 0, 0)
                .(f := LastDecF(regs.f), q := false, memptr := if back == BackJp || n >= 2 then head else regs.memptr);
    }

    /** z80_jit_loop_filtercopy, up to its sweep of `n` bytes. */
    method JitLoopFilter(spec: FilterSpec, head: Addr, exit: Addr) returns (n: nat)
      requires spec.Filter?
      modifies this
      ensures var x := LoopFilter(spec, head, exit, old(regs), old(mem));
              regs == x.regs && mem == Apply(old(mem), x.writes) && count == old(count) + x.extra && n == |x.writes|
    {
      hide Wrap, MaskedByte, Below, Hi, Lo, Word, FilterF, FilterLoop, Iterations, Apply, LastByte;
      ghost var m := mem;
      NoStores(mem);
      var hl, de, b, c := regs.hl, regs.de, Hi(regs.bc), Lo(regs.bc);
      var executed := 0;
      n := 0;
      var way := Looping;
      var a: bv8 := 0;
      ghost var x := FilterLoop(spec, mem, hl, de, b, c);
      ghost var done: seq<Store> := [];
      assert [] + x.writes == x.writes;
      while way == Looping
        invariant mem == Apply(m, done) && regs == old(regs) && count == old(count) && |done| == n
        invariant way == Looping ==> Resumes(x, FilterLoop(spec, mem, hl, de, b, c), done, executed)
        invariant way != Looping ==> x == FilterRun(hl, de, b, c, a, done, executed, way.exit)
        decreases way == Looping, Iterations(c)
      {
        FilterUnfold(spec, mem, hl, de, b, c);
        a := MaskedByte(mem, de, spec.mask);
        if Below(a, spec.lo) {
          way, executed := Left(BelowLow), executed + 4;
          assert done + [] == done;
        } else if a == spec.sen {
          way, executed := Left(AtSentinel), executed + 6;
          assert done + [] == done;
        } else {
          ghost var rest := if c == 1 then []
              else FilterLoop(spec, mem[hl := a], Succ(hl), Succ(de), b + 1, c - 1).writes;
          assert [Store(hl, a)] + [] == [Store(hl, a)];
          StoreOne(m, done, hl, a, rest);
          done := done + [Store(hl, a)];
          mem, n := mem[hl := a], n + 1;
          if c == 1 {
            Zero();
            way := Left(CountedDown);
          } else {
            FewerIterations(c);
          }
          hl, de, b, c, executed := Succ(hl), Succ(de), b + 1, c - 1, executed + 12;
        }
      }
      regs := regs.(hl := hl, de := de, bc := Word(b, c), a := a, f := FilterF(spec, way.exit, a), q := false,
                    memptr := if way.exit == CountedDown then head else exit);
      count := count + executed - 12;
    }
  }

  /** LDIR and LDDR are the copying loop on the registers as they are after the fetch. */
  lemma BlockStep(host: Host, d: Decoded, r: Regs, m: Memory, incr: int)
    requires (d.ty == Flag(Ldir) && incr == 1) || (d.ty == Flag(Lddr) && incr == -1)
    ensures Exec(host, d, r, m) == ExecBlockCopy(r.(pc := Wrap(r.pc + d.bytes), q := false), m, incr)
  {
    hide ExecBlockCopy, Wrap;
  }

  datatype Way = Looping | Left(exit: FilterExit)

  /** The whole loop is what was done so far followed by the rest. */
  ghost predicate Resumes(x: FilterRun, rest: FilterRun, done: seq<Store>, executed: nat) {
    x == rest.(writes := done + rest.writes, executed := executed + rest.executed)
  }

  function Succ(a: Addr): Addr { Wrap(a + 1) }

  lemma FillCons(dst: Addr, v: bv8, i: nat, n: nat)
    requires i <= n
    ensures FillStores(dst, v, i, n) == if i == n then [] else [Store(Wrap(dst + i), v)] + FillStores(dst, v, i + 1, n)
  {
    hide Wrap;
  }

  /** One more store made, one fewer to make. */
  lemma StoreOne(m: Memory, done: seq<Store>, d: Addr, v: bv8, rest: seq<Store>)
    ensures Apply(m, done + [Store(d, v)]) == Apply(m, done)[d := v] && LastByte(done + [Store(d, v)]) == v
    ensures done + ([Store(d, v)] + rest) == (done + [Store(d, v)]) + rest
  {
    ApplyAppend(m, done, [Store(d, v)]);
    OneStore(Apply(m, done), d, v);
  }

  lemma BlockCons(m: Memory, hl: Addr, de: Addr, bc: nat, incr: int)
    ensures BlockStores(m, hl, de, bc, incr)
         == if bc == 0 then []
             else [Store(de, Rd(m, hl))] + BlockStores(m[de := Rd(m, hl)], Wrap(hl + incr), Wrap(de + incr), bc - 1,
             incr)
    ensures LastByte([]) == 0
  {
    hide Wrap, Rd;
  }

  lemma HelperCons(m: Memory, hl: Addr, de: Addr, i: nat, bc: nat, incr: int)
    requires i <= bc
    ensures var v := Rd(m, Moved(hl, incr, i));
            HelperStores(m, hl, de, i, bc, incr)
            == if i == bc then []
                else [Store(Moved(de, incr, i), v)] + HelperStores(m[Moved(de, incr, i) := v], hl, de, i + 1, bc, incr)
    ensures LastByte([]) == 0
  {
    hide Moved, Rd;
  }
}
