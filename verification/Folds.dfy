/** Loops the translator replaces by one closed form (dbt/dbt_a64.c recognisers, dbt/dbt_flags.c helpers). */
module Folds {
  import opened Bits
  import opened Decoder
  import opened Interp
  import opened Emitter

  /** Addresses of a run of instructions: `at[k]` is where instruction k starts, the last entry is where the
      run ends, so `at[k + 1]` is the source's pc_afters[k]. */
  ghost predicate Chain(ops: seq<Decoded>, at: seq<Addr>) {
    |at| == |ops| + 1 && forall k :: 0 <= k < |ops| ==> at[k + 1] == Wrap(at[k] + ops[k].bytes)
  }

  // ---- recognisers ----

  /** The branch that closes a loop: JP NZ or JR NZ back to `head`. */
  datatype Back = NotBack | BackJp | BackJr

  function BackBranch(br: Decoded, after: Addr, head: Addr): Back {
    if br.cc != 0 then NotBack
    else if br.ty == Branch(JpCc) then (if br.imm16 == head then BackJp else NotBack)
    else if br.ty == Branch(JrCc) then (if Wrap(after + Signed(br.disp)) == head then BackJr else NotBack)
    else NotBack
  }

  datatype Fuse = FuseNone | FuseDec(back: Back) | FuseDjnz

  /** countdown_kind: DEC r with a branch back to it, or DJNZ to itself. */
  function CountdownKind(ops: seq<Decoded>, at: seq<Addr>, i: nat): Fuse
    requires i < |ops| && |at| == |ops| + 1
  {
    var d := ops[i];
    var head := Wrap(at[i + 1] - d.bytes);
    if IsIndexPrefix(d.prefix) then FuseNone
    else if d.ty == Branch(Djnz) then (if Wrap(at[i + 1] + Signed(d.disp)) == head then FuseDjnz else FuseNone)
    else if d.ty != Flag(DecR) || d.reg1 == 6 || i + 1 >= |ops| then FuseNone
    else if IsIndexPrefix(ops[i + 1].prefix) || BackBranch(ops[i + 1], at[i + 2], head) == NotBack then FuseNone
    else FuseDec(BackBranch(ops[i + 1], at[i + 2], head))
  }

  datatype CopyFill =
    | NoCopyFill
    | CopyLoop(counter: bv8, fromDe: bool, back: Back)
    | FillLoop(counter: bv8, back: Back)

  function FoldLength(c: CopyFill): nat {
    match c case NoCopyFill => 0 case CopyLoop(_, _, _) => 6 case FillLoop(_, _) => 4
  }

  predicate IsLdAHl(d: Decoded) { d.ty == Load(LdRR) && d.reg1 == 7 && d.reg2 == 6 }
  predicate IsLdHlA(d: Decoded) { d.ty == Load(LdRR) && d.reg1 == 6 && d.reg2 == 7 }
  predicate IsIncPair(d: Decoded, pair: bv8) { d.ty == Load(IncRr) && d.reg1 == pair }

  /** No instruction of the next `n` carries an index prefix. */
  predicate Unprefixed(ops: seq<Decoded>, i: nat, n: nat) {
    forall k :: i <= k < i + n && k < |ops| ==> !IsIndexPrefix(ops[k].prefix)
  }

  /** The counter decrement and backward branch that end a copy or fill loop. */
  function LoopEnd(ops: seq<Decoded>, at: seq<Addr>, j: nat, head: Addr, maxCounter: bv8): Back
    requires j + 1 < |ops| && |at| == |ops| + 1
  {
    if ops[j].ty != Flag(DecR) || ops[j].reg1 > maxCounter then NotBack else BackBranch(ops[j + 1], at[j + 2], head)
  }

  /** copyfill_kind. */
  function CopyFillKind(ops: seq<Decoded>, at: seq<Addr>, i: nat): CopyFill
    requires i < |ops| && |at| == |ops| + 1
  {
    var head := Wrap(at[i + 1] - ops[i].bytes);
    if !Unprefixed(ops, i, 6) then NoCopyFill
    else if i + 5 < |ops|
      && ((IsLdAHl(ops[i]) && ops[i + 1].ty == Ptr(LdDeA)) || (ops[i].ty == Ptr(LdADe) && IsLdHlA(ops[i + 1]))) then
      var a, b := ops[i + 2], ops[i + 3];
      if !((IsIncPair(a, 2) && IsIncPair(b, 1)) || (IsIncPair(a, 1) && IsIncPair(b, 2))) then NoCopyFill
      else
        var back := LoopEnd(ops, at, i + 4, head, 1);
        if back == NotBack then NoCopyFill else CopyLoop(ops[i + 4].reg1, ops[i].ty == Ptr(LdADe), back)
    else if IsLdHlA(ops[i]) && i + 3 < |ops| then
      if !IsIncPair(ops[i + 1], 2) then NoCopyFill
      else
        var back := LoopEnd(ops, at, i + 2, head, 3);
        if back == NotBack then NoCopyFill else FillLoop(ops[i + 2].reg1, back)
    else NoCopyFill
  }

  datatype FilterSpec = NoFilter | Filter(mask: bv8, lo: bv8, sen: bv8)

  /** filtercopy_kind: the twelve-instruction loop with fixed registers and three immediates. */
  function FilterKind(ops: seq<Decoded>, at: seq<Addr>, i: nat): FilterSpec
    requires i < |ops| && |at| == |ops| + 1
  {
    if i + 12 > |ops| || !Unprefixed(ops, i, 12) then NoFilter
    else if IsFilterLoop(ops[i..i + 12], Wrap(at[i + 1] - ops[i].bytes), at[i + 12])
    then Filter(ops[i + 1].imm8, ops[i + 2].imm8, ops[i + 4].imm8)
    else NoFilter
  }

  predicate IsJp(d: Decoded, cc: bv8, target: Addr) { d.ty == Branch(JpCc) && d.cc == cc && d.imm16 == target }

  predicate IsFilterLoop(d: seq<Decoded>, head: Addr, exit: Addr)
    requires |d| == 12
  {
    d[0].ty == Ptr(LdADe) && d[1].ty == Flag(AluN(And)) && d[2].ty == Flag(AluN(Cp)) && IsJp(d[3], 3, exit)
    && d[4].ty == Flag(AluN(Cp)) && IsJp(d[5], 1, exit) && IsLdHlA(d[6]) && IsIncPair(d[7], 2) && IsIncPair(d[8], 1)
    && d[9].ty == Flag(IncR) && d[9].reg1 == 0 && d[10].ty == Flag(DecR) && d[10].reg1 == 1 && IsJp(d[11], 0, head)
  }

  // ---- closed forms ----

  /** What a folded loop does: `extra` is what it adds to the block's own instruction count. */
  datatype FoldOut = FoldOut(regs: Regs, writes: seq<Store>, extra: int)

  /** Times the loop body runs for a counter that is decremented before it is tested. */
  function Iterations(counter: bv8): (n: nat)
    ensures 1 <= n <= 256
  {
    if counter == 0 then 256 else counter as int
  }

  /** F after the last DEC, 1 to 0, with C preserved. */
  function LastDecF(f: bv8): bv8 { (f & FLAG_C) | FtDec(0) }

  /** Iterations after the first, as the emitted code computes it: (r - 1) & 0xFF. */
  function Spins(counter: bv8): nat { (counter - 1) as int }

  /** emit_countdown. */
  function Countdown(kind: Fuse, reg: bv8, head: Addr, e: Regs): FoldOut {
    var spins := Spins(GetReg8(e, reg, 0));
    var e1 := SetReg8(e, reg, 0, 0);
    var e2 := if kind == FuseDjnz then e1 else e1.(f := LastDecF(e.f));
    FoldOut(if kind == FuseDec(BackJp) || spins != 0 then e2.(memptr := head) else e2, [],
            if kind == FuseDjnz then spins else 2 * spins)
  }

  /** z80_jit_loop_copy. */
  function LoopCopy(counter: bv8, fromDe: bool, back: Back, head: Addr, e: Regs, m: Memory): FoldOut {
    var n := Iterations(GetReg8(e, counter, 0));
    var src, dst := if fromDe then e.de else e.hl, if fromDe then e.hl else e.de;
    var ws := HelperStores(m, src, dst, 0, n, 1);
    var last := LastByte(ws);
    var deLast := Wrap(e.de + n - 1);
    var mp := if back == BackJp then head else if fromDe then Wrap(deLast + 1) else Word(last, Lo(Wrap(deLast + 1)));
    FoldOut(SetReg8(e.(hl := Wrap(e.hl + n), de := Wrap(e.de + n), a := last), counter, 0, 0)
              .(f := LastDecF(e.f), q := false, memptr := mp),
            ws, 6 * (n - 1))
  }

  /** `n` copies of one byte from `dst` up. */
  function FillStores(dst: Addr, v: bv8, i: nat, n: nat): (ws: seq<Store>)
    requires i <= n
    ensures |ws| == n - i
    decreases n - i
  {
    if i == n then [] else [Store(Wrap(dst + i), v)] + FillStores(dst, v, i + 1, n)
  }

  /** z80_jit_loop_fill. */
  function LoopFill(counter: bv8, back: Back, head: Addr, e: Regs): FoldOut {
    var n := Iterations(GetReg8(e, counter, 0));
    FoldOut(SetReg8(e.(hl := Wrap(e.hl + n)), counter, 0, 0)
              .(f := LastDecF(e.f), q := false, memptr := if back == BackJp || n >= 2 then head else e.memptr),
            FillStores(e.hl, e.a, 0, n), 4 * (n - 1))
  }

  /** The three ways out of the filtered copy. */
  datatype FilterExit = BelowLow | AtSentinel | CountedDown

  datatype FilterRun = FilterRun(hl: Addr, de: Addr, b: bv8, c: bv8, a: bv8, writes: seq<Store>, executed: nat,
      exit: FilterExit)

  /** The byte at `de` under the mask. */
  function MaskedByte(m: Memory, de: Addr, mask: bv8): bv8 { Rd(m, de) & mask }

  predicate Below(a: bv8, lo: bv8) { a < lo }

  /** The helper's loop, from the byte at `de` on. */
  function FilterLoop(spec: FilterSpec, m: Memory, hl: Addr, de: Addr, b: bv8, c: bv8): (r: FilterRun)
    requires spec.Filter?
    ensures r.executed >= 4
    decreases Iterations(c)
  {
    var a := MaskedByte(m, de, spec.mask);
    if Below(a, spec.lo) then FilterRun(hl, de, b, c, a, [], 4, BelowLow)
    else if a == spec.sen then FilterRun(hl, de, b, c, a, [], 6, AtSentinel)
    else if c == 1 then FilterRun(Wrap(hl + 1), Wrap(de + 1), b + 1, 0, a, [Store(hl, a)], 12, CountedDown)
    else
      FewerIterations(c);
      var rest := FilterLoop(spec, m[hl := a], Wrap(hl + 1), Wrap(de + 1), b + 1, c - 1);
      rest.(writes := [Store(hl, a)] + rest.writes, executed := rest.executed + 12)
  }

  lemma FewerIterations(c: bv8)
    requires c != 1
    ensures Iterations(c - 1) == Iterations(c) - 1
  {
    if c != 0 {
      assert (c - 1) as int == c as int - 1;
    }
  }

  /** F at each exit: the last CP's, or the last DEC C's with CP's carry. */
  function FilterF(spec: FilterSpec, exit: FilterExit, a: bv8): bv8
    requires spec.Filter?
  {
    match exit
    case BelowLow => SubFlags(a, spec.lo, a - spec.lo, spec.lo)
    case AtSentinel => SubFlags(a, spec.sen, a - spec.sen, spec.sen)
    case CountedDown => CountedDownF(a, spec.sen)
  }

  function CountedDownF(a: bv8, sen: bv8): bv8 { When(Below(a, sen), FLAG_C) | FtDec(0) }

  function FilterRegs(spec: FilterSpec, x: FilterRun, head: Addr, exit: Addr, e: Regs): Regs
    requires spec.Filter?
  {
    e.(hl := x.hl, de := x.de, bc := Word(x.b, x.c), a := x.a, f := FilterF(spec, x.exit, x.a), q := false,
       memptr := if x.exit == CountedDown then head else exit)
  }

  /** z80_jit_loop_filtercopy. */
  function LoopFilter(spec: FilterSpec, head: Addr, exit: Addr, e: Regs, m: Memory): FoldOut
    requires spec.Filter?
  {
    var x := FilterLoop(spec, m, e.hl, e.de, Hi(e.bc), Lo(e.bc));
    FoldOut(FilterRegs(spec, x, head, exit, e), x.writes, x.executed as int - 12)
  }
}
