/** Blocks of translated code: their decode, and the theorem that entering one is running the interpreter. */
module Blocks {
  import opened Bits
  import opened Decoder
  import opened Interp
  import opened Emitter
  import opened Folds
  import opened FoldsProof
  import opened Trails
  import opened Translator
  import opened TranslatorProof

  // ---- what the decode loop collects ----

  function CodeOf(m: Memory): Code { (a: Addr) => Decode(m, a) }

  lemma CodeAt(m: Memory, a: Addr)
    ensures CodeOf(m)(a) == Decode(m, a)
  {
    hide Decode;
  }

  lemma FetchCc(m: Memory, at: Addr, s: Shape, prefix: bv8, opcode: bv8, disp: bv8, bytes: nat)
    ensures Fetch(m, at, s, prefix, opcode, disp, bytes).cc == s.cc
  {
    hide Rd, Rd16;
  }

  lemma ShapeCc(op: bv8)
    ensures MainShape(op).cc <= 7
  {
    hide AluOf, LowShape, HighShape;
    LowCc(op);
    HighCc(op);
  }

  lemma PrefixedCc(op: bv8)
    ensures PrefixedShape(op).cc <= 7
  {
    hide MainShape;
    ShapeCc(op);
  }

  lemma EdCc(op: bv8)
    ensures EdShape(op).cc == 0
  {
  }

  lemma IndexedCc(op: bv8)
    ensures IndexedShape(op).cc == 0
  {
    hide AluOf;
  }

  lemma LowCc(op: bv8)
    ensures LowShape(op).cc <= 7
  {
    assert (op >> 3) & 3 <= 7;
  }

  lemma HighCc(op: bv8)
    ensures HighShape(op).cc <= 7
  {
    assert (op >> 3) & 7 <= 7;
  }

  lemma {:induction false} DecodeCc(m: Memory, pc: Addr, prefix: bv8, bytes: nat, room: nat)
    ensures DecodeFrom(m, pc, prefix, bytes, room).cc <= 7
    decreases room
  {
    hide Rd, Fetch, MainShape, EdShape, IndexedShape, PrefixedShape, NeedsDisp, Wrap;
    var op := Rd(m, pc);
    if IsIndexPrefix(op) && room > 0 {
      DecodeCc(m, Wrap(pc + 1), op, bytes + 1, room - 1);
    } else if op == 0xED {
      var ed := Rd(m, Wrap(pc + 1));
      EdCc(ed);
      FetchCc(m, Wrap(pc + 2), EdShape(ed), 0xED, ed, 0, bytes + 1);
    } else if op != 0xCB {
      ShapeCc(op);
      IndexedCc(op);
      PrefixedCc(op);
      FetchCc(m, Wrap(pc + 1), MainShape(op), 0, op, 0, bytes);
      FetchCc(m, Wrap(pc + 2), IndexedShape(op), prefix, op, Rd(m, Wrap(pc + 1)), bytes + 1);
      FetchCc(m, Wrap(pc + 1), PrefixedShape(op), prefix, op, 0, bytes);
    }
  }

  /** The instructions of a block start one after another and decode, in `m`, to what the block holds. */
  ghost predicate OpsMatch(m: Memory, pc: Addr, ops: seq<Decoded>)
    decreases |ops|
  {
    ops != [] ==> Decode(m, pc) == ops[0] && OpsMatch(m, Wrap(pc + ops[0].bytes), ops[1..])
  }

  /** Putting one instruction in front. */
  lemma LaidCons(code: Code, pc: Addr, d: Decoded, ops: seq<Decoded>, at: seq<Addr>)
    requires Laid(code, ops, at) && at[0] == Wrap(pc + d.bytes) && code(pc) == d
    ensures Laid(code, [d] + ops, [pc] + at)
  {
    hide Wrap;
    var o, a := [d] + ops, [pc] + at;
    forall k | 0 <= k < |o| ensures a[k + 1] == Wrap(a[k] + o[k].bytes) && code(a[k]) == o[k] {
      if k > 0 {
        assert a[k + 1] == at[k] && a[k] == at[k - 1] && o[k] == ops[k - 1];
        assert at[k - 1 + 1] == Wrap(at[k - 1] + ops[k - 1].bytes) && code(at[k - 1]) == ops[k - 1];
      }
    }
  }

  lemma {:induction false} MatchLaid(m: Memory, pc: Addr, ops: seq<Decoded>)
    requires OpsMatch(m, pc, ops)
    ensures Laid(CodeOf(m), ops, Addresses(pc, ops))
    decreases |ops|
  {
    hide Decode, Wrap, CodeOf;
    if ops != [] {
      CodeAt(m, pc);
      var next := Wrap(pc + ops[0].bytes);
      MatchLaid(m, next, ops[1..]);
      hide Laid;
      LaidCons(CodeOf(m), pc, ops[0], ops[1..], Addresses(next, ops[1..]));
      assert [ops[0]] + ops[1..] == ops;
    }
  }

  lemma {:induction false} OpsFromMatch(m: Memory, start: Addr, pc: Addr, n: nat)
    requires n <= MAX_BLOCK_INSNS
    ensures var ops := OpsFrom(m, start, pc, n);
            OpsMatch(m, pc, ops) && BlockShape(ops) && |ops| <= MAX_BLOCK_INSNS - n
    decreases MAX_BLOCK_INSNS - n
  {
    hide Decode, CanTranslate, Wrap;
    var d := Decode(m, pc);
    var after := Wrap(pc + d.bytes);
    if n < MAX_BLOCK_INSNS && CanTranslate(d) {
      assert d.cc <= 7 by { DecodeIsFrom(m, pc); DecodeCc(m, pc, 0, 1, MAX_PREFIX); }
      if Stops(d, start, after) {
        assert [d][1..] == [];
      } else {
        OpsFromMatch(m, start, after, n + 1);
        var rest := OpsFrom(m, start, after, n + 1);
        assert ([d] + rest)[1..] == rest;
      }
    }
  }

  lemma DecodeIsFrom(m: Memory, pc: Addr)
    ensures Decode(m, pc) == DecodeFrom(m, pc, 0, 1, MAX_PREFIX)
  {
    hide DecodeFrom;
  }

  // ---- the bytes of a block ----

  function Span(ops: seq<Decoded>): nat { if ops == [] then 0 else ops[0].bytes + Span(ops[1..]) }

  lemma {:induction false} SpanBound(m: Memory, pc: Addr, ops: seq<Decoded>)
    requires OpsMatch(m, pc, ops)
    ensures |ops| <= Span(ops) <= 8 * |ops|
    decreases |ops|
  {
    hide Decode, Wrap;
    if ops != [] {
      DecodeIsLocal(m, m, pc);
      SpanBound(m, Wrap(pc + ops[0].bytes), ops[1..]);
    }
  }

  /** The end address is the start plus the span. */
  lemma {:induction false} EndAddress(pc: Addr, ops: seq<Decoded>)
    ensures Addresses(pc, ops)[|ops|] == Wrap(pc + Span(ops))
    decreases |ops|
  {
    if ops != [] {
      hide Wrap;
      WrapAdd(pc, ops[0].bytes, Span(ops[1..]));
      EndAddress(Wrap(pc + ops[0].bytes), ops[1..]);
    } else {
      assert Wrap(pc) == pc;
    }
  }

  lemma SameBytesTail(m1: Memory, m2: Memory, pc: Addr, n: nat, k: nat)
    requires SameBytes(m1, m2, pc, n + k) && n + k < 0x1_0000
    ensures SameBytes(m1, m2, pc, n) && SameBytes(m1, m2, Wrap(pc + n), k)
  {
    forall a: Addr | Wrap(a - Wrap(pc + n)) < k
      ensures Rd(m1, a) == Rd(m2, a)
    {
      hide Rd;
      InTail(a, pc, n, k);
      assert Wrap(a - pc) < n + k;
    }
  }

  lemma InTail(a: Addr, pc: Addr, n: nat, k: nat)
    requires Wrap(a - Wrap(pc + n)) < k && n + k < 0x1_0000
    ensures Wrap(a - pc) < n + k
  {
    var x := Wrap(a - Wrap(pc + n));
    assert Wrap(x + n) == Wrap(a - pc);
  }

  /** Block locality: as long as the bytes of its span keep their values, a block's instructions are what
      memory decodes to, whatever happens outside the span (the instruction that ended decoding included). */
  lemma {:induction false} MatchLocal(m1: Memory, m2: Memory, pc: Addr, ops: seq<Decoded>)
    requires OpsMatch(m1, pc, ops) && SameBytes(m1, m2, pc, Span(ops)) && |ops| <= MAX_BLOCK_INSNS
    ensures OpsMatch(m2, pc, ops)
    decreases |ops|
  {
    hide Decode, Wrap, SameBytes;
    if ops != [] {
      var n := ops[0].bytes;
      SpanBound(m1, Wrap(pc + n), ops[1..]);
      DecodeIsLocal(m1, m1, pc) by { SameSelf(m1, pc, n); }
      SameBytesTail(m1, m2, pc, n, Span(ops[1..]));
      DecodeIsLocal(m1, m2, pc);
      MatchLocal(m1, m2, Wrap(pc + n), ops[1..]);
    }
  }

  lemma SameSelf(m: Memory, pc: Addr, n: nat)
    ensures SameBytes(m, m, pc, n)
  {
  }

  lemma MatchCons(m: Memory, pc: Addr, ops: seq<Decoded>)
    requires OpsMatch(m, pc, ops) && ops != []
    ensures Decode(m, pc) == ops[0] && OpsMatch(m, Wrap(pc + ops[0].bytes), ops[1..])
  {
    hide Decode, Wrap;
  }

  /** The decode loop over memory that agrees on a block's span decodes at least that block: its op list is a
      prefix, and equal when the spans are. */
  lemma {:induction false} OpsPrefix(m1: Memory, m2: Memory, start: Addr, pc: Addr, n: nat)
    requires n <= MAX_BLOCK_INSNS && SameBytes(m1, m2, pc, Span(OpsFrom(m1, start, pc, n)))
    ensures OpsFrom(m1, start, pc, n) <= OpsFrom(m2, start, pc, n)
    decreases MAX_BLOCK_INSNS - n
  {
    hide Decode, CanTranslate, Wrap, SameBytes, Stops, OpsMatch, BlockShape;
    var ops := OpsFrom(m1, start, pc, n);
    OpsFromMatch(m1, start, pc, n);
    if ops != [] {
      MatchCons(m1, pc, ops);
      var d := ops[0];
      SpanBound(m1, Wrap(pc + d.bytes), ops[1..]);
      DecodeIsLocal(m1, m1, pc) by { SameSelf(m1, pc, d.bytes); }
      SameBytesTail(m1, m2, pc, d.bytes, Span(ops[1..]));
      DecodeIsLocal(m1, m2, pc);
      if !Stops(d, start, Wrap(pc + d.bytes)) {
        assert ops[1..] == OpsFrom(m1, start, Wrap(pc + d.bytes), n + 1);
        OpsPrefix(m1, m2, start, Wrap(pc + d.bytes), n + 1);
      }
    }
  }

  // ---- entering a block ----

  /** What is fixed about a block once it is translated. */
  ghost predicate GoodOps(ops: seq<Decoded>) { ops != [] && |ops| <= MAX_BLOCK_INSNS && BlockShape(ops) }

  /** Main theorem of the translator.  Entering the emitted code of a block whose instructions are what memory
      decodes to leaves, at whichever exit is taken, exactly the state the interpreter has after the number of
      instructions the exit reports: registers, all eight bits of F, memptr, q, memory and count.  On the way the
      interpreter stays on the block's instructions and stores only where the exit's events say. */
  lemma BlockSound(host: Host, ops: seq<Decoded>, st: State)
    requires GoodOps(ops) && OpsMatch(st.mem, st.regs.pc, ops)
    ensures var x := Run(EmitBlock(st.regs.pc, ops), st.regs, st.mem, 0);
            x.count >= 1 && Reaches(host, CodeOf(st.mem), st, x, x.count, Inside(Addresses(st.regs.pc, ops)))
  {
    hide Run, EmitFrom, Reaches, FrozenSteps, LiveAt, MemptrLiveAt, CodeOf, OpsMatch, Laid, BlockShape, Agree, Inside;
    MatchLaid(st.mem, st.regs.pc, ops);
    var at := Addresses(st.regs.pc, ops);
    FullAgrees(st.regs.f, st.regs.f, LiveAt(ops, 0));
    RunSound(host, CodeOf(st.mem), ops, at, 0, Runtime, QClear, st.regs, st, 0);
  }

  /** Each instruction of the run still decodes, when it is reached, to what it decoded to at the start. */
  ghost predicate Undisturbed(host: Host, st: State, n: nat) {
    forall j :: 0 <= j < n ==>
      var t := FrozenSteps(host, CodeOf(st.mem), st, j);
      Decode(t.mem, t.regs.pc) == Decode(st.mem, t.regs.pc)
  }

  lemma {:induction false} FrozenIsSteps(host: Host, st: State, j: nat, n: nat)
    requires j <= n && Undisturbed(host, st, n)
    ensures Steps(host, FrozenSteps(host, CodeOf(st.mem), st, j), n - j) == FrozenSteps(host, CodeOf(st.mem), st, n)
    decreases n - j
  {
    hide Decode, ExecAt;
    if j < n {
      var t := FrozenSteps(host, CodeOf(st.mem), st, j);
      FrozenAdd(host, CodeOf(st.mem), st, j, 1);
      FrozenOne(host, CodeOf(st.mem), t);
      assert Step(host, t) == FrozenSteps(host, CodeOf(st.mem), st, j + 1);
      FrozenIsSteps(host, st, j + 1, n);
    }
  }

  lemma FrozenNone(host: Host, code: Code, st: State)
    ensures FrozenSteps(host, code, st, 0) == st
  {
    hide ExecAt;
  }

  /** With undisturbed code, an exit is the real interpreter's state. */
  lemma BlockIsSteps(host: Host, ops: seq<Decoded>, st: State, x: Exit, n: nat)
    requires GoodOps(ops) && OpsMatch(st.mem, st.regs.pc, ops)
    requires x == Run(EmitBlock(st.regs.pc, ops), st.regs, st.mem, 0) && n == x.count && Undisturbed(host, st, n)
    ensures n >= 1
    ensures var t := Steps(host, st, n);
            && t.regs == x.regs && t.mem == Apply(st.mem, StoresOf(x.events))
            && t.count == st.count + n - (if x.edge == Return && x.regs.pc == 0 then 1 else 0)
  {
    hide Run, EmitBlock, OpsMatch, Undisturbed, GoodOps, FrozenSteps, Steps, Apply, StoresOf, CodeOf, Trail, Inside;
    BlockSound(host, ops, st);
    FrozenIsSteps(host, st, 0, n);
    FrozenNone(host, CodeOf(st.mem), st);
  }

  // ---- stores that miss the block ----

  /** No store lands on the ring interval [pc, pc + span). */
  ghost predicate MissesBlock(ws: seq<Store>, pc: Addr, span: nat) {
    forall i :: 0 <= i < |ws| ==> Wrap(ws[i].addr - pc) >= span
  }

  /** The bytes of each instruction are bytes of the block. */
  lemma {:induction false} OpInSpan(pc: Addr, ops: seq<Decoded>, k: nat, a: Addr)
    requires k < |ops| && Span(ops) < 0x1_0000 && Wrap(a - Addresses(pc, ops)[k]) < ops[k].bytes
    ensures Wrap(a - pc) < Span(ops)
    decreases |ops|
  {
    hide Wrap;
    if k > 0 {
      var next := Wrap(pc + ops[0].bytes);
      OpInSpan(next, ops[1..], k - 1, a);
      InTail(a, pc, ops[0].bytes, Span(ops[1..]));
    }
  }

  /** Memory that changed only where stores that miss the block went decodes each of its instructions as before. */
  lemma StillDecodes(m: Memory, m1: Memory, ws: seq<Store>, pc: Addr, ops: seq<Decoded>, k: nat)
    requires OpsMatch(m, pc, ops) && |ops| <= MAX_BLOCK_INSNS && k < |ops| && OnlyHit(m, m1, ws)
             && MissesBlock(ws, pc, Span(ops))
    ensures Decode(m1, Addresses(pc, ops)[k]) == Decode(m, Addresses(pc, ops)[k])
  {
    hide Decode, Rd, Wrap, CodeOf, Addresses, OpsMatch, Span;
    SpanBound(m, pc, ops);
    MatchLaid(m, pc, ops);
    var at := Addresses(pc, ops);
    CodeAt(m, at[k]);
    forall a: Addr | Wrap(a - at[k]) < ops[k].bytes ensures Rd(m, a) == Rd(m1, a) {
      OpInSpan(pc, ops, k, a);
      assert !Hits(ws, a);
    }
    DecodeIsLocal(m, m1, at[k]);
  }

  lemma InsideIndex(at: seq<Addr>, a: Addr) returns (k: nat)
    requires at != [] && a in Inside(at)
    ensures k < |at| - 1 && at[k] == a
  {
    k :| 0 <= k < |at| - 1 && at[k] == a;
  }

  /** A block none of whose stores lands on its own bytes runs undisturbed. */
  lemma MissingIsUndisturbed(host: Host, ops: seq<Decoded>, st: State, x: Exit, n: nat)
    requires GoodOps(ops) && OpsMatch(st.mem, st.regs.pc, ops)
    requires x == Run(EmitBlock(st.regs.pc, ops), st.regs, st.mem, 0) && n == x.count
    requires MissesBlock(StoresOf(x.events), st.regs.pc, Span(ops))
    ensures Undisturbed(host, st, n)
  {
    hide Run, EmitBlock, OpsMatch, BlockShape, FrozenSteps, Apply, StoresOf, CodeOf, Decode, Inside, Addresses, Span,
         MissesBlock, OnlyHit;
    BlockSound(host, ops, st);
    var at, ws := Addresses(st.regs.pc, ops), StoresOf(x.events);
    forall j | 0 <= j < n
      ensures var t := FrozenSteps(host, CodeOf(st.mem), st, j);
              Decode(t.mem, t.regs.pc) == Decode(st.mem, t.regs.pc)
    {
      var t := FrozenSteps(host, CodeOf(st.mem), st, j);
      var k := InsideIndex(at, t.regs.pc);
      StillDecodes(st.mem, t.mem, ws, st.regs.pc, ops, k);
    }
  }
}
