/** dbt_translate_block's three loops (dbt/dbt_a64.c): decode, backward liveness, emit. */
module TranslateBlock {
  import opened Bits
  import opened Decoder
  import opened Interp
  import opened Emitter
  import opened Folds
  import opened Translator
  import opened TranslatorProof
  import opened BlockCache

  /** Phase 1: collect instructions until one is refused, ends the block, or the block is long enough. */
  method DecodeOps(m: Memory, start: Addr) returns (ops: seq<Decoded>, end: Addr)
    ensures ops == OpsFrom(m, start, start, 0)
    ensures end == Addresses(start, ops)[|ops|]
  {
    hide Decode, CanTranslate, Stops, Wrap, OpsFrom, Addresses;
    ops := [];
    var pc := start;
    var more := true;
    FromStart(m, start);
    while more && |ops| < MAX_BLOCK_INSNS
      invariant |ops| <= MAX_BLOCK_INSNS && Addresses(start, ops)[|ops|] == pc
      invariant ops + (if more then OpsFrom(m, start, pc, |ops|) else []) == OpsFrom(m, start, start, 0)
      decreases more, MAX_BLOCK_INSNS - |ops|
    {
      OpsCons(m, start, pc, |ops|);
      var d := DecodeOne(m, pc);
      if !CanTranslate(d) {
        more := false;
      } else {
        AddressesAppend(start, ops, d);
        pc := Wrap(pc + d.bytes);
        more := !Stops(d, start, pc);
        assert more ==>
            ops + ([d] + OpsFrom(m, start, pc, |ops| + 1)) == (ops + [d]) + OpsFrom(m, start, pc, |ops| + 1);
        ops := ops + [d];
      }
    }
    if more {
      OpsCons(m, start, pc, |ops|);
    }
    end := pc;
  }

  lemma FromStart(m: Memory, start: Addr)
    ensures [] + OpsFrom(m, start, start, 0) == OpsFrom(m, start, start, 0)
    ensures Addresses(start, [])[0] == start
  {
  }

  lemma OpsCons(m: Memory, start: Addr, pc: Addr, n: nat)
    requires n <= MAX_BLOCK_INSNS
    ensures var d := Decode(m, pc);
            var after := Wrap(pc + d.bytes);
            OpsFrom(m, start, pc, n)
            == if n == MAX_BLOCK_INSNS || !CanTranslate(d) then []
               else if Stops(d, start, after) then [d]
               else [d] + OpsFrom(m, start, after, n + 1)
  {
    hide Decode, CanTranslate, Stops, Wrap;
  }

  lemma {:induction false} AddressesAppend(pc: Addr, ops: seq<Decoded>, d: Decoded)
    ensures Addresses(pc, ops + [d])[|ops| + 1] == Wrap(Addresses(pc, ops)[|ops|] + d.bytes)
    decreases |ops|
  {
    hide Wrap;
    if ops == [] {
      assert ops + [d] == [d] && [d][1..] == [];
    } else {
      assert (ops + [d])[1..] == ops[1..] + [d];
      AddressesAppend(Wrap(pc + ops[0].bytes), ops[1..], d);
    }
  }

  /** Phase 2: which F bits, and which memptr stores, the rest of the block can see. */
  method Liveness(ops: seq<Decoded>) returns (fmask: array<bv8>, mstore: array<bool>)
    ensures fresh(fmask) && fresh(mstore) && fmask.Length == mstore.Length == |ops|
    ensures forall i :: 0 <= i < |ops| ==> fmask[i] == LiveAt(ops, i + 1)
    ensures forall i :: 0 <= i < |ops| ==> mstore[i] == MemptrStored(ops[i], MemptrLiveAt(ops, i + 1))
  {
    hide LiveAt, MemptrLiveAt, LiveBefore, MemptrLiveBefore, MemptrStored, FlagEffects, EffectOnMemptr;
    fmask := new bv8[|ops|];
    mstore := new bool[|ops|];
    var live: bv8, mlive := 0xFF, true;
    var i: nat := |ops|;
    LiveStep(ops, i);
    while i > 0
      invariant i <= |ops| && live == LiveAt(ops, i) && mlive == MemptrLiveAt(ops, i)
      invariant forall k :: i <= k < |ops| ==> fmask[k] == LiveAt(ops, k + 1)
      invariant forall k :: i <= k < |ops| ==> mstore[k] == MemptrStored(ops[k], MemptrLiveAt(ops, k + 1))
    {
      i := i - 1;
      LiveStep(ops, i);
      fmask[i] := live;
      live := LiveBefore(ops[i], live);
      mstore[i] := MemptrStored(ops[i], mlive);
      mlive := MemptrLiveBefore(ops[i], mlive);
    }
  }

  lemma LiveStep(ops: seq<Decoded>, i: nat)
    requires i <= |ops|
    ensures LiveAt(ops, i) == if i == |ops| then 0xFF else LiveBefore(ops[i], LiveAt(ops, i + 1))
    ensures MemptrLiveAt(ops, i) == if i == |ops| then true else MemptrLiveBefore(ops[i], MemptrLiveAt(ops, i + 1))
  {
    hide LiveBefore, MemptrLiveBefore;
  }

  /** Phase 3: emit folded loops, branches, side exits and plain instructions, front to back. */
  method Emit(ops: seq<Decoded>, at: seq<Addr>, fmask: array<bv8>, mstore: array<bool>) returns (code: seq<Chunk>)
    requires |at| == |ops| + 1 && fmask.Length == mstore.Length == |ops|
    requires forall i :: 0 <= i < |ops| ==> fmask[i] == LiveAt(ops, i + 1)
    requires forall i :: 0 <= i < |ops| ==> mstore[i] == MemptrStored(ops[i], MemptrLiveAt(ops, i + 1))
    ensures code == EmitFrom(ops, at, 0, Runtime, QClear)
  {
    hide PieceAt, LiveAt, MemptrLiveAt, MemptrStored, EmitFrom;
    code := [];
    var i: nat, prevQ, qmode := 0, Runtime, QClear;
    ghost var all := EmitFrom(ops, at, 0, Runtime, QClear);
    assert [] + all == all;
    while i < |ops|
      invariant i <= |ops| && code + EmitFrom(ops, at, i, prevQ, qmode) == all
    {
      EmitCons(ops, at, i, prevQ, qmode);
      var p := PieceAt(ops, at, i, prevQ, fmask[i], mstore[i]);
      ghost var rest := if p.last then [] else EmitFrom(ops, at, i + p.used, p.prevQ, p.qmode);
      assert code + ([p.chunk] + rest) == (code + [p.chunk]) + rest;
      code := code + [p.chunk];
      if p.last {
        return;
      }
      i, prevQ, qmode := i + p.used, p.prevQ, p.qmode;
    }
    EmitCons(ops, at, i, prevQ, qmode);
    code := code + [CTail(at[i], |ops|, qmode, 3 * i)];
  }

  /** dbt_translate_block on a memory that does not change meanwhile; no instructions means refusal. */
  method Translated(m: Memory, pc: Addr) returns (ops: seq<Decoded>, end: Addr, code: Option<seq<Chunk>>)
    ensures ops == OpsFrom(m, pc, pc, 0) && end == Addresses(pc, ops)[|ops|]
    ensures code == if ops == [] then None else Some(EmitBlock(pc, ops))
  {
    ops, end := DecodeOps(m, pc);
    if ops == [] {
      return ops, end, None;
    }
    var fmask, mstore := Liveness(ops);
    var chunks := Emit(ops, Addresses(pc, ops), fmask, mstore);
    code := Some(chunks);
  }
}
