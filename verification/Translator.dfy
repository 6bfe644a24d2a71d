/** dbt_translate_block (dbt/dbt_a64.c): decode a superblock, find live flag bits backwards, emit it. */
module Translator {
  import opened Bits
  import opened Decoder
  import opened Interp
  import opened Emitter
  import opened Folds

  const MAX_BLOCK_INSNS: nat := 64
  const SUPERBLOCK_BYTE_CAP: nat := 48

  predicate IsUncondEnder(d: Decoded) { d.ty.Branch? && !IsCond(d.ty.branch) }
  predicate IsCondEnder(d: Decoded) { d.ty.Branch? && IsCond(d.ty.branch) }

  // ---- phase 1: decode ----

  /** Does decoding stop after `d`, which ends at `after`? */
  predicate Stops(d: Decoded, start: Addr, after: Addr) {
    IsUncondEnder(d) || (IsCondEnder(d) && Wrap(after - start) >= SUPERBLOCK_BYTE_CAP)
  }

  /** The instructions decoded from `pc` on, when `n` are already in the block. */
  function OpsFrom(m: Memory, start: Addr, pc: Addr, n: nat): seq<Decoded>
    requires n <= MAX_BLOCK_INSNS
    decreases MAX_BLOCK_INSNS - n
  {
    var d := Decode(m, pc);
    var after := Wrap(pc + d.bytes);
    if n == MAX_BLOCK_INSNS || !CanTranslate(d) then []
    else if Stops(d, start, after) then [d]
    else [d] + OpsFrom(m, start, after, n + 1)
  }

  /** Start address of each instruction, then the end of the block. */
  function Addresses(pc: Addr, ops: seq<Decoded>): (at: seq<Addr>)
    ensures |at| == |ops| + 1 && at[0] == pc
    decreases |ops|
  {
    if ops == [] then [pc] else [pc] + Addresses(Wrap(pc + ops[0].bytes), ops[1..])
  }

  // ---- phase 2: liveness ----

  /** F bits live just before instruction `i`; everything is live at the end of the block. */
  function LiveAt(ops: seq<Decoded>, i: nat): bv8
    requires i <= |ops|
    decreases |ops| - i
  {
    if i == |ops| then 0xFF else LiveBefore(ops[i], LiveAt(ops, i + 1))
  }

  function MemptrLiveAt(ops: seq<Decoded>, i: nat): bool
    requires i <= |ops|
    decreases |ops| - i
  {
    if i == |ops| then true else MemptrLiveBefore(ops[i], MemptrLiveAt(ops, i + 1))
  }

  // ---- phase 3: emit ----

  /** One unit of emitted code.  `insns` is the instruction count of the path that ends there; slots number the
      static edges of a block. */
  datatype Chunk =
    | COp(d: Decoded, prevQ: PrevQ, fmask: bv8, mstore: bool)
    | CSide(d: Decoded, after: Addr, insns: nat, slot: nat)
    | CEnder(d: Decoded, after: Addr, insns: nat, slot: nat)
    | CTail(pc: Addr, insns: nat, qmode: QMode, slot: nat)
    | CCountdown(kind: Fuse, reg: bv8, head: Addr)
    | CCopy(counter: bv8, fromDe: bool, back: Back, head: Addr)
    | CFill(counter: bv8, back: Back, head: Addr)
    | CFilter(mask: bv8, lo: bv8, sen: bv8, head: Addr, exit: Addr)

  /** The q mode emit_op reports; it depends on the instruction only. */
  function QModeOf(d: Decoded): QMode {
    match d.ty
    case Flag(op) =>
      if (op.Daa? && BACKEND.AArch64?) || op.Ldir? || op.Lddr? then QKeep
      else if op.Rlca? || op.Rrca? || op.Rla? || op.Rra? || (op.Cb? && d.imm8 >> 6 >= 2) then QClear
      else QSet
    case Ptr(op) => if op.AddHlRr? then QSet else QClear
    case _ => QClear
  }

  /** One step of the emit loop: how many instructions it consumes and what it emits. */
  datatype Piece = Piece(chunk: Chunk, used: nat, prevQ: PrevQ, qmode: QMode, last: bool)

  function FoldPiece(chunk: Chunk, used: nat): Piece { Piece(chunk, used, Known(false), QClear, false) }

  function PieceAt(ops: seq<Decoded>, at: seq<Addr>, i: nat, prevQ: PrevQ, fmask: bv8, mstore: bool): (p: Piece)
    requires i < |ops| && |at| == |ops| + 1
    ensures 1 <= p.used && i + p.used <= |ops|
  {
    var d := ops[i];
    var head := Wrap(at[i + 1] - d.bytes);
    var filter := FilterKind(ops, at, i);
    var copy := CopyFillKind(ops, at, i);
    var fuse := CountdownKind(ops, at, i);
    if filter.Filter? then FoldPiece(CFilter(filter.mask, filter.lo, filter.sen, head, at[i + 12]), 12)
    else if copy.CopyLoop? then FoldPiece(CCopy(copy.counter, copy.fromDe, copy.back, head), FoldLength(copy))
    else if copy.FillLoop? then FoldPiece(CFill(copy.counter, copy.back, head), FoldLength(copy))
    else if fuse != FuseNone then
      FoldPiece(CCountdown(fuse, if fuse == FuseDjnz then 0 else d.reg1, head), if fuse == FuseDjnz then 1 else 2)
    else if IsUncondEnder(d) || (IsCondEnder(d) && i == |ops| - 1) then
      Piece(CEnder(d, at[i + 1], |ops|, 3 * i), 1, Known(false), QClear, true)
    else if IsCondEnder(d) then FoldPiece(CSide(d, at[i + 1], i + 1, 3 * i + 1), 1)
    else Piece(COp(d, prevQ, fmask, mstore), 1, PrevQAfter(QModeOf(d)), QModeOf(d), false)
  }

  /** The code emitted for instructions `i` on. */
  function EmitFrom(ops: seq<Decoded>, at: seq<Addr>, i: nat, prevQ: PrevQ, qmode: QMode): seq<Chunk>
    requires i <= |ops| && |at| == |ops| + 1
    decreases |ops| - i
  {
    if i == |ops| then [CTail(at[i], |ops|, qmode, 3 * i)]
    else
      var p := PieceAt(ops, at, i, prevQ, LiveAt(ops, i + 1), MemptrStored(ops[i], MemptrLiveAt(ops, i + 1)));
      [p.chunk] + if p.last then [] else EmitFrom(ops, at, i + p.used, p.prevQ, p.qmode)
  }

  /** Emitted code of a block. */
  function EmitBlock(pc: Addr, ops: seq<Decoded>): seq<Chunk> {
    EmitFrom(ops, Addresses(pc, ops), 0, Runtime, QClear)
  }

  // ---- running emitted code ----

  /** What emitted code does to memory, and whether it looks at the code bitmap: a store that checks it, a push
      that does not, a helper that stores a range and then sweeps it. */
  datatype Event =
    | Checked(w: Store)
    | Pushed(w: Store)
    | Bulk(ws: seq<Store>, lo: Addr, len: nat)

  function EventStores(ev: Event): seq<Store> {
    match ev case Checked(w) => [w] case Pushed(w) => [w] case Bulk(ws, _, _) => ws
  }

  function StoresOf(evs: seq<Event>): seq<Store> {
    if evs == [] then [] else EventStores(evs[0]) + StoresOf(evs[1..])
  }

  function AllChecked(ws: seq<Store>): seq<Event> { seq(|ws|, i requires 0 <= i < |ws| => Checked(ws[i])) }
  function AllPushed(ws: seq<Store>): seq<Event> { seq(|ws|, i requires 0 <= i < |ws| => Pushed(ws[i])) }

  /** First byte and length of what LDIR or LDDR writes. */
  function BlockLow(op: FlagOp, de: Addr, bc: Addr): Addr { if op.Ldir? then de else Wrap(de - (bc - 1)) }

  function EventsOf(d: Decoded, e: Regs, ws: seq<Store>): seq<Event> {
    if d.ty == Stack(PushRr) || d.ty == Ptr(ExSpHl) then AllPushed(ws)
    else if d.ty == Flag(Ldir) || d.ty == Flag(Lddr) then [Bulk(ws, BlockLow(d.ty.flag, e.de, e.bc), e.bc)]
    else AllChecked(ws)
  }

  /** How control leaves: through a patchable static edge, through the probe, or through the tail of RET
      or RET cc. */
  datatype Edge = Direct(slot: nat) | Probe | Return | ReturnCc

  datatype Exit = Exit(regs: Regs, events: seq<Event>, count: int, edge: Edge)

  /** Tail prologue: q. */
  function TailQ(e: Regs, qmode: QMode): Regs {
    match qmode case QClear => e.(q := false) case QKeep => e case QSet => e.(q := true)
  }

  /** The inline part of a conditional: memptr of JP cc and CALL cc, DJNZ's decrement. */
  function SideInline(d: Decoded, e: Regs): Regs {
    if d.ty == Branch(JpCc) || d.ty == Branch(CallCc) then e.(memptr := d.imm16)
    else if d.ty == Branch(Djnz) then e.(bc := SetHi(e.bc, Hi(e.bc) - 1))
    else e
  }

  /** The host's test of a condition: one flag bit, and the sense in the code's low bit. */
  predicate HostTest(cc: bv8, f: bv8) {
    var sel := (cc >> 1) & 3;
    var mask := if sel == 0 then FLAG_Z else if sel == 1 then FLAG_C else if sel == 2 then FLAG_PV else FLAG_S;
    (f & mask != 0) == (cc & 1 != 0)
  }

  predicate SideTaken(d: Decoded, e: Regs) {
    if d.ty == Branch(Djnz) then Hi(e.bc) != 0 else HostTest(d.cc, e.f)
  }

  function PushReturn(e: Regs, after: Addr, target: Addr, edge: Edge): Exit {
    var sp := Wrap(e.sp - 2);
    Exit(e.(sp := sp, pc := target), AllPushed([Store(sp, Lo(after)), Store(Wrap(sp + 1), Hi(after))]), 0, edge)
  }

  function PopReturn(e: Regs, m: Memory, edge: Edge): Exit {
    var target := Word(Rd(m, Wrap(e.sp + 1)), Rd(m, e.sp));
    Exit(e.(sp := Wrap(e.sp + 2), memptr := target, pc := target), [], 0, edge)
  }

  /** emit_cond_taken_tail. */
  function TakenTail(d: Decoded, after: Addr, slot: nat, e: Regs, m: Memory): Exit {
    var target := Wrap(after + Signed(d.disp));
    if d.ty == Branch(JpCc) then Exit(e.(pc := d.imm16), [], 0, Direct(slot))
    else if d.ty == Branch(JrCc)
        || d.ty == Branch(Djnz) then Exit(e.(memptr := target, pc := target), [], 0, Direct(slot))
    else if d.ty == Branch(CallCc) then PushReturn(e, after, d.imm16, Direct(slot))
    else PopReturn(e, m, ReturnCc)
  }

  /** emit_branch_ender. */
  function EnderTail(d: Decoded, after: Addr, slot: nat, e: Regs, m: Memory): Exit {
    if d.ty == Branch(JpNn) then Exit(e.(memptr := d.imm16, pc := d.imm16), [], 0, Direct(slot))
    else if d.ty == Branch(JpHl) then Exit(e.(pc := e.hl), [], 0, Probe)
    else if d.ty == Branch(JrE) then
      Exit(e.(memptr := Wrap(after + Signed(d.disp)), pc := Wrap(after + Signed(d.disp))), [], 0, Direct(slot))
    else if d.ty == Branch(CallNn) then PushReturn(e.(memptr := d.imm16), after, d.imm16, Direct(slot))
    else if d.ty == Branch(Ret) then PopReturn(e, m, Return)
    else
      var e1 := SideInline(d, e);
      if SideTaken(d, e1) then TakenTail(d, after, slot + 1, e1, m) else Exit(e1.(pc := after), [], 0, Direct(slot))
  }

  predicate IsFold(c: Chunk) { c.CCountdown? || c.CCopy? || c.CFill? || c.CFilter? }

  function FoldRun(c: Chunk, e: Regs, m: Memory): FoldOut
    requires IsFold(c)
  {
    match c
    case CCountdown(kind, reg, head) => Countdown(kind, reg, head, e)
    case CCopy(counter, fromDe, back, head) => LoopCopy(counter, fromDe, back, head, e, m)
    case CFill(counter, back, head) => LoopFill(counter, back, head, e)
    case CFilter(mask, lo, sen, head, exit) => LoopFilter(Filter(mask, lo, sen), head, exit, e, m)
  }

  /** The range a folded loop sweeps after storing. */
  function FoldEvents(c: Chunk, e: Regs, x: FoldOut): seq<Event> {
    if c.CCountdown? then [] else [Bulk(x.writes, if c.CCopy? && !c.fromDe then e.de else e.hl, |x.writes|)]
  }

  /** Run emitted code; `count` is the pending instruction count. */
  function Run(code: seq<Chunk>, e: Regs, m: Memory, count: int): Exit
    decreases |code|
  {
    if code == [] then Exit(e, [], count, Probe)
    else
      var c := code[0];
      if c.COp? then
        var o := EmitOp(c.d, c.prevQ, c.fmask, c.mstore, e, m);
        var rest := Run(code[1..], o.regs, Apply(m, o.writes), count);
        rest.(events := EventsOf(c.d, e, o.writes) + rest.events)
      else if c.CSide? then
        var e1 := SideInline(c.d, e);
        if SideTaken(c.d, e1) then TakenTail(c.d, c.after, c.slot, e1.(q := false), m).(count := count + c.insns)
        else Run(code[1..], e1, m, count)
      else if c.CEnder? then EnderTail(c.d, c.after, c.slot, e.(q := false), m).(count := count + c.insns)
      else if c.CTail? then Exit(TailQ(e, c.qmode).(pc := c.pc), [], count + c.insns, Direct(c.slot))
      else
        var x := FoldRun(c, e, m);
        var rest := Run(code[1..], x.regs, Apply(m, x.writes), count + x.extra);
        rest.(events := FoldEvents(c, e, x) + rest.events)
  }
}
