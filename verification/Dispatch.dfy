/** The dispatch loop (dbt/dbt_common.c, dbt_run) over the cache, the code buffer and the guest. */
module Dispatch {
  import opened Bits
  import opened Decoder
  import opened Interp
  import opened Emitter
  import opened Folds
  import opened Translator
  import opened BlockCache

  // ---- static edges of emitted code ----

  datatype Arc = Arc(slot: nat, target: Addr)

  /** Does the backend pair CALLs with RETs on the host stack?  Left open: what is proved holds either way. */
  const USE_RAS: bool

  /** The edge of a CALL and, with the return-address stack, the edge of its landing code. */
  function CallArcs(d: Decoded, after: Addr, slot: nat): seq<Arc> {
    [Arc(slot, d.imm16)] + if USE_RAS then [Arc(slot + 1, after)] else []
  }

  /** Where a conditional's taken arm goes, when that is known at translation time. */
  function TakenArcs(d: Decoded, after: Addr, slot: nat): seq<Arc> {
    if d.ty == Branch(RetCc) then []
    else if d.ty == Branch(JrCc) || d.ty == Branch(Djnz) then [Arc(slot, Wrap(after + Signed(d.disp)))]
    else if d.ty == Branch(CallCc) then CallArcs(d, after, slot)
    else [Arc(slot, d.imm16)]
  }

  /** The edges emitted at the end of a block: the not-taken one first. */
  function EnderArcs(d: Decoded, after: Addr, slot: nat): seq<Arc> {
    if d.ty == Branch(JpNn) then [Arc(slot, d.imm16)]
    else if d.ty == Branch(CallNn) then CallArcs(d, after, slot)
    else if d.ty == Branch(JrE) then [Arc(slot, Wrap(after + Signed(d.disp)))]
    else if IsCondEnder(d) then [Arc(slot, after)] + TakenArcs(d, after, slot + 1)
    else []
  }

  function TailArcs(code: seq<Chunk>): seq<Arc> {
    if code == [] then []
    else (if code[0].CEnder? then EnderArcs(code[0].d, code[0].after, code[0].slot)
          else if code[0].CTail? then [Arc(code[0].slot, code[0].pc)] else []) + TailArcs(code[1..])
  }

  /** The side exits' edges, emitted after the block. */
  function SideArcs(code: seq<Chunk>): seq<Arc> {
    if code == [] then []
    else (if code[0].CSide? then TakenArcs(code[0].d, code[0].after, code[0].slot) else []) + SideArcs(code[1..])
  }

  function Arcs(code: seq<Chunk>): seq<Arc> { TailArcs(code) + SideArcs(code) }

  // ---- the system ----

  /** A block in the code buffer. */
  datatype Translation = Translation(pc: Addr, ops: seq<Decoded>)

  function CodeFor(t: Translation): seq<Chunk> { EmitBlock(t.pc, t.ops) }

  /** Where control is: in dbt_run's loop, or at the first host instruction of an emitted block. */
  datatype Where = AtDispatch | InCode(native: nat)

  datatype Sys = Sys(st: State, cache: Cache, buf: seq<Translation>, where: Where)

  function EmitEdges(c: Cache, native: nat, arcs: seq<Arc>): (r: Cache)
    requires Shaped(c)
    ensures Shaped(r)
    decreases |arcs|
  {
    if arcs == [] then c else EmitEdges(EmitEdge(c, arcs[0].target, Site(native, arcs[0].slot)), native, arcs[1..])
  }

  function BlockOps(m: Memory, pc: Addr): seq<Decoded> { OpsFrom(m, pc, pc, 0) }

  /** dbt_translate_block and the dbt_cache_insert that follows; `full` says that the code buffer has no room
      left, which first wipes the cache and rewinds the buffer. */
  function Translate(sys: Sys, full: bool): (r: Sys)
    requires Shaped(sys.cache)
    ensures Shaped(r.cache) && r.st == sys.st
  {
    var pc := sys.st.regs.pc;
    var c0 := if full then EmptyCache(sys.cache.lastBytes) else sys.cache;
    var buf := if full then [] else sys.buf;
    var ops := BlockOps(sys.st.mem, pc);
    if ops == [] then Sys(sys.st, Insert(c0, pc, None), buf, AtDispatch)
    else
      var t := Translation(pc, ops);
      var c1 := EmitEdges(c0, |buf|, Arcs(CodeFor(t)));
      var c2 := MarkBytes(c1, pc, Addresses(pc, ops)[|ops|]);
      Sys(sys.st, Insert(c2, pc, Some(|buf|)), buf + [t], InCode(|buf|))
  }

  function AfterEvent(c: Cache, ev: Event): (r: Cache)
    requires Shaped(c)
    ensures Shaped(r)
  {
    match ev
    case Checked(w) => AfterStore(c, w.addr)
    case Pushed(_) => c
    case Bulk(_, lo, len) => Sweep(c, lo, len)
  }

  function AfterEvents(c: Cache, evs: seq<Event>): (r: Cache)
    requires Shaped(c)
    ensures Shaped(r)
    decreases |evs|
  {
    if evs == [] then c else AfterEvents(AfterEvent(c, evs[0]), evs[1..])
  }

  /** One z80_step, whose stores go through z80_mem_w. */
  function Interpret(host: Host, sys: Sys): (r: Sys)
    requires Shaped(sys.cache)
    ensures Shaped(r.cache)
  {
    var o := Exec(host, Decode(sys.st.mem, sys.st.regs.pc), sys.st.regs, sys.st.mem);
    sys.(st := Step(host, sys.st), cache := AfterEvents(sys.cache, AllChecked(o.writes)), where := AtDispatch)
  }

  /** The inline probe of the cache. */
  function ProbeCache(c: Cache, pc: Addr): Where
    requires Shaped(c)
  {
    if c.entries[pc].Block? then InCode(c.entries[pc].native) else AtDispatch
  }

  function ExitOf(sys: Sys): Exit
    requires sys.where.InCode? && sys.where.native < |sys.buf|
  {
    Run(CodeFor(sys.buf[sys.where.native]), sys.st.regs, sys.st.mem, 0)
  }

  /** Run the block control is in, then follow the edge it leaves through. */
  function RunBlock(sys: Sys): (r: Sys)
    requires Shaped(sys.cache) && sys.where.InCode? && sys.where.native < |sys.buf|
    ensures Shaped(r.cache)
  {
    var x := ExitOf(sys);
    var c := AfterEvents(sys.cache, x.events);
    var st := State(x.regs, Apply(sys.st.mem, StoresOf(x.events)), sys.st.count + x.count);
    var next :=
      if x.edge.Direct?
          && Site(sys.where.native, x.edge.slot) in c.links then InCode(c.links[Site(sys.where.native, x.edge.slot)])
      else ProbeCache(c, x.regs.pc);
    Sys(st, c, sys.buf, next)
  }

  /** One step of the whole system. */
  function Next(host: Host, sys: Sys, full: bool): (r: Sys)
    requires Shaped(sys.cache) && (sys.where.InCode? ==> sys.where.native < |sys.buf|)
    ensures Shaped(r.cache)
  {
    if sys.where.InCode? then RunBlock(sys)
    else
      match sys.cache.entries[sys.st.regs.pc]
      case Block(_, native) => sys.(where := InCode(native))
      case Refused => Interpret(host, sys)
      case Empty =>
        var t := Translate(sys, full);
        if t.where.InCode? then t else Interpret(host, t)
  }

  // ---- what the design takes for granted ----

  /** Pushes, which skip the check, do not land on marked bytes. */
  ghost predicate PushesClear(c: Cache, evs: seq<Event>)
    requires Shaped(c)
    decreases |evs|
  {
    evs != [] ==> (evs[0].Pushed? ==> !c.bitmap[evs[0].w.addr]) && PushesClear(AfterEvent(c, evs[0]), evs[1..])
  }

  /** The interpreter is not about to RET to address 0, which ends the run. */
  ghost predicate NotFinalRet(host: Host, st: State) {
    Decode(st.mem, st.regs.pc).ty == Branch(Ret) ==> Rd16(st.mem, st.regs.sp) != 0
  }
}
