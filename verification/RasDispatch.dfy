/** The return-address stack inside the dispatcher (dbt/dbt_x64.c): a run that lets host RETs choose where to go on is
    the run that probes the cache at every guest RET. */
module RasDispatch {
  import opened Bits
  import opened Decoder
  import opened Interp
  import opened Emitter
  import opened Folds
  import opened Translator
  import opened TranslatorProof
  import opened BlockCache
  import opened CacheProof
  import opened Dispatch
  import opened DispatchProof
  import Ras

  /** The system and the host stack its emitted code works on. */
  datatype XSys = XSys(sys: Sys, stack: Ras.Stack)

  // ---- landing code ----

  /** The target of the edge in a slot. */
  function ArcTarget(arcs: seq<Arc>, slot: nat): (a: Addr)
    ensures (exists i :: 0 <= i < |arcs| && arcs[i].slot == slot) ==> Arc(slot, a) in arcs
  {
    if arcs == [] then 0 else if arcs[0].slot == slot then arcs[0].target else ArcTarget(arcs[1..], slot)
  }

  /** Where each landing goes on: the address after its CALL. */
  function Landings(buf: seq<Translation>): Ras.Sites {
    (s: Site) => if s.native < |buf| then ArcTarget(Arcs(CodeFor(buf[s.native])), s.slot) else 0
  }

  /** Is this edge of the block the call of a CALL?  Slots come three to an instruction. */
  predicate IsCall(t: Translation, slot: nat) {
    var i := slot / 3;
    i < |t.ops| && ((t.ops[i].ty == Branch(CallNn) && slot % 3 == 0)
        || (t.ops[i].ty == Branch(CallCc) && slot % 3 == 1))
  }

  /** A patchable edge: where it is aimed, or the probe behind it. */
  function FollowEdge(c: Cache, site: Site, pc: Addr): Where
    requires Shaped(c)
  {
    if site in c.links then InCode(c.links[site]) else ProbeCache(c, pc)
  }

  /** A guest RET: the landing code of the call site the host stack names, or the probe. */
  function AfterRet(c: Cache, after: Ras.Sites, r: Ras.Returned, pc: Addr): Where
    requires Shaped(c)
  {
    if r.went.Landed? then FollowEdge(c, r.went.site, after(r.went.site)) else ProbeCache(c, pc)
  }

  // ---- steps ----

  /** Leaving emitted code unwinds the stack, and entering it sets the stack up. */
  function Settled(stack: Ras.Stack, where: Where): Ras.Stack { if where.InCode? then stack else Ras.Entered() }

  /** One step: as the dispatcher does it, except that CALLs push and RETs ask the host stack. */
  function XNext(host: Host, x: XSys, full: bool): XSys
    requires Shaped(x.sys.cache) && (x.sys.where.InCode? ==> x.sys.where.native < |x.sys.buf|)
    requires x.sys.where.InCode? ==> Ras.Valid(Landings(x.sys.buf), x.stack)
  {
    var next := Next(host, x.sys, full);
    if !x.sys.where.InCode? then XSys(next, Ras.Entered())
    else
      var after, native, exit := Landings(x.sys.buf), x.sys.where.native, ExitOf(x.sys);
      if exit.edge.Return? || exit.edge.ReturnCc? then
        var r := Ras.RetTail(x.stack, exit.regs.pc);
        var where := AfterRet(next.cache, after, r, exit.regs.pc);
        XSys(next.(where := where), Settled(r.stack, where))
      else if USE_RAS && exit.edge.Direct? && IsCall(x.sys.buf[native], exit.edge.slot) then
        XSys(next, Settled(Ras.Call(after, x.stack, Site(native, exit.edge.slot + 1)), next.where))
      else XSys(next, Settled(x.stack, next.where))
  }

  ghost predicate XInv(x: XSys) { Inv(x.sys) && Ras.Valid(Landings(x.sys.buf), x.stack) }

  /** A recorded site belongs to the target of its edge. */
  lemma SiteTarget(c: Cache, buf: seq<Translation>, site: Site)
    requires LinkInv(c) && EdgeInv(c, buf) && site in c.links
    ensures var p := Landings(buf)(site);
            site in c.lists[p] && c.entries[p].Block? && c.links[site] == c.entries[p].native
  {
    hide Arcs, CodeFor;
    var p :| 0 <= p < |c.lists| && site in c.lists[p];
    NoStaleLink(c, site, p);
    var arcs := Arcs(CodeFor(buf[site.native]));
    assert Arc(site.slot, p) in arcs;
    var i :| 0 <= i < |arcs| && arcs[i] == Arc(site.slot, p);
    assert arcs[i].slot == site.slot;
    ArcsOf(buf[site.native]);
    SlotTarget(arcs, site.slot, p, ArcTarget(arcs, site.slot));
  }

  /** Landing in the code after a CALL goes where the probe would have gone. */
  lemma LandingIsProbe(c: Cache, buf: seq<Translation>, stack: Ras.Stack, pc: Addr)
    requires LinkInv(c) && EdgeInv(c, buf) && Ras.Valid(Landings(buf), stack)
    ensures var r := Ras.RetTail(stack, pc);
            AfterRet(c, Landings(buf), r, pc) == ProbeCache(c, pc) && Ras.Valid(Landings(buf), r.stack)
                && !r.went.Crashed?
  {
    hide Linked, EdgeInv, Landings;
    Ras.RetKeeps(Landings(buf), stack, pc);
    var r := Ras.RetTail(stack, pc);
    if r.went.Landed? && r.went.site in c.links {
      SiteTarget(c, buf, r.went.site);
    }
  }

  /** With the return-address stack every step is the step without it, and the stack stays sound. */
  lemma XNextIsNext(host: Host, x: XSys, full: bool)
    requires XInv(x) && Admissible(host, x.sys)
    ensures XNext(host, x, full).sys == Next(host, x.sys, full) && XInv(XNext(host, x, full))
  {
    hide Inv, Next, Admissible, Landings, IsCall, ExitOf;
    NextIsSteps(host, x.sys, full);
    Entering(x.sys);
    var next := Next(host, x.sys, full);
    Ras.EnteredValid(Landings(next.buf));
    if x.sys.where.InCode? {
      InCodeNext(host, x.sys, full);
      var after, exit := Landings(x.sys.buf), ExitOf(x.sys);
      if exit.edge.Return? || exit.edge.ReturnCc? {
        InvParts(next);
        LandingIsProbe(next.cache, next.buf, x.stack, exit.regs.pc);
      } else if exit.edge.Direct? {
        Ras.CallKeeps(after, x.stack, Site(x.sys.where.native, exit.edge.slot + 1));
      }
    }
  }

  lemma Entering(sys: Sys)
    requires Inv(sys)
    ensures Shaped(sys.cache) && (sys.where.InCode? ==> sys.where.native < |sys.buf|)
  {
  }

  lemma InvParts(sys: Sys)
    requires Inv(sys)
    ensures LinkInv(sys.cache) && EdgeInv(sys.cache, sys.buf)
  {
  }

  /** Running a block leaves the code buffer alone; after a RET it goes on with the probe. */
  lemma InCodeNext(host: Host, sys: Sys, full: bool)
    requires Inv(sys) && sys.where.InCode?
    ensures Shaped(sys.cache) && sys.where.native < |sys.buf|
    ensures var next, exit := Next(host, sys, full), ExitOf(sys);
            && next.buf == sys.buf
            && (exit.edge.Return? || exit.edge.ReturnCc? ==> next.where == ProbeCache(next.cache, exit.regs.pc))
  {
    hide Linked, CodeInv, EdgeInv, Run, CodeFor, AfterEvents, StoresOf, Apply;
  }

  // ---- CALLs have landings ----

  /** Branches of emitted code know their instruction, by the slots of their edges. */
  ghost predicate Numbered(c: Chunk, ops: seq<Decoded>, at: seq<Addr>)
    requires |at| == |ops| + 1
  {
    && (c.CSide? || c.CEnder? ==> c.slot / 3 < |ops| && c.d == ops[c.slot / 3] && c.after == at[c.slot / 3 + 1])
    && (c.CSide? ==> c.slot % 3 == 1 && IsCondEnder(c.d))
    && (c.CEnder? ==> c.slot % 3 == 0 && c.d.ty.Branch?)
    && (c.CTail? ==> c.slot == 3 * |ops|)
  }

  ghost predicate AllNumbered(code: seq<Chunk>, ops: seq<Decoded>, at: seq<Addr>)
    requires |at| == |ops| + 1
  {
    forall k :: 0 <= k < |code| ==> Numbered(code[k], ops, at)
  }

  lemma PieceNumbered(ops: seq<Decoded>, at: seq<Addr>, i: nat, prevQ: PrevQ, fmask: bv8, mstore: bool)
    requires i < |ops| && |at| == |ops| + 1
    ensures Numbered(PieceAt(ops, at, i, prevQ, fmask, mstore).chunk, ops, at)
  {
    hide FilterKind, CopyFillKind, CountdownKind, Wrap, QModeOf;
  }

  lemma {:induction false} EmitNumbered(ops: seq<Decoded>, at: seq<Addr>, i: nat, prevQ: PrevQ, qmode: QMode)
    requires i <= |ops| && |at| == |ops| + 1
    ensures AllNumbered(EmitFrom(ops, at, i, prevQ, qmode), ops, at)
    decreases |ops| - i
  {
    hide PieceAt, LiveAt, MemptrLiveAt, MemptrStored, EmitFrom, Numbered;
    EmitCons(ops, at, i, prevQ, qmode);
    if i < |ops| {
      var live, mstore := LiveAt(ops, i + 1), MemptrStored(ops[i], MemptrLiveAt(ops, i + 1));
      var p := PieceAt(ops, at, i, prevQ, live, mstore);
      PieceNumbered(ops, at, i, prevQ, live, mstore);
      if !p.last {
        EmitNumbered(ops, at, i + p.used, p.prevQ, p.qmode);
      }
    } else {
      TailNumbered(CTail(at[i], |ops|, qmode, 3 * i), ops, at);
    }
  }

  lemma TailNumbered(c: Chunk, ops: seq<Decoded>, at: seq<Addr>)
    requires |at| == |ops| + 1 && c.CTail? && c.slot == 3 * |ops|
    ensures Numbered(c, ops, at)
  {
  }

  /** An exit through the call edge of a CALL: its landing edge is there, and goes to the address after the CALL. */
  ghost predicate Lands(t: Translation, at: seq<Addr>, edge: Edge, arcs: seq<Arc>)
    requires |at| == |t.ops| + 1
  {
    USE_RAS && edge.Direct? && IsCall(t, edge.slot) ==> Arc(edge.slot + 1, at[edge.slot / 3 + 1]) in arcs
  }

  lemma SideLands(t: Translation, at: seq<Addr>, c: Chunk, e: Regs, m: Memory)
    requires |at| == |t.ops| + 1 && c.CSide? && Numbered(c, t.ops, at)
    ensures Lands(t, at, TakenTail(c.d, c.after, c.slot, e, m).edge, TakenArcs(c.d, c.after, c.slot))
  {
    hide Wrap, Signed, Rd, Word, Hi, Lo;
  }

  lemma EnderLands(t: Translation, at: seq<Addr>, c: Chunk, e: Regs, m: Memory)
    requires |at| == |t.ops| + 1 && c.CEnder? && Numbered(c, t.ops, at)
    ensures Lands(t, at, EnderTail(c.d, c.after, c.slot, e, m).edge, EnderArcs(c.d, c.after, c.slot))
  {
    hide Wrap, Signed, Rd, Word, Hi, Lo, SideInline, SideTaken;
  }

  lemma LandsMore(t: Translation, at: seq<Addr>, edge: Edge, arcs: seq<Arc>, all: seq<Arc>)
    requires |at| == |t.ops| + 1 && Lands(t, at, edge, arcs) && forall a :: a in arcs ==> a in all
    ensures Lands(t, at, edge, all)
  {
  }

  lemma {:induction false} RunLands(t: Translation, at: seq<Addr>, code: seq<Chunk>, e: Regs, m: Memory, count: int)
    requires |at| == |t.ops| + 1 && AllNumbered(code, t.ops, at)
    ensures Lands(t, at, Run(code, e, m, count).edge, Arcs(code))
    decreases |code|
  {
    hide EmitOp, EventsOf, FoldRun, FoldEvents, Apply, Wrap, SideInline, SideTaken, TailQ, TakenTail, EnderTail,
         TakenArcs, EnderArcs,
         Numbered, Run, TailArcs, SideArcs, Lands;
    if code == [] {
      NoCall(t, at, e, m, count);
    } else {
      var c, rest := code[0], code[1..];
      assert code == [c] + rest;
      ArcsCons(c, rest);
      RunUnfold(c, rest, e, m, count);
      assert AllNumbered(rest, t.ops, at);
      if c.COp? {
        var o := EmitOp(c.d, c.prevQ, c.fmask, c.mstore, e, m);
        RunLands(t, at, rest, o.regs, Apply(m, o.writes), count);
        LandsMore(t, at, Run(code, e, m, count).edge, Arcs(rest), Arcs(code));
      } else if c.CSide? {
        SideLands(t, at, c, SideInline(c.d, e).(q := false), m);
        RunLands(t, at, rest, SideInline(c.d, e), m, count);
        if SideTaken(c.d, SideInline(c.d, e)) {
          LandsMore(t, at, Run(code, e, m, count).edge, TakenArcs(c.d, c.after, c.slot), Arcs(code));
        } else {
          LandsMore(t, at, Run(code, e, m, count).edge, Arcs(rest), Arcs(code));
        }
      } else if IsFold(c) {
        var x := FoldRun(c, e, m);
        RunLands(t, at, rest, x.regs, Apply(m, x.writes), count + x.extra);
        LandsMore(t, at, Run(code, e, m, count).edge, Arcs(rest), Arcs(code));
      } else if c.CEnder? {
        EnderLands(t, at, c, e.(q := false), m);
        LandsMore(t, at, Run(code, e, m, count).edge, EnderArcs(c.d, c.after, c.slot), Arcs(code));
      } else {
        TailLands(t, at, c, Arcs(code));
      }
    }
  }

  lemma NoCall(t: Translation, at: seq<Addr>, e: Regs, m: Memory, count: int)
    requires |at| == |t.ops| + 1
    ensures Lands(t, at, Run([], e, m, count).edge, Arcs([]))
  {
  }

  lemma TailLands(t: Translation, at: seq<Addr>, c: Chunk, arcs: seq<Arc>)
    requires |at| == |t.ops| + 1 && c.CTail? && Numbered(c, t.ops, at)
    ensures Lands(t, at, Direct(c.slot), arcs)
  {
  }

  /** What a CALL pushes on the host stack is the address after it, and the landing code that goes on there. */
  lemma CallLands(buf: seq<Translation>, native: nat, e: Regs, m: Memory)
    requires USE_RAS && native < |buf|
    ensures var t := buf[native];
            var edge := Run(CodeFor(t), e, m, 0).edge;
            edge.Direct? && IsCall(t, edge.slot) ==>
              Landings(buf)(Site(native, edge.slot + 1)) == Addresses(t.pc, t.ops)[edge.slot / 3 + 1]
  {
    hide Run, EmitFrom, Arcs, Addresses;
    var t := buf[native];
    var at, arcs := Addresses(t.pc, t.ops), Arcs(CodeFor(t));
    EmitNumbered(t.ops, at, 0, Runtime, QClear);
    RunLands(t, at, CodeFor(t), e, m, 0);
    var edge := Run(CodeFor(t), e, m, 0).edge;
    if edge.Direct? && IsCall(t, edge.slot) {
      ArcsOf(t);
      var a := Arc(edge.slot + 1, at[edge.slot / 3 + 1]);
      var i :| 0 <= i < |arcs| && arcs[i] == a;
      assert arcs[i].slot == edge.slot + 1;
      SlotTarget(arcs, edge.slot + 1, a.target, ArcTarget(arcs, edge.slot + 1));
    }
  }

  // ---- whole runs ----

  ghost predicate IsXRun(host: Host, run: seq<XSys>, full: seq<bool>) {
    |run| == |full| + 1
    && forall i :: 0 <= i < |full| ==>
         XInv(run[i]) ==> Admissible(host, run[i].sys) && run[i + 1] == XNext(host, run[i], full[i])
  }

  /** End to end with the return-address stack: at every point of every run the guest is where the interpreter is after
      as many instructions, and the host stack is at most RAS_CALL_BUDGET pairs deep. */
  lemma {:induction false} XRunIsSteps(host: Host, run: seq<XSys>, full: seq<bool>, i: nat)
    requires IsXRun(host, run, full) && XInv(run[0]) && i < |run|
    ensures XInv(run[i]) && Follows(host, run[0].sys.st, run[i].sys.st)
            && 0 <= Ras.Depth(run[i].stack) <= Ras.RAS_CALL_BUDGET
    decreases i
  {
    hide Inv, Admissible, Next, XNext, Steps;
    if i == 0 {
      NoSteps(host, run[0].sys.st);
    } else {
      var k := i - 1;
      XRunIsSteps(host, run, full, k);
      Entering(run[k].sys);
      assert run[k + 1] == XNext(host, run[k], full[k]);
      XNextIsNext(host, run[k], full[k]);
      NextIsSteps(host, run[k].sys, full[k]);
      var a, b := run[k].sys.st.count - run[0].sys.st.count, run[i].sys.st.count - run[k].sys.st.count;
      StepsAdd(host, run[0].sys.st, a, b);
    }
    Ras.DepthBound(Landings(run[i].sys.buf), run[i].stack);
  }

  /** The trampoline's first entry: nothing cached, the sentinel on the stack. */
  lemma XStartInv(st: State)
    ensures XInv(XSys(Sys(st, EmptyCache(0), [], AtDispatch), Ras.Entered()))
  {
    hide Inv, EmptyCache;
    StartInv(st);
    Ras.EnteredValid(Landings([]));
  }
}
