/** dbt_run (dbt/dbt_common.c): processor, cache and code buffer together, updated in place. */
module Machine {
  import opened Bits
  import opened Decoder
  import opened Interp
  import opened Emitter
  import opened Folds
  import opened FoldsProof
  import opened Translator
  import opened TranslatorProof
  import opened TranslateBlock
  import opened BlockCache
  import opened CpuState
  import opened DbtState
  import opened Dispatch
  import opened DispatchProof

  class Runner {
    const cpu: Cpu
    const dbt: Dbt
    var buf: seq<Translation>
    var where: Where

    constructor (st: State)
      ensures Valid() && Now() == Sys(st, EmptyCache(0), [], AtDispatch)
    {
      cpu := new Cpu(st);
      dbt := new Dbt();
      buf, where := [], AtDispatch;
    }

    ghost predicate Valid()
      reads this, dbt, dbt.cache, dbt.codeBitmap, dbt.linkHead, dbt.poolSite, dbt.poolNext
    {
      dbt.Valid() && (where.InCode? ==> where.native < |buf|)
    }

    ghost function Now(): Sys
      reads this, cpu, dbt
    {
      Sys(cpu.Now(), dbt.model, buf, where)
    }

    /** What the stores of emitted code or of an instruction do to the cache, one after another. */
    method AfterStores(evs: seq<Event>)
      requires dbt.Valid()
      modifies dbt`linkFree, dbt`links, dbt`model, dbt`layout, dbt.cache, dbt.codeBitmap, dbt.linkHead, dbt.poolNext
      ensures dbt.Valid() && dbt.model == AfterEvents(old(dbt.model), evs)
    {
      hide AfterStore, Sweep, Dbt.Tied;
      var i := 0;
      while i < |evs|
        invariant i <= |evs| && dbt.Valid() && AfterEvents(dbt.model, evs[i..]) == AfterEvents(old(dbt.model), evs)
      {
        assert evs[i..][0] == evs[i] && evs[i..][1..] == evs[i + 1..];
        match evs[i] {
          case Checked(w) => StoreCheck(w.addr);
          case Pushed(_) =>
          case Bulk(_, lo, len) => dbt.SweepForward(lo, len);
        }
        i := i + 1;
      }
      assert evs[i..] == [];
    }

    /** The inline check of an emitted store. */
    method StoreCheck(addr: Addr)
      requires dbt.Valid()
      modifies dbt`linkFree, dbt`links, dbt`model, dbt`layout, dbt.cache, dbt.codeBitmap, dbt.linkHead, dbt.poolNext
      ensures dbt.Valid() && dbt.model == AfterStore(old(dbt.model), addr)
    {
      hide Dbt.Tied;
      var marked := dbt.IsMarked(addr);
      if marked {
        dbt.InvalidateStore(addr);
      }
    }

    /** The edges a new block emits, in order. */
    method RecordEdges(native: nat, arcs: seq<Arc>)
      requires dbt.Valid()
      modifies dbt`linkUsed, dbt`linkFree, dbt`links, dbt`model, dbt`layout, dbt.linkHead, dbt.poolSite, dbt.poolNext
      ensures dbt.Valid() && dbt.model == EmitEdges(old(dbt.model), native, arcs)
    {
      hide BlockCache.EmitEdge, Dbt.Tied;
      var i := 0;
      while i < |arcs|
        invariant i <= |arcs| && dbt.Valid()
                  && EmitEdges(dbt.model, native, arcs[i..]) == EmitEdges(old(dbt.model), native, arcs)
      {
        assert arcs[i..][0] == arcs[i] && arcs[i..][1..] == arcs[i + 1..];
        dbt.EmitEdge(arcs[i].target, Site(native, arcs[i].slot));
        i := i + 1;
      }
      assert arcs[i..] == [];
    }

    /** dbt_translate_block and dbt_cache_insert. */
    method TranslateHere(full: bool)
      requires Valid() && where == AtDispatch
      modifies this, dbt, dbt.cache, dbt.codeBitmap, dbt.linkHead, dbt.poolSite, dbt.poolNext
      ensures Valid() && Now() == Translate(old(Now()), full)
    {
      hide EmptyCache, Insert, MarkBytes, EmitEdges, Arcs, EmitBlock, OpsFrom, Addresses, Dbt.Tied, LiveAt,
           MemptrLiveAt, MemptrStored, EmitFrom;
      if full {
        dbt.InvalidateAll();
        buf := [];
      }
      var pc := cpu.regs.pc;
      var ops, end, code := Translated(cpu.mem, pc);
      if code.None? {
        dbt.CacheInsert(pc, None);
        return;
      }
      RecordEdges(|buf|, Arcs(code.value));
      dbt.MarkBlockBytes(pc, end);
      dbt.CacheInsert(pc, Some(|buf|));
      where := InCode(|buf|);
      buf := buf + [Translation(pc, ops)];
    }

    /** One interpreter step, and the cache checks of its stores. */
    method InterpretHere(host: Host)
      requires Valid()
      modifies this`where, cpu, dbt`linkFree, dbt`links, dbt`model, dbt`layout, dbt.cache, dbt.codeBitmap,
          dbt.linkHead, dbt.poolNext
      ensures Valid() && Now() == Interpret(host, old(Now()))
    {
      hide Exec, Decode, AfterEvents, Interp.Step, Dbt.Tied;
      var d := DecodeOne(cpu.mem, cpu.regs.pc);
      var o := Exec(host, d, cpu.regs, cpu.mem);
      cpu.Step(host);
      AfterStores(AllChecked(o.writes));
      where := AtDispatch;
    }

    /** A plain instruction of emitted code: LDIR and LDDR call their helper and sweep, the others store with a check
        or push without one. */
    method DoOp(c: Chunk) returns (ghost evs: seq<Event>)
      requires dbt.Valid() && c.COp?
      modifies cpu`regs, cpu`mem, dbt`linkFree, dbt`links, dbt`model, dbt`layout, dbt.cache, dbt.codeBitmap,
          dbt.linkHead, dbt.poolNext
      ensures dbt.Valid() && dbt.model == AfterEvents(old(dbt.model), evs)
      ensures var o := EmitOp(c.d, c.prevQ, c.fmask, c.mstore, old(cpu.regs), old(cpu.mem));
              cpu.regs == o.regs && cpu.mem == Apply(old(cpu.mem), o.writes)
                  && evs == EventsOf(c.d, old(cpu.regs), o.writes)
    {
      hide EmitOp, EmitBlockCopy, Apply, AfterEvents, Sweep, Dbt.Tied, BlockLow;
      if c.d.ty == Flag(Ldir) || c.d.ty == Flag(Lddr) {
        var incr := if c.d.ty == Flag(Ldir) then 1 else -1;
        BlockOp(c.d, c.prevQ, c.fmask, c.mstore, cpu.regs, cpu.mem, incr);
        var lo, bc := BlockLow(c.d.ty.flag, cpu.regs.de, cpu.regs.bc), cpu.regs.bc;
        evs := [Bulk(EmitBlockCopy(cpu.regs, cpu.mem, incr).writes, lo, bc)];
        cpu.JitBlockCopy(incr);
        SweepEvent(dbt.model, evs[0]);
        dbt.SweepForward(lo, bc);
      } else {
        var o := EmitOp(c.d, c.prevQ, c.fmask, c.mstore, cpu.regs, cpu.mem);
        var checks := EventsOf(c.d, cpu.regs, o.writes);
        evs := checks;
        cpu.regs := o.regs;
        cpu.StoreAll(o.writes);
        AfterStores(checks);
      }
    }

    /** A folded loop: the countdown is inline, the others call their helper and sweep what it stored. */
    method DoFold(c: Chunk) returns (ghost evs: seq<Event>)
      requires dbt.Valid() && IsFold(c)
      modifies cpu, dbt`linkFree, dbt`links, dbt`model, dbt`layout, dbt.cache, dbt.codeBitmap, dbt.linkHead,
          dbt.poolNext
      ensures dbt.Valid() && dbt.model == AfterEvents(old(dbt.model), evs)
      ensures var x := FoldRun(c, old(cpu.regs), old(cpu.mem));
              && cpu.regs == x.regs && cpu.mem == Apply(old(cpu.mem), x.writes) && cpu.count == old(cpu.count) + x.extra
              && evs == FoldEvents(c, old(cpu.regs), x)
    {
      hide Apply, AfterEvents, Sweep, Dbt.Tied, Countdown, LoopCopy, LoopFill, LoopFilter;
      ghost var x := FoldRun(c, cpu.regs, cpu.mem);
      evs := FoldEvents(c, cpu.regs, x);
      if c.CCountdown? {
        var y := Countdown(c.kind, c.reg, c.head, cpu.regs);
        NoFoldStores(c, cpu.regs, cpu.mem, dbt.model);
        cpu.count := cpu.count + y.extra;
        cpu.regs := y.regs;
      } else {
        var lo := if c.CCopy? && !c.fromDe then cpu.regs.de else cpu.regs.hl;
        SweepEvent(dbt.model, evs[0]);
        var n;
        if c.CCopy? {
          n := cpu.JitLoopCopy(c.counter, c.fromDe, c.back, c.head);
        } else if c.CFill? {
          n := cpu.JitLoopFill(c.counter, c.back, c.head);
        } else {
          n := cpu.JitLoopFilter(Filter(c.mask, c.lo, c.sen), c.head, c.exit);
        }
        dbt.SweepForward(lo, n);
      }
    }

    /** Leave the block: the count of the path, and the return address a CALL pushes. */
    method Leave(x: Exit)
      requires dbt.Valid() && forall i :: 0 <= i < |x.events| ==> x.events[i].Pushed?
      modifies cpu
      ensures cpu.regs == x.regs && cpu.mem == Apply(old(cpu.mem), StoresOf(x.events))
              && cpu.count == old(cpu.count) + x.count
      ensures AfterEvents(dbt.model, x.events) == dbt.model
    {
      hide Apply, StoresOf, AfterEvents;
      PushesUnchecked(dbt.model, x.events);
      cpu.regs := x.regs;
      cpu.count := cpu.count + x.count;
      cpu.StoreAll(StoresOf(x.events));
    }

    /** Run emitted code chunk by chunk to its exit. */
    method RunCode(code: seq<Chunk>) returns (edge: Edge, ghost x: Exit)
      requires dbt.Valid()
      modifies cpu, dbt`linkFree, dbt`links, dbt`model, dbt`layout, dbt.cache, dbt.codeBitmap, dbt.linkHead,
          dbt.poolNext
      ensures x == Run(code, old(cpu.regs), old(cpu.mem), 0) && edge == x.edge
      ensures cpu.Now() == State(x.regs, Apply(old(cpu.mem), StoresOf(x.events)), old(cpu.count) + x.count)
      ensures dbt.Valid() && dbt.model == AfterEvents(old(dbt.model), x.events)
    {
      hide Run, EmitOp, FoldRun, Apply, StoresOf, AfterEvents, EventsOf, FoldEvents, SideInline, SideTaken, TakenTail,
           EnderTail, TailQ, Dbt.Tied;
      x := Run(code, cpu.regs, cpu.mem, 0);
      ghost var m, c0, model := cpu.mem, cpu.count, dbt.model;
      ghost var done: seq<Event> := [];
      RunStart(code, cpu.regs, m, model);
      var i := 0;
      while i < |code|
        invariant i <= |code| && dbt.Valid()
                  && Underway(x, code[i..], m, model, done, cpu.regs, cpu.mem, cpu.count - c0, dbt.model)
      {
        var c, rest := code[i], code[i + 1..];
        assert code[i..] == [c] + rest;
        if c.COp? {
          OpNext(x, c, rest, m, model, done, cpu.regs, cpu.mem, cpu.count - c0, dbt.model);
          ghost var evs := DoOp(c);
          done := done + evs;
        } else if IsFold(c) {
          FoldNext(x, c, rest, m, model, done, cpu.regs, cpu.mem, cpu.count - c0, dbt.model);
          ghost var evs := DoFold(c);
          done := done + evs;
        } else {
          TailNext(x, c, rest, m, model, done, cpu.regs, cpu.mem, cpu.count - c0, dbt.model);
          var t := TailOf(c, cpu.regs, cpu.mem);
          if t.Some? {
            TailPushes(c, cpu.regs, cpu.mem);
            Leave(t.value);
            return t.value.edge, x;
          }
          cpu.regs := SideInline(c.d, cpu.regs);
        }
        i := i + 1;
      }
      assert code[i..] == [];
      RanOut(x, m, model, done, cpu.regs, cpu.mem, cpu.count - c0, dbt.model);
      edge := Probe;
    }

    /** Run emitted code to its exit and follow the edge. */
    method RunHere()
      requires Valid() && where.InCode?
      modifies this`where, cpu, dbt`linkFree, dbt`links, dbt`model, dbt`layout, dbt.cache, dbt.codeBitmap,
          dbt.linkHead, dbt.poolNext
      ensures dbt.Valid() && Now() == RunBlock(old(Now()))
    {
      hide Run, EmitBlock, AfterEvents, StoresOf, Apply, Dbt.Tied;
      var native := where.native;
      var edge;
      ghost var x;
      edge, x := RunCode(CodeFor(buf[native]));
      var link := None;
      if edge.Direct? {
        link := dbt.Target(Site(native, edge.slot));
      }
      if link.Some? {
        where := InCode(link.value);
      } else {
        var e := dbt.CacheLookup(cpu.regs.pc);
        where := if e.Block? then InCode(e.native) else AtDispatch;
      }
    }

    /** One turn of dbt_run. */
    method Turn(host: Host, full: bool)
      requires Valid()
      modifies this, cpu, dbt, dbt.cache, dbt.codeBitmap, dbt.linkHead, dbt.poolSite, dbt.poolNext
      ensures dbt.Valid() && Now() == Next(host, old(Now()), full)
    {
      hide RunBlock, Interpret, Translate, Dbt.Tied;
      if where.InCode? {
        RunHere();
      } else {
        var e := dbt.CacheLookup(cpu.regs.pc);
        match e
        case Block(_, native) => where := InCode(native);
        case Refused => InterpretHere(host);
        case Empty =>
          TranslateHere(full);
          if where == AtDispatch {
            InterpretHere(host);
          }
      }
    }

    /** dbt_run for as many turns as `full` has entries, started with an empty cache or in any state that keeps the
        invariant: when every turn is admissible, the guest ends where the interpreter would be. */
    method Loop(host: Host, full: seq<bool>)
      requires Valid() && Inv(Now()) && AllAdmissible(host, Now(), full)
      modifies this, cpu, dbt, dbt.cache, dbt.codeBitmap, dbt.linkHead, dbt.poolSite, dbt.poolNext
      ensures Valid() && Inv(Now()) && Follows(host, old(cpu.Now()), cpu.Now())
    {
      hide Inv, Next, Admissible, Steps, AllAdmissible, Dbt.Tied;
      var i := 0;
      assert Follows(host, cpu.Now(), cpu.Now()) by { NoSteps(host, cpu.Now()); }
      assert full[0..] == full;
      while i < |full|
        invariant i <= |full| && Valid() && Inv(Now()) && Follows(host, old(cpu.Now()), cpu.Now())
        invariant AllAdmissible(host, Now(), full[i..])
      {
        ghost var before := Now();
        NextTurn(host, before, full[i..]);
        NextIsSteps(host, before, full[i]);
        Turn(host, full[i]);
        assert full[i..][1..] == full[i + 1..];
        Enters(Now());
        FollowsOn(host, old(cpu.Now()), before.st, cpu.Now());
        i := i + 1;
      }
    }
  }

  lemma BlockOp(d: Decoded, prevQ: PrevQ, fmask: bv8, mstore: bool, e: Regs, m: Memory, incr: int)
    requires (d.ty == Flag(Ldir) && incr == 1) || (d.ty == Flag(Lddr) && incr == -1)
    ensures EmitOp(d, prevQ, fmask, mstore, e, m) == EmitBlockCopy(e, m, incr)
  {
    hide EmitBlockCopy;
  }

  lemma SweepEvent(c: Cache, ev: Event)
    requires Shaped(c) && ev.Bulk?
    ensures AfterEvents(c, [ev]) == Sweep(c, ev.lo, ev.len)
  {
    hide Sweep;
    assert [ev][1..] == [];
    assert AfterEvents(Sweep(c, ev.lo, ev.len), []) == Sweep(c, ev.lo, ev.len);
  }

  lemma NoFoldStores(c: Chunk, e: Regs, m: Memory, cache: Cache)
    requires c.CCountdown? && Shaped(cache)
    ensures FoldRun(c, e, m).writes == [] && Apply(m, []) == m && AfterEvents(cache, []) == cache
  {
  }

  lemma {:induction false} PushesUnchecked(c: Cache, evs: seq<Event>)
    requires Shaped(c) && forall i :: 0 <= i < |evs| ==> evs[i].Pushed?
    ensures AfterEvents(c, evs) == c
    decreases |evs|
  {
    if evs != [] {
      PushesUnchecked(c, evs[1..]);
    }
  }

  lemma {:induction false} EventsJoin(c: Cache, a: seq<Event>, b: seq<Event>)
    requires Shaped(c)
    ensures AfterEvents(c, a + b) == AfterEvents(AfterEvents(c, a), b)
    decreases |a|
  {
    hide AfterEvent;
    if a == [] {
      assert a + b == b;
    } else {
      assert (a + b)[0] == a[0] && (a + b)[1..] == a[1..] + b;
      EventsJoin(AfterEvent(c, a[0]), a[1..], b);
    }
  }

  // ---- emitted code under way ----

  /** The run `x` as a whole is what was done and what the rest of the code does from here. */
  ghost predicate Underway(x: Exit, rest: seq<Chunk>, m0: Memory, cache0: Cache, done: seq<Event>, e: Regs, m: Memory,
                           extra: int, cache: Cache) {
    && Shaped(cache0) && m == Apply(m0, StoresOf(done)) && cache == AfterEvents(cache0, done)
    && var y := Run(rest, e, m, extra);
       x == y.(events := done + y.events)
  }

  lemma RunStart(code: seq<Chunk>, e: Regs, m: Memory, cache: Cache)
    requires Shaped(cache)
    ensures Underway(Run(code, e, m, 0), code[0..], m, cache, [], e, m, 0, cache)
  {
    hide Run, Apply;
    assert code[0..] == code;
    NoStores(m);
    var y := Run(code, e, m, 0);
    assert [] + y.events == y.events;
  }

  /** Stores and checks of one chunk come after those of the chunks before it. */
  lemma DoneMore(m0: Memory, cache0: Cache, done: seq<Event>, evs: seq<Event>)
    requires Shaped(cache0)
    ensures Apply(Apply(m0, StoresOf(done)), StoresOf(evs)) == Apply(m0, StoresOf(done + evs))
    ensures AfterEvents(AfterEvents(cache0, done), evs) == AfterEvents(cache0, done + evs)
  {
    hide Apply, AfterEvents, StoresOf;
    StoresAppend(done, evs);
    ApplyAppend(m0, StoresOf(done), StoresOf(evs));
    EventsJoin(cache0, done, evs);
  }

  lemma OpNext(x: Exit, c: Chunk, rest: seq<Chunk>, m0: Memory, cache0: Cache, done: seq<Event>, e: Regs, m: Memory,
               extra: int, cache: Cache)
    requires c.COp? && Underway(x, [c] + rest, m0, cache0, done, e, m, extra, cache)
    ensures var o := EmitOp(c.d, c.prevQ, c.fmask, c.mstore, e, m);
            var evs := EventsOf(c.d, e, o.writes);
            Underway(x, rest, m0, cache0, done + evs, o.regs, Apply(m, o.writes), extra, AfterEvents(cache, evs))
  {
    hide Run, EmitOp, EventsOf, Apply, AfterEvents, StoresOf;
    var o := EmitOp(c.d, c.prevQ, c.fmask, c.mstore, e, m);
    var evs := EventsOf(c.d, e, o.writes);
    RunUnfold(c, rest, e, m, extra);
    EventsStore(c.d, e, o.writes);
    DoneMore(m0, cache0, done, evs);
    var y := Run(rest, o.regs, Apply(m, o.writes), extra);
    assert done + (evs + y.events) == (done + evs) + y.events;
  }

  lemma FoldNext(x: Exit, c: Chunk, rest: seq<Chunk>, m0: Memory, cache0: Cache, done: seq<Event>, e: Regs, m: Memory,
                 extra: int, cache: Cache)
    requires IsFold(c) && Underway(x, [c] + rest, m0, cache0, done, e, m, extra, cache)
    ensures var o := FoldRun(c, e, m);
            var evs := FoldEvents(c, e, o);
            Underway(x, rest, m0, cache0, done + evs, o.regs, Apply(m, o.writes), extra + o.extra,
                AfterEvents(cache, evs))
  {
    hide Run, FoldRun, FoldEvents, Apply, AfterEvents, StoresOf;
    var o := FoldRun(c, e, m);
    var evs := FoldEvents(c, e, o);
    RunUnfold(c, rest, e, m, extra);
    FoldEventsStore(c, e, m);
    DoneMore(m0, cache0, done, evs);
    var y := Run(rest, o.regs, Apply(m, o.writes), extra + o.extra);
    assert done + (evs + y.events) == (done + evs) + y.events;
  }

  /** How a chunk that may leave the block does: none for a side exit that is not taken. */
  function TailOf(c: Chunk, e: Regs, m: Memory): Option<Exit>
    requires c.CSide? || c.CEnder? || c.CTail?
  {
    if c.CSide? then
      var e1 := SideInline(c.d, e);
      if SideTaken(c.d, e1) then Some(TakenTail(c.d, c.after, c.slot, e1.(q := false), m).(count := c.insns)) else None
    else if c.CEnder? then Some(EnderTail(c.d, c.after, c.slot, e.(q := false), m).(count := c.insns))
    else Some(Exit(TailQ(e, c.qmode).(pc := c.pc), [], c.insns, Direct(c.slot)))
  }

  lemma TailNext(x: Exit, c: Chunk, rest: seq<Chunk>, m0: Memory, cache0: Cache, done: seq<Event>, e: Regs, m: Memory,
                 extra: int, cache: Cache)
    requires (c.CSide? || c.CEnder? || c.CTail?) && Underway(x, [c] + rest, m0, cache0, done, e, m, extra, cache)
    ensures var t := TailOf(c, e, m);
            if t.None? then Underway(x, rest, m0, cache0, done, SideInline(c.d, e), m, extra, cache)
            else
              && x == t.value.(count := extra + t.value.count, events := done + t.value.events)
              && Apply(m, StoresOf(t.value.events)) == Apply(m0, StoresOf(x.events))
              && AfterEvents(cache, t.value.events) == AfterEvents(cache0, x.events)
  {
    hide Run, SideInline, SideTaken, TakenTail, EnderTail, TailQ, Apply, AfterEvents, StoresOf;
    RunUnfold(c, rest, e, m, extra);
    var t := TailOf(c, e, m);
    if t.Some? {
      DoneMore(m0, cache0, done, t.value.events);
    }
  }

  lemma TailPushes(c: Chunk, e: Regs, m: Memory)
    requires (c.CSide? || c.CEnder? || c.CTail?) && TailOf(c, e, m).Some?
    ensures var x := TailOf(c, e, m).value;
            forall i :: 0 <= i < |x.events| ==> x.events[i].Pushed?
  {
    hide SideInline, SideTaken, TailQ, Wrap, Rd;
  }

  lemma RanOut(x: Exit, m0: Memory, cache0: Cache, done: seq<Event>, e: Regs, m: Memory, extra: int, cache: Cache)
    requires Underway(x, [], m0, cache0, done, e, m, extra, cache)
    ensures x == Exit(e, done, extra, Probe)
  {
    assert done + [] == done;
  }

  /** Every turn of the run from `sys` is admissible. */
  ghost predicate AllAdmissible(host: Host, sys: Sys, full: seq<bool>)
    decreases |full|
  {
    full != [] ==>
      && Shaped(sys.cache) && (sys.where.InCode? ==> sys.where.native < |sys.buf|)
      && Admissible(host, sys) && AllAdmissible(host, Next(host, sys, full[0]), full[1..])
  }

  lemma NextTurn(host: Host, sys: Sys, full: seq<bool>)
    requires full != [] && AllAdmissible(host, sys, full)
    ensures Shaped(sys.cache) && (sys.where.InCode? ==> sys.where.native < |sys.buf|)
    ensures Admissible(host, sys) && AllAdmissible(host, Next(host, sys, full[0]), full[1..])
  {
    hide Admissible, Next;
  }

  lemma Enters(sys: Sys)
    requires Inv(sys)
    ensures Shaped(sys.cache) && (sys.where.InCode? ==> sys.where.native < |sys.buf|)
  {
  }

  lemma FollowsOn(host: Host, a: State, b: State, c: State)
    requires Follows(host, a, b) && Follows(host, b, c)
    ensures Follows(host, a, c)
  {
    hide Steps;
    StepsAdd(host, a, b.count - a.count, c.count - b.count);
  }
}
