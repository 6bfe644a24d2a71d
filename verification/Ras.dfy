/** The return-address stack of the x86-64 backend (dbt/dbt_x64.c): guest CALLs make host CALLs, and a guest RET
    that pops the address its CALL pushed becomes a host RET. */
module Ras {
  import opened Bits
  import BlockCache

  type Site = BlockCache.Site

  const RAS_CALL_BUDGET: nat := 32 * 1024

  /** A 64-bit word of the host stack: a pushed immediate, or the return address a host CALL pushed, which names
      the landing code of the call site `site`. */
  datatype Word = Imm(value: int) | Landing(site: Site)

  /** The host stack above the trampoline's frame, top last; `base` is the depth jit_sp_base records. */
  datatype Stack = Stack(words: seq<Word>, base: nat, budget: nat)

  /** Call sites of the emitted code, named by the edge of their landing code: the guest address after each CALL. */
  type Sites = Site -> Addr

  // ---- the emitted sequences ----

  /** Trampoline entry: the sentinel frame, and a full budget. */
  function Entered(): Stack { Stack([Imm(-1), Imm(0)], 2, RAS_CALL_BUDGET) }

  /** mov rsp, [jit_sp_base]. */
  function Unwound(s: Stack): Stack
    requires s.base <= |s.words|
  {
    s.(words := s.words[..s.base])
  }

  /** emit_call_edge: spend budget, forget the pairing when it is gone, push the pair. */
  function Call(after: Sites, s: Stack, site: Site): Stack
    requires s.base <= |s.words| && s.budget > 0
  {
    var s1 := if s.budget - 1 == 0 then Unwound(s).(budget := RAS_CALL_BUDGET) else s.(budget := s.budget - 1);
    s1.(words := s1.words + [Imm(after(site)), Landing(site)])
  }

  /** Where a RET goes: the landing code of a call site, or the probe. */
  datatype Went = Landed(site: Site) | Probed | Crashed

  datatype Returned = Returned(stack: Stack, went: Went)

  /** The 32-bit compare of a stack word with the popped guest address. */
  predicate Matches(w: Word, pc: Addr) { w.Imm? && w.value % 0x1_0000_0000 == pc }

  /** emit_ret_tail, then the landing code's `add rsp, 8`.  A host RET through anything but a return address crashes. */
  function RetTail(s: Stack, pc: Addr): Returned
    requires 2 <= s.base <= |s.words|
  {
    var n := |s.words|;
    if Matches(s.words[n - 2], pc) then
      Returned(s.(words := s.words[..n - 2]), if s.words[n - 1].Landing? then Landed(s.words[n - 1].site) else Crashed)
    else Returned(Unwound(s), Probed)
  }

  // ---- what every sequence of calls and returns keeps ----

  /** Pairs stacked on the sentinel. */
  function Depth(s: Stack): int { (|s.words| - 2) / 2 }

  /** The stack is the sentinel and, above it, one pair per outstanding CALL; what is left of the budget bounds
      how many. */
  ghost predicate Valid(after: Sites, s: Stack) {
    && s.base == 2 <= |s.words| && |s.words| % 2 == 0
    && s.words[0] == Imm(-1) && s.words[1] == Imm(0)
    && (forall i {:trigger s.words[i]} :: 2 <= i < |s.words| && i % 2 == 1 ==>
          s.words[i].Landing? && s.words[i - 1] == Imm(after(s.words[i].site)))
    && 1 <= s.budget && Depth(s) + s.budget <= RAS_CALL_BUDGET + 1
  }

  lemma EnteredValid(after: Sites)
    ensures Valid(after, Entered()) && Depth(Entered()) == 0
  {
  }

  lemma PushValid(after: Sites, s: Stack, site: Site)
    requires Valid(after, s) && Depth(s) + 1 + s.budget <= RAS_CALL_BUDGET + 1
    ensures Valid(after, s.(words := s.words + [Imm(after(site)), Landing(site)]))
    ensures Depth(s.(words := s.words + [Imm(after(site)), Landing(site)])) == Depth(s) + 1
  {
    var t := s.words + [Imm(after(site)), Landing(site)];
    forall i {:trigger t[i]} | 2 <= i < |t| && i % 2 == 1 ensures t[i].Landing? && t[i - 1] == Imm(after(t[i].site)) {
      if i < |s.words| {
        assert t[i] == s.words[i] && t[i - 1] == s.words[i - 1];
      } else {
        assert i == |s.words| + 1;
      }
    }
  }

  lemma PrefixValid(after: Sites, s: Stack, n: nat, budget: nat)
    requires Valid(after, s) && 2 <= n <= |s.words| && n % 2 == 0 && 1 <= budget
             && (n - 2) / 2 + budget <= RAS_CALL_BUDGET + 1
    ensures Valid(after, s.(words := s.words[..n], budget := budget))
  {
    var t := s.words[..n];
    forall i {:trigger t[i]} | 2 <= i < n && i % 2 == 1 ensures t[i].Landing? && t[i - 1] == Imm(after(t[i].site)) {
      assert t[i] == s.words[i] && t[i - 1] == s.words[i - 1];
    }
  }

  /** A CALL keeps the bound, also when it spends the last of the budget. */
  lemma CallKeeps(after: Sites, s: Stack, site: Site)
    requires Valid(after, s)
    ensures Valid(after, Call(after, s, site))
    ensures Depth(Call(after, s, site)) == if s.budget == 1 then 1 else Depth(s) + 1
  {
    if s.budget == 1 {
      PrefixValid(after, s, 2, RAS_CALL_BUDGET);
      PushValid(after, Unwound(s).(budget := RAS_CALL_BUDGET), site);
    } else {
      PrefixValid(after, s, |s.words|, s.budget - 1);
      assert s.words[..|s.words|] == s.words;
      PushValid(after, s.(budget := s.budget - 1), site);
    }
  }

  /** A RET lands only in code that continues at the popped address, never through the sentinel; otherwise it
      probes for that address with the stack unwound. */
  lemma RetKeeps(after: Sites, s: Stack, pc: Addr)
    requires Valid(after, s)
    ensures var r := RetTail(s, pc);
            && Valid(after, r.stack) && r.went != Crashed
            && (r.went.Landed? ==> after(r.went.site) == pc && Depth(r.stack) == Depth(s) - 1)
            && (r.went.Landed? <==> Depth(s) > 0 && after(s.words[|s.words| - 1].site) == pc)
            && (r.went == Probed ==> Depth(r.stack) == 0)
  {
    var n := |s.words|;
    PrefixValid(after, s, 2, s.budget);
    if n > 2 {
      PrefixValid(after, s, n - 2, s.budget);
      assert s.words[n - 1].Landing? && s.words[n - 1 - 1] == Imm(after(s.words[n - 1].site));
      var a := after(s.words[n - 1].site);
      assert a % 0x1_0000_0000 == a;
    } else {
      assert (-1) % 0x1_0000_0000 == 0xFFFF_FFFF;
    }
  }

  // ---- whole runs ----

  /** Guest-visible control flow through the stack: a CALL at a site, a RET that popped an address, and a return to
      C followed by a new entry. */
  datatype Action = DoCall(site: Site) | DoRet(pc: Addr) | Reenter

  function Act(after: Sites, s: Stack, a: Action): Stack
    requires Valid(after, s)
  {
    match a
    case DoCall(site) => Call(after, s, site)
    case DoRet(pc) => RetTail(s, pc).stack
    case Reenter => Entered()
  }

  lemma ActKeeps(after: Sites, s: Stack, a: Action)
    requires Valid(after, s)
    ensures Valid(after, Act(after, s, a))
  {
    hide Valid;
    match a
    case DoCall(site) => CallKeeps(after, s, site);
    case DoRet(pc) => RetKeeps(after, s, pc);
    case Reenter => EnteredValid(after);
  }

  /** The stack after a sequence of actions. */
  function After(after: Sites, s: Stack, acts: seq<Action>): Stack
    requires Valid(after, s)
    decreases |acts|
  {
    if acts == [] then s else
      ActKeeps(after, s, acts[0]);
      After(after, Act(after, s, acts[0]), acts[1..])
  }

  /** Transparency: after any interleaving of calls, returns, mismatches, spent budgets and exits, a RET continues
      at the address it popped (through its call site's landing, or through the probe), and the host stack is at
      most RAS_CALL_BUDGET pairs deep. */
  lemma {:induction false} RasTransparent(after: Sites, s: Stack, acts: seq<Action>, pc: Addr)
    requires Valid(after, s)
    ensures var t := After(after, s, acts);
            && Valid(after, t) && 0 <= Depth(t) <= RAS_CALL_BUDGET
            && RetTail(t, pc).went != Crashed
            && (RetTail(t, pc).went.Landed? ==> after(RetTail(t, pc).went.site) == pc)
    decreases |acts|
  {
    hide Valid, Act, RetTail, Depth;
    if acts == [] {
      RetKeeps(after, s, pc);
      DepthBound(after, s);
    } else {
      ActKeeps(after, s, acts[0]);
      RasTransparent(after, Act(after, s, acts[0]), acts[1..], pc);
    }
  }

  lemma DepthBound(after: Sites, s: Stack)
    requires Valid(after, s)
    ensures 0 <= Depth(s) <= RAS_CALL_BUDGET
  {
  }

  /** A CALL and the RET that pops its return address pair up: the RET lands after the CALL and leaves the stack as
      it was before, unless the CALL had to forget the pairing. */
  lemma CallThenRet(after: Sites, s: Stack, site: Site)
    requires Valid(after, s) && s.budget > 1
    ensures Valid(after, Call(after, s, site))
    ensures RetTail(Call(after, s, site), after(site)) == Returned(s.(budget := s.budget - 1), Landed(site))
  {
    CallKeeps(after, s, site);
    var t := Call(after, s, site);
    var a := after(site);
    assert a % 0x1_0000_0000 == a;
    assert t.words[..|t.words| - 2] == s.words;
  }

  // ---- the emitted code's own state ----

  /** RSP's words, jit_sp_base and jit_call_budget, updated in place by the emitted code. */
  class HostStack {
    var words: seq<Word>
    var base: nat
    var budget: nat

    ghost function Now(): Stack
      reads this
    {
      Stack(words, base, budget)
    }

    constructor ()
      ensures Now() == Entered()
    {
      words, base, budget := [Imm(-1), Imm(0)], 2, RAS_CALL_BUDGET;
    }

    method GuestCall(ghost after: Sites, site: Site, pcAfter: Addr)
      requires Valid(after, Now()) && pcAfter == after(site)
      modifies this
      ensures Valid(after, Now()) && Now() == Call(after, old(Now()), site)
    {
      CallKeeps(after, Now(), site);
      budget := budget - 1;
      if budget == 0 {
        words := words[..base];
        budget := RAS_CALL_BUDGET;
      }
      words := words + [Imm(pcAfter)];
      words := words + [Landing(site)];
      assert words == Call(after, old(Now()), site).words;
    }

    method GuestRet(ghost after: Sites, pc: Addr) returns (landed: bool, site: Site)
      requires Valid(after, Now())
      modifies this
      ensures Valid(after, Now()) && Now() == RetTail(old(Now()), pc).stack
      ensures landed ==> after(site) == pc
      ensures landed <==> RetTail(old(Now()), pc).went == Landed(site)
    {
      RetKeeps(after, Now(), pc);
      var n := |words|;
      if Matches(words[n - 2], pc) {
        landed, site := true, words[n - 1].site;
        words := words[..n - 1];
        words := words[..n - 2];
        assert words == old(words)[..n - 2];
      } else {
        landed, site := false, BlockCache.Site(0, 0);
        words := words[..base];
      }
    }
  }
}
