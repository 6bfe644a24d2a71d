/** Flag code of the x86-64 backend (dbt/dbt_x64.c): F from the host's own arithmetic flags, and from tables. */
module X64Flags {
  import opened Bits
  import opened Decoder
  import opened Interp
  import opened Emitter
  import opened FlagsProof

  // ---- emit_alu_inline ----

  /** The F bits of an addition or subtraction from its parts. */
  function PartsF(v: bv8, xy: bv8, h: bool, c: bool, of: bool, isSub: bool): bv8 {
    When(isSub, FLAG_N) | XyFrom(xy) | ZeroSign(v) | When(h, FLAG_H) | When(c, FLAG_C) | When(of, FLAG_PV)
  }

  /** Whatever is live, the native flags give those bits; the host's parity never shows. */
  lemma NativeBits(h: HostAlu, pf: bool, isSub: bool, xy: bv8, fmask: bv8)
    ensures fmask != 0 ==> Agree(NativeF(h, pf, isSub, xy, fmask), PartsF(h.v, xy, h.af, h.cf, h.of, isSub), fmask)
  {
  }

  /** The interpreter's flag expression, with its conditions as parameters. */
  function SumF(v: bv8, h: bool, c: bool, o: bool): bv8 {
    XyFrom(v) | ZeroSign(v) | When(h, FLAG_H) | When(c, FLAG_C) | When(o, FLAG_PV)
  }

  lemma SumIs(a: bv8, b: bv8, cin: bv8)
    ensures var wide := (a as bv16) + (b as bv16) + (cin as bv16);
            var v := (wide & 0xFF) as bv8;
            AddWith(a, b, cin)
                == Res8(v, SumF(v, (a & 0xF) + (b & 0xF) + cin > 0xF, wide > 0xFF, (a ^ b) & 0x80 == 0
                && (v ^ a) & 0x80 != 0))
  {
    hide XyFrom, ZeroSign, When;
  }

  lemma SumParts(v: bv8, h: bool, c: bool, o: bool)
    ensures SumF(v, h, c, o) == PartsF(v, v, h, c, o, false)
  {
  }

  lemma AddParts(a: bv8, b: bv8, cin: bv8)
    requires cin <= 1
    ensures var h := HostAdd(a, b, cin);
            AddWith(a, b, cin) == Res8(h.v, PartsF(h.v, h.v, h.af, h.cf, h.of, false))
  {
    hide AddWith, SumF, PartsF;
    var h := HostAdd(a, b, cin);
    AddHalf(a, b, cin);
    AddOver(a, b, cin);
    AddOut(a, b, cin);
    SumIs(a, b, cin);
    SumParts(h.v, h.af, h.cf, h.of);
  }

  lemma AddHalf(a: bv8, b: bv8, cin: bv8)
    requires cin <= 1
    ensures ((a & 0xF) + (b & 0xF) + cin > 0xF) == HostAdd(a, b, cin).af
  {
  }

  lemma AddOver(a: bv8, b: bv8, cin: bv8)
    ensures var v := HostAdd(a, b, cin).v;
            ((a ^ b) & 0x80 == 0 && (v ^ a) & 0x80 != 0) == ((a ^ v) & (b ^ v) & 0x80 != 0)
  {
  }

  lemma AddOut(a: bv8, b: bv8, cin: bv8)
    requires cin <= 1
    ensures var wide := (a as bv16) + (b as bv16) + (cin as bv16);
            (wide > 0xFF) == (wide & 0x100 != 0)
  {
  }

  lemma DiffIs(a: bv8, b: bv8, cin: bv8)
    ensures var v := a - b - cin;
            SubWith(a, b, cin)
            == Res8(v, PartsF(v, v, ((a & 0xF) - (b & 0xF) - cin) & 0x10 != 0,
                (a as bv16) < (b as bv16) + (cin as bv16),
                              (a ^ b) & 0x80 != 0 && (v ^ a) & 0x80 != 0, true))
  {
    hide XyFrom, ZeroSign;
  }

  lemma SubParts(a: bv8, b: bv8, cin: bv8)
    requires cin <= 1
    ensures var h := HostSub(a, b, cin);
            SubWith(a, b, cin) == Res8(h.v, PartsF(h.v, h.v, h.af, h.cf, h.of, true))
  {
    hide SubWith, PartsF;
    SubHalf(a, b, cin);
    SubOver(a, b, cin);
    DiffIs(a, b, cin);
  }

  lemma SubHalf(a: bv8, b: bv8, cin: bv8)
    requires cin <= 1
    ensures (((a & 0xF) - (b & 0xF) - cin) & 0x10 != 0) == ((a ^ b ^ (a - b - cin)) & 0x10 != 0)
  {
  }

  lemma SubOver(a: bv8, b: bv8, cin: bv8)
    ensures var v := a - b - cin;
            ((a ^ b) & 0x80 != 0 && (v ^ a) & 0x80 != 0) == ((a ^ b) & (a ^ v) & 0x80 != 0)
  {
  }

  lemma CpParts(a: bv8, b: bv8)
    ensures var h := HostSub(a, b, 0);
            h.v == a - b && SubFlags(a, b, a - b, b) == PartsF(h.v, b, h.af, h.cf, h.of, true)
  {
    hide XyFrom, ZeroSign;
    CpHalf(a, b);
    SubOver(a, b, 0);
  }

  lemma CpHalf(a: bv8, b: bv8)
    ensures a - b - 0 == a - b && ((a & 0xF) < (b & 0xF)) == ((a ^ b ^ (a - b)) & 0x10 != 0)
    ensures (a < b) == ((a as bv16) < (b as bv16) + (0 as bv16))
  {
  }

  /** emit_alu_inline on x86-64: for every operation, operands, live mask and host parity, the result is the
      interpreter's and F agrees with it on every live bit. */
  lemma NativeAgrees(op: Alu, a: bv8, b: bv8, fe: bv8, fs: bv8, pf: bool, fmask: bv8)
    requires Agree(fe, fs, (fmask & !AluEffects(op).wr) | AluEffects(op).rd)
    ensures NativeAlu(op, a, b, fe, pf, fmask).v == Alu8(op, a, b, fs).v
    ensures Agree(NativeAlu(op, a, b, fe, pf, fmask).f, Alu8(op, a, b, fs).f, fmask)
  {
    hide NativeSum, HostAdd, HostSub, NativeF, AddWith, SubWith, SubFlags, FtLogic, LogicFlags, Agree;
    if op.Adc? || op.Sbc? {
      CarryAgrees(fe, fs, (fmask & !AluEffects(op).wr) | AluEffects(op).rd);
      CarryRange(fs);
    }
    match op
    case Add => NativeAddAgrees(a, b, 0, fe, pf, fmask);
    case Adc => NativeAddAgrees(a, b, fs & FLAG_C, fe, pf, fmask);
    case Sbc => NativeSubAgrees(a, b, fs & FLAG_C, fe, pf, fmask);
    case Sub =>
      NativeSubAgrees(a, b, 0, fe, pf, fmask);
      SubWithZero(a, b);
    case Cp => NativeCpAgrees(a, b, fe, pf, fmask);
    case And => LogicAgrees(a & b, fe, fmask);
    case Xor => LogicAgrees(a ^ b, fe, fmask);
    case Or => LogicAgrees(a | b, fe, fmask);
  }

  lemma NativeAddAgrees(a: bv8, b: bv8, c: bv8, f: bv8, pf: bool, fmask: bv8)
    requires c <= 1
    ensures var r := NativeSum(HostAdd(a, b, c), pf, false, f, fmask);
            r.v == AddWith(a, b, c).v && Agree(r.f, AddWith(a, b, c).f, fmask)
  {
    hide HostAdd, NativeF, PartsF, AddWith, Agree;
    AddParts(a, b, c);
    NativeBits(HostAdd(a, b, c), pf, false, HostAdd(a, b, c).v, fmask);
    NothingLive(f, AddWith(a, b, c).f);
  }

  lemma NativeSubAgrees(a: bv8, b: bv8, c: bv8, f: bv8, pf: bool, fmask: bv8)
    requires c <= 1
    ensures var r := NativeSum(HostSub(a, b, c), pf, true, f, fmask);
            r.v == SubWith(a, b, c).v && Agree(r.f, SubWith(a, b, c).f, fmask)
  {
    hide HostSub, NativeF, PartsF, SubWith, Agree;
    SubParts(a, b, c);
    NativeBits(HostSub(a, b, c), pf, true, HostSub(a, b, c).v, fmask);
    NothingLive(f, SubWith(a, b, c).f);
  }

  lemma NativeCpAgrees(a: bv8, b: bv8, f: bv8, pf: bool, fmask: bv8)
    ensures Agree(if fmask == 0 then f
            else NativeF(HostSub(a, b, 0), pf, true, b, fmask), SubFlags(a, b, a - b, b), fmask)
  {
    hide HostSub, NativeF, PartsF, SubFlags, Agree;
    CpParts(a, b);
    NativeBits(HostSub(a, b, 0), pf, true, b, fmask);
    NothingLive(f, SubFlags(a, b, a - b, b));
  }

  lemma NothingLive(f: bv8, g: bv8)
    ensures Agree(f, g, 0)
  {
  }

  lemma CarryRange(f: bv8)
    ensures f & FLAG_C <= 1
  {
  }

  // ---- ADD HL by table ----

  /** The table gives every live bit of ADD HL,rr; for ADD HL,HL the half-carry fix-up can be left out. */
  lemma TableAddHlAgrees(x: bv16, y: bv16, self: bool, fe: bv8, fs: bv8, fmask: bv8)
    requires Agree(fe, fs, (fmask & 0xC4) | FLAG_SZP) && (self ==> x == y)
    ensures Agree(TableAddHl(x, y, self, fe, fmask), AddHlFlags(x, y, fs), fmask)
  {
    hide Add16Index, AddHlFlags;
    TableHolds(x, y, fs, fmask, self);
    Pass(fe, fs, fmask);
  }

  lemma Pass(fe: bv8, fs: bv8, fmask: bv8)
    requires Agree(fe, fs, (fmask & 0xC4) | FLAG_SZP)
    ensures fe & FLAG_SZP == fs & FLAG_SZP
  {
  }

  lemma TableHolds(x: bv16, y: bv16, f: bv8, fmask: bv8, self: bool)
    requires self ==> x == y
    ensures var i := Add16Index(x, y, fmask & FLAG_H != 0 && !self);
            Agree((f & FLAG_SZP) | Add16Entry(i), AddHlFlags(x, y, f), fmask)
    ensures AddHlFlags(x, y, f) & FLAG_SZP == f & FLAG_SZP && AddHlFlags(x, y, f) & FLAG_N == 0
  {
  }

  // ---- DAA by table ----

  const DAA_TABLE_LEN: nat := 0x1400

  /** z80_flag_tables_init, the DAA part. */
  method BuildDaaTable() returns (table: array<Addr>)
    ensures fresh(table) && table.Length == DAA_TABLE_LEN
    ensures forall i :: 0 <= i < DAA_TABLE_LEN ==> table[i] == DaaEntry(i)
  {
    hide DaaEntry;
    table := new Addr[DAA_TABLE_LEN];
    var i := 0;
    while i < DAA_TABLE_LEN
      invariant i <= DAA_TABLE_LEN
      invariant forall k :: 0 <= k < i ==> table[k] == DaaEntry(k)
    {
      table[i] := DaaEntry(i);
      i := i + 1;
    }
  }

  /** Looking an index up is DAA on that A and F, and the index is always inside the table. */
  lemma TableIsDaa(a: bv8, f: bv8)
    ensures DaaIndex(a, f) < DAA_TABLE_LEN
    ensures Lo(DaaEntry(DaaIndex(a, f))) == DaaStep(a, f).v && Hi(DaaEntry(DaaIndex(a, f))) == DaaStep(a, f).f
  {
    hide DaaStep, Lo, Hi;
    var g := f & (FLAG_C | FLAG_N | FLAG_H);
    MaskedFlags(f);
    WordHalves(g, a);
    WordHalves(DaaStep(a, g).f, DaaStep(a, g).v);
    DaaReads(a, g, f);
  }

  lemma MaskedFlags(f: bv8)
    ensures var g := f & (FLAG_C | FLAG_N | FLAG_H);
            g & (FLAG_C | FLAG_N | FLAG_H) == g && g as int <= 0x13 && Agree(g, f, FLAG_C | FLAG_H | FLAG_N)
  {
    assert f & (FLAG_C | FLAG_N | FLAG_H) <= 0x13;
  }
}
