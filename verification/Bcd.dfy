/** Decimal arithmetic: chains of ADC;DAA and SBC;DAA over packed-BCD bytes (core/z80_interp.c). */
module Bcd {
  import opened Bits
  import opened Interp
  import opened FlagsProof

  /** Both nibbles are decimal digits. */
  predicate IsBcd(b: bv8) { (b & 0xF) <= 9 && (b >> 4) <= 9 }

  /** The decimal number a packed byte stands for. */
  function Decimal(b: bv8): int { 10 * Int(b >> 4) + Int(b & 0xF) }

  function Int(b: bv8): int { b as int }

  /** ADC A,b then DAA. */
  function AdcDaa(a: bv8, b: bv8, c: bv8): Res8 {
    var sum := AddWith(a, b, c);
    DaaStep(sum.v, sum.f)
  }

  /** SBC A,b then DAA. */
  function SbcDaa(a: bv8, b: bv8, c: bv8): Res8 {
    var diff := SubWith(a, b, c);
    DaaStep(diff.v, diff.f)
  }

  /** Carry out of one decimal digit. */
  function DigitCarry(s: bv8): bv8 { if s > 9 then 1 else 0 }

  /** What stays of a digit sum in its place. */
  function DigitOf(s: bv8): bv8 { s - 10 * DigitCarry(s) }

  function Low(b: bv8): bv8 { b & 0xF }
  function High(b: bv8): bv8 { b >> 4 }

  // ---- addition ----

  function LowSum(a: bv8, b: bv8, c: bv8): bv8 { Low(a) + Low(b) + c }
  function HighSum(a: bv8, b: bv8): bv8 { High(a) + High(b) }

  /** The binary sum in terms of the digit sums `lo` (with carry) and `hi`. */
  function JoinSum(hi: bv8, lo: bv8): bv8 { (hi << 4) + lo }
  predicate JoinCarry(hi: bv8, lo: bv8) { ((hi as bv16) << 4) + (lo as bv16) > 0xFF }

  lemma SumFlags(a: bv8, b: bv8, c: bv8)
    ensures var sum := AddWith(a, b, c);
            && (sum.f & FLAG_C != 0 <==> (a as bv16) + (b as bv16) + (c as bv16) > 0xFF)
            && (sum.f & FLAG_H != 0 <==> (a & 0xF) + (b & 0xF) + c > 0xF) && sum.f & FLAG_N == 0
  {
  }

  lemma SumJoins(a: bv8, b: bv8, c: bv8)
    requires IsBcd(a) && IsBcd(b) && c <= 1
    ensures LowSum(a, b, c) <= 19 && HighSum(a, b) <= 18
    ensures ((a as bv16) + (b as bv16) + (c as bv16) > 0xFF) == JoinCarry(HighSum(a, b), LowSum(a, b, c))
  {
  }

  lemma SumValue(a: bv8, b: bv8, c: bv8)
    requires IsBcd(a) && IsBcd(b) && c <= 1
    ensures AddWith(a, b, c).v == JoinSum(HighSum(a, b), LowSum(a, b, c))
  {
    hide XyFrom, ZeroSign;
  }

  lemma BinarySum(a: bv8, b: bv8, c: bv8)
    requires IsBcd(a) && IsBcd(b) && c <= 1
    ensures var lo, hi := LowSum(a, b, c), HighSum(a, b);
            var sum := AddWith(a, b, c);
            && lo <= 19 && hi <= 18 && sum.v == JoinSum(hi, lo)
            && (sum.f & FLAG_C != 0) == JoinCarry(hi, lo) && (sum.f & FLAG_H != 0) == (lo > 15)
               && (sum.f & FLAG_N != 0) == false
  {
    hide IsBcd, AddWith, JoinSum, JoinCarry, HighSum;
    SumFlags(a, b, c);
    SumJoins(a, b, c);
    SumValue(a, b, c);
  }

  lemma AdjustSum(hi: bv8, lo: bv8)
    requires lo <= 19 && hi <= 18
    ensures var r := DaaCore(JoinSum(hi, lo), JoinCarry(hi, lo), lo > 15, false);
            && Low(r.v) == DigitOf(lo) && High(r.v) == DigitOf(hi + DigitCarry(lo))
               && r.f & FLAG_C == DigitCarry(hi + DigitCarry(lo))
  {
  }

  lemma AddDigits(a: bv8, b: bv8, c: bv8)
    requires IsBcd(a) && IsBcd(b) && c <= 1
    ensures var r := AdcDaa(a, b, c);
            var lo := LowSum(a, b, c);
            var hi := HighSum(a, b) + DigitCarry(lo);
            && lo <= 19 && HighSum(a, b) <= 18
            && Low(r.v) == DigitOf(lo) && High(r.v) == DigitOf(hi) && r.f & FLAG_C == DigitCarry(hi)
  {
    hide IsBcd, AddWith, DaaCore, JoinSum, JoinCarry, DigitCarry, LowSum, HighSum, DigitOf, Low, High;
    BinarySum(a, b, c);
    AdjustSum(HighSum(a, b), LowSum(a, b, c));
  }

  lemma DigitSum(x: bv8, y: bv8, c: bv8)
    requires x <= 9 && y <= 9 && c <= 1
    ensures Int(x + y + c) == Int(x) + Int(y) + Int(c) && Int(x + y) == Int(x) + Int(y)
  {
  }

  lemma HighInts(h: bv8, k: bv8)
    requires h <= 18 && k <= 1
    ensures Int(h + k) == Int(h) + Int(k) && h + k <= 19
  {
  }

  lemma DigitInts(s: bv8)
    requires s <= 19
    ensures Int(DigitOf(s)) == Int(s) - 10 * Int(DigitCarry(s)) && DigitOf(s) <= 9 && DigitCarry(s) <= 1
  {
  }

  lemma SumInts(a: bv8, b: bv8, c: bv8)
    requires IsBcd(a) && IsBcd(b) && c <= 1
    ensures Int(LowSum(a, b, c)) == Int(Low(a)) + Int(Low(b)) + Int(c)
    ensures Int(HighSum(a, b)) == Int(High(a)) + Int(High(b))
  {
    hide IsBcd, Low, High, Int;
    BcdOf(a);
    BcdOf(b);
    DigitSum(Low(a), Low(b), c);
    DigitSum(High(a), High(b), c);
  }

  lemma BcdOf(b: bv8)
    ensures IsBcd(b) <==> Low(b) <= 9 && High(b) <= 9
    ensures Decimal(b) == 10 * Int(High(b)) + Int(Low(b))
  {
    hide Int;
  }

  /** One byte: packed BCD in, packed BCD out, and the carry flag is the hundreds. */
  lemma AddByte(a: bv8, b: bv8, c: bv8)
    requires IsBcd(a) && IsBcd(b) && c <= 1
    ensures var r := AdcDaa(a, b, c);
            && IsBcd(r.v) && r.f & FLAG_C <= 1
            && Decimal(r.v) + 100 * Int(r.f & FLAG_C) == Decimal(a) + Decimal(b) + Int(c)
  {
    hide IsBcd, AdcDaa, DigitCarry, LowSum, HighSum, DigitOf, Low, High, Decimal, Int;
    AddDigits(a, b, c);
    var r := AdcDaa(a, b, c);
    var lo := LowSum(a, b, c);
    DigitInts(lo);
    HighInts(HighSum(a, b), DigitCarry(lo));
    DigitInts(HighSum(a, b) + DigitCarry(lo));
    SumInts(a, b, c);
    BcdOf(a);
    BcdOf(b);
    BcdOf(r.v);
  }

  // ---- subtraction ----

  /** Borrow out of one decimal digit: does a - b - c go below zero? */
  function DigitBorrow(a: bv8, b: bv8, c: bv8): bv8 { if a < b + c then 1 else 0 }
  function DigitDiff(a: bv8, b: bv8, c: bv8): bv8 { a - b - c + 10 * DigitBorrow(a, b, c) }

  /** The binary difference of the digits `ah` `al` and `bh` `bl`. */
  function DigitsDiff(ah: bv8, al: bv8, bh: bv8, bl: bv8): bv8 { ((ah - bh) << 4) + (al - bl) }
  function JoinDiff(ah: bv8, al: bv8, bh: bv8, bl: bv8, c: bv8): bv8 { Minus(DigitsDiff(ah, al, bh, bl), c) }
  function Minus(x: bv8, y: bv8): bv8 { x - y }
  predicate JoinBorrow(ah: bv8, al: bv8, bh: bv8, bl: bv8, c: bv8) { ah < bh + DigitBorrow(al, bl, c) }

  lemma DiffCarry(a: bv8, b: bv8, c: bv8)
    ensures SubWith(a, b, c).f & FLAG_C != 0 <==> (a as bv16) < (b as bv16) + (c as bv16)
    ensures SubWith(a, b, c).f & FLAG_N != 0
  {
    hide XyFrom, ZeroSign;
    XySign(a - b - c);
  }

  lemma DiffHalf(a: bv8, b: bv8, c: bv8)
    ensures SubWith(a, b, c).f & FLAG_H != 0 <==> ((a & 0xF) - (b & 0xF) - c) & 0x10 != 0
  {
    hide XyFrom, ZeroSign;
    XySign(a - b - c);
  }

  /** S, Z and bits 5 and 3 leave H, N and C alone. */
  lemma XySign(v: bv8)
    ensures (XyFrom(v) | ZeroSign(v)) & (FLAG_H | FLAG_N | FLAG_C) == 0
  {
  }

  lemma BorrowsJoin(a: bv8, b: bv8, c: bv8)
    requires IsBcd(a) && IsBcd(b) && c <= 1
    ensures ((a as bv16) < (b as bv16) + (c as bv16)) == JoinBorrow(High(a), Low(a), High(b), Low(b), c)
  {
  }

  lemma HalfJoins(a: bv8, b: bv8, c: bv8)
    requires IsBcd(a) && IsBcd(b) && c <= 1
    ensures (((a & 0xF) - (b & 0xF) - c) & 0x10 != 0) == (DigitBorrow(Low(a), Low(b), c) == 1)
  {
  }

  lemma SplitDiff(a: bv8, b: bv8)
    ensures Minus(a, b) == DigitsDiff(High(a), Low(a), High(b), Low(b))
  {
  }

  lemma BinaryDiff(a: bv8, b: bv8, c: bv8)
    requires IsBcd(a) && IsBcd(b) && c <= 1
    ensures var diff := SubWith(a, b, c);
            && diff.v == JoinDiff(High(a), Low(a), High(b), Low(b), c)
            && (diff.f & FLAG_C != 0) == JoinBorrow(High(a), Low(a), High(b), Low(b), c)
            && (diff.f & FLAG_H != 0) == (DigitBorrow(Low(a), Low(b), c) == 1) && (diff.f & FLAG_N != 0) == true
  {
    hide IsBcd, SubWith, Minus, DigitsDiff, JoinBorrow, DigitBorrow, Low, High;
    DiffCarry(a, b, c);
    DiffHalf(a, b, c);
    DiffValue(a, b, c);
    BorrowsJoin(a, b, c);
    HalfJoins(a, b, c);
    SplitDiff(a, b);
  }

  lemma DiffValue(a: bv8, b: bv8, c: bv8)
    requires c <= 1
    ensures SubWith(a, b, c).v == Minus(Minus(a, b), c)
  {
    hide SubWith, Minus;
    if c == 0 {
      DiffNone(a, b);
    } else {
      DiffOne(a, b);
    }
  }

  lemma DiffNone(a: bv8, b: bv8)
    ensures SubWith(a, b, 0).v == Minus(Minus(a, b), 0)
  {
    hide XyFrom, ZeroSign;
  }

  lemma DiffOne(a: bv8, b: bv8)
    ensures SubWith(a, b, 1).v == Minus(Minus(a, b), 1)
  {
    hide XyFrom, ZeroSign;
  }

  lemma DaaCarry(a: bv8, c: bool, h: bool, n: bool)
    ensures DaaCore(a, c, h, n).f & FLAG_C == When(a > 0x99 || c, FLAG_C)
  {
    hide Parity8;
    ParityBit(DaaCore(a, c, h, n).v);
  }

  lemma ParityBit(v: bv8)
    ensures Parity8(v) & FLAG_C == 0
  {
  }

  lemma AdjustCarry(ah: bv8, al: bv8, bh: bv8, bl: bv8, c: bv8)
    requires ah <= 9 && al <= 9 && bh <= 9 && bl <= 9 && c <= 1
    ensures When(JoinDiff(ah, al, bh, bl, c) > 0x99 || JoinBorrow(ah, al, bh, bl, c), FLAG_C)
            == DigitBorrow(ah, bh, DigitBorrow(al, bl, c))
  {
  }

  lemma AdjustValue(ah: bv8, al: bv8, bh: bv8, bl: bv8, c: bv8)
    requires ah <= 9 && al <= 9 && bh <= 9 && bl <= 9 && c <= 1
    ensures var lb := DigitBorrow(al, bl, c);
            var r := DaaCore(JoinDiff(ah, al, bh, bl, c), JoinBorrow(ah, al, bh, bl, c), lb == 1, true);
            Low(r.v) == DigitDiff(al, bl, c) && High(r.v) == DigitDiff(ah, bh, lb)
  {
    hide Parity8, XyFrom, ZeroSign;
  }

  lemma AdjustDiff(ah: bv8, al: bv8, bh: bv8, bl: bv8, c: bv8)
    requires ah <= 9 && al <= 9 && bh <= 9 && bl <= 9 && c <= 1
    ensures var lb := DigitBorrow(al, bl, c);
            var r := DaaCore(JoinDiff(ah, al, bh, bl, c), JoinBorrow(ah, al, bh, bl, c), lb == 1, true);
            && Low(r.v) == DigitDiff(al, bl, c) && High(r.v) == DigitDiff(ah, bh, lb)
               && r.f & FLAG_C == DigitBorrow(ah, bh, lb)
  {
    hide DaaCore, JoinDiff, JoinBorrow, DigitBorrow, DigitDiff, Low, High;
    AdjustValue(ah, al, bh, bl, c);
    AdjustCarry(ah, al, bh, bl, c);
    DaaCarry(JoinDiff(ah, al, bh, bl, c), JoinBorrow(ah, al, bh, bl, c), DigitBorrow(al, bl, c) == 1, true);
  }

  lemma DiffInts(a: bv8, b: bv8, c: bv8)
    requires a <= 9 && b <= 9 && c <= 1
    ensures Int(DigitDiff(a, b, c)) == Int(a) - Int(b) - Int(c) + 10 * Int(DigitBorrow(a, b, c))
    ensures DigitDiff(a, b, c) <= 9 && DigitBorrow(a, b, c) <= 1
  {
    assert Int(b + c) == Int(b) + Int(c);
  }

  /** One byte of a decimal subtraction; the carry flag is the borrowed hundred. */
  lemma SubByte(a: bv8, b: bv8, c: bv8)
    requires IsBcd(a) && IsBcd(b) && c <= 1
    ensures var r := SbcDaa(a, b, c);
            && IsBcd(r.v) && r.f & FLAG_C <= 1
            && Decimal(r.v) - 100 * Int(r.f & FLAG_C) == Decimal(a) - Decimal(b) - Int(c)
  {
    hide IsBcd, SubWith, DaaCore, JoinDiff, JoinBorrow, DigitBorrow, DigitDiff, Low, High, Decimal, Int;
    BcdOf(a);
    BcdOf(b);
    BinaryDiff(a, b, c);
    AdjustDiff(High(a), Low(a), High(b), Low(b), c);
    DiffInts(Low(a), Low(b), c);
    DiffInts(High(a), High(b), DigitBorrow(Low(a), Low(b), c));
    BcdOf(SbcDaa(a, b, c).v);
  }

  // ---- numbers of any length, least significant byte first ----

  datatype Digits = Digits(bytes: seq<bv8>, c: bv8)

  predicate AllBcd(s: seq<bv8>) { forall i :: 0 <= i < |s| ==> IsBcd(s[i]) }

  function Number(s: seq<bv8>): int { if s == [] then 0 else Decimal(s[0]) + 100 * Number(s[1..]) }

  function Hundreds(n: nat): int { if n == 0 then 1 else 100 * Hundreds(n - 1) }

  /** The guest loop: one ADC;DAA (or SBC;DAA) per byte, the carry flag carried along. */
  function Chain(sub: bool, a: seq<bv8>, b: seq<bv8>, c: bv8): Digits
    requires |a| == |b|
    decreases |a|
  {
    if a == [] then Digits([], c)
    else
      var r := if sub then SbcDaa(a[0], b[0], c) else AdcDaa(a[0], b[0], c);
      var rest := Chain(sub, a[1..], b[1..], r.f & FLAG_C);
      Digits([r.v] + rest.bytes, rest.c)
  }

  /** For operands of any length, the chain yields the packed BCD of the decimal sum or difference, and the final C
      is the decimal carry or borrow. */
  lemma {:induction false} ChainIsDecimal(sub: bool, a: seq<bv8>, b: seq<bv8>, c: bv8)
    requires |a| == |b| && AllBcd(a) && AllBcd(b) && c <= 1
    ensures var r := Chain(sub, a, b, c);
            && |r.bytes| == |a| && AllBcd(r.bytes) && r.c <= 1
            && if sub then Number(r.bytes) - Hundreds(|a|) * Int(r.c) == Number(a) - Number(b) - Int(c)
               else Number(r.bytes) + Hundreds(|a|) * Int(r.c) == Number(a) + Number(b) + Int(c)
    decreases |a|
  {
    hide IsBcd, AdcDaa, SbcDaa, Decimal, Int, Number, Hundreds;
    NumberCons(a);
    NumberCons(b);
    HundredsStep(|a|);
    if a != [] {
      var x := if sub then SbcDaa(a[0], b[0], c) else AdcDaa(a[0], b[0], c);
      if sub {
        SubByte(a[0], b[0], c);
      } else {
        AddByte(a[0], b[0], c);
      }
      ChainIsDecimal(sub, a[1..], b[1..], x.f & FLAG_C);
      var rest := Chain(sub, a[1..], b[1..], x.f & FLAG_C);
      var bytes := [x.v] + rest.bytes;
      assert bytes[1..] == rest.bytes;
      NumberCons(bytes);
      TimesHundred(Hundreds(|a| - 1), Int(rest.c));
    } else {
      TimesOne(Int(c));
    }
  }

  lemma NumberCons(s: seq<bv8>)
    ensures Number(s) == if s == [] then 0 else Decimal(s[0]) + 100 * Number(s[1..])
  {
    hide Decimal;
  }

  lemma HundredsStep(n: nat)
    ensures Hundreds(n) == if n == 0 then 1 else 100 * Hundreds(n - 1)
  {
  }

  lemma TimesHundred(h: int, c: int)
    ensures (100 * h) * c == 100 * (h * c)
  {
  }

  lemma TimesOne(c: int)
    ensures 1 * c == c
  {
  }
}
