/** Bytes, words, flag bits and guest memory of the Z80 (core/z80.h). */
module Bits {

  const FLAG_S: bv8 := 0x80
  const FLAG_Z: bv8 := 0x40
  const FLAG_5: bv8 := 0x20
  const FLAG_H: bv8 := 0x10
  const FLAG_3: bv8 := 0x08
  const FLAG_PV: bv8 := 0x04
  const FLAG_N: bv8 := 0x02
  const FLAG_C: bv8 := 0x01
  const FLAG_XY: bv8 := 0x28
  const FLAG_SZP: bv8 := 0xC4

  /** A 16-bit address or register pair; arithmetic on it wraps. */
  type Addr = x: int | 0 <= x < 0x1_0000

  function Wrap(x: int): Addr { x % 0x1_0000 }

  lemma WrapAdd(a: int, x: int, y: int)
    ensures Wrap(Wrap(a + x) + y) == Wrap(a + (x + y))
  {
  }

  /** The address `n` steps of `incr` away. */
  function Moved(a: Addr, incr: int, n: int): Addr { Wrap(a + incr * n) }

  lemma MovedNone(a: Addr, incr: int)
    ensures Moved(a, incr, 0) == a
  {
    assert incr * 0 == 0;
  }

  lemma MovedNext(a: Addr, incr: int, n: int)
    ensures Wrap(Moved(a, incr, n) + incr) == Moved(a, incr, n + 1)
  {
    assert incr * (n + 1) == incr * n + incr;
    WrapAdd(a, incr * n, incr);
  }

  lemma MovedUp(a: Addr, n: int)
    ensures Moved(a, 1, n) == Wrap(a + n) && Moved(a, -1, n) == Wrap(a - n)
  {
  }

  /** Guest memory: 65536 bytes, zeroed at allocation, so an address that was
      never written reads as zero. */
  type Memory = map<Addr, bv8>

  function Rd(m: Memory, a: Addr): bv8 {
    if a in m then m[a] else 0
  }

  function Rd16(m: Memory, a: Addr): Addr {
    Word(Rd(m, Wrap(a + 1)), Rd(m, a))
  }

  function Word(hi: bv8, lo: bv8): Addr { (hi as int) * 256 + (lo as int) }
  function Hi(w: Addr): bv8 { (w / 256) as bv8 }
  function Lo(w: Addr): bv8 { (w % 256) as bv8 }
  function SetHi(w: Addr, b: bv8): Addr { Word(b, Lo(w)) }
  function SetLo(w: Addr, b: bv8): Addr { Word(Hi(w), b) }

  lemma ByteOf(x: int)
    requires 0 <= x < 256
    ensures (x as bv8) as int == x
  {
    if x < 16 {
    } else if x < 32 {
    } else if x < 64 {
    } else if x < 128 {
    } else if x < 192 {
    }
  }

  lemma WordHalves(h: bv8, l: bv8)
    ensures Hi(Word(h, l)) == h && Lo(Word(h, l)) == l
  {
    assert Word(h, l) / 256 == h as int && Word(h, l) % 256 == l as int;
  }

  lemma HalvesWord(w: Addr)
    ensures Word(Hi(w), Lo(w)) == w
  {
    ByteOf(w / 256);
    ByteOf(w % 256);
  }

  lemma SetSame(w: Addr)
    ensures SetHi(w, Hi(w)) == w && SetLo(w, Lo(w)) == w
  {
    hide Word, Hi, Lo;
    HalvesWord(w);
  }

  /** An int8_t displacement. */
  function Signed(d: bv8): int {
    if d & 0x80 != 0 then (d as int) - 256 else d as int
  }

  /** `m` when the condition holds, no bits otherwise. */
  function When(c: bool, m: bv8): bv8 { if c then m else 0 }

  /** Bits 5 and 3, in F's positions. */
  function XyFrom(b: bv8): bv8 { b & FLAG_XY }

  /** P/V for even parity, by folding the byte onto itself. */
  function Parity8(v: bv8): bv8 {
    var v1 := v ^ (v >> 4);
    var v2 := v1 ^ (v1 >> 2);
    var v3 := v2 ^ (v2 >> 1);
    if v3 & 1 != 0 then 0 else FLAG_PV
  }

  /** Two flag bytes agree on every bit of the mask. */
  predicate Agree(f: bv8, g: bv8, mask: bv8) { (f ^ g) & mask == 0 }

  /** One byte stored at one address. */
  datatype Store = Store(addr: Addr, val: bv8)

  function Apply(m: Memory, ws: seq<Store>): Memory
    decreases |ws|
  {
    if ws == [] then m else Apply(m[ws[0].addr := ws[0].val], ws[1..])
  }
}
