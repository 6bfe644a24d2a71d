/** The block cache, the code bitmap and the link registry as values (dbt/block_cache.c, sweeps of dbt/dbt_flags.c). */
module BlockCache {
  import opened Bits

  const ADDRESSES: nat := 0x1_0000
  const LINK_POOL_SIZE: nat := 512 * 1024

  /** A slot of the direct-mapped cache.  `native` names emitted code in the code buffer; a refused entry's span
      is 0xFFFFFFFF, more than any distance. */
  datatype Entry = Empty | Refused | Block(span: nat, native: nat)

  /** A patchable branch in the code buffer: which emitted block it belongs to, and which of its edges it is. */
  datatype Site = Site(native: nat, slot: nat)

  /** `lists[pc]` holds the recorded link sites that want to reach `pc`, oldest first.  `links` says where each
      patched site jumps; a site that is not in it falls through to its own probe.  `spare` counts the pool
      records that are still available, on the free list or never used. */
  datatype Cache = Cache(entries: seq<Entry>, bitmap: seq<bool>, maxBytes: nat, lastBytes: nat,
                         lists: seq<seq<Site>>, links: map<Site, nat>, spare: nat)

  ghost predicate Shaped(c: Cache) {
    |c.entries| == ADDRESSES && |c.bitmap| == ADDRESSES && |c.lists| == ADDRESSES && c.maxBytes < ADDRESSES
  }

  datatype Option<T> = None | Some(value: T)

  /** dbt_cache_invalidate_all. */
  function EmptyCache(lastBytes: nat): (c: Cache)
    ensures Shaped(c)
  {
    Cache(seq(ADDRESSES, _ => Empty), seq(ADDRESSES, _ => false), 0, lastBytes, seq(ADDRESSES, _ => []), map[],
        LINK_POOL_SIZE)
  }

  /** dbt_link_record. */
  function Record(c: Cache, pc: Addr, site: Site): (r: (Cache, bool))
    requires Shaped(c)
    ensures Shaped(r.0)
  {
    if c.spare == 0 then (c, false)
    else (c.(lists := c.lists[pc := c.lists[pc] + [site]], spare := c.spare - 1), true)
  }

  function Elements(s: seq<Site>): set<Site> { set x | x in s }

  /** dbt_links_repatch. */
  function Repatch(c: Cache, pc: Addr, code: Option<nat>): (r: Cache)
    requires Shaped(c)
    ensures Shaped(r)
  {
    match code
    case Some(native) => c.(links := c.links + map s | s in Elements(c.lists[pc]) :: native)
    case None => c.(links := c.links - Elements(c.lists[pc]), lists := c.lists[pc := []],
        spare := c.spare + |c.lists[pc]|)
  }

  /** emit_edge: record the site, and aim it at once if its target is already translated. */
  function EmitEdge(c: Cache, pc: Addr, site: Site): (r: Cache)
    requires Shaped(c)
    ensures Shaped(r)
  {
    var (c1, ok) := Record(c, pc, site);
    if ok && c1.entries[pc].Block? then c1.(links := c1.links[site := c1.entries[pc].native]) else c1
  }

  /** dbt_mark_block_bytes; `end` is the 16-bit address after the block. */
  function MarkBytes(c: Cache, start: Addr, end: Addr): (r: Cache)
    requires Shaped(c)
    ensures Shaped(r)
  {
    var bytes := Wrap(end - start);
    c.(maxBytes := if bytes > c.maxBytes then bytes else c.maxBytes, lastBytes := bytes,
       bitmap := seq(ADDRESSES, a requires 0 <= a < ADDRESSES => c.bitmap[a] || start <= a < end))
  }

  /** dbt_cache_insert. */
  function Insert(c: Cache, pc: Addr, code: Option<nat>): (r: Cache)
    requires Shaped(c)
    ensures Shaped(r)
  {
    var e := match code case Some(native) => Block(c.lastBytes, native) case None => Refused;
    Repatch(c.(entries := c.entries[pc := e]), pc, code)
  }

  /** Clear a slot and unlink every site aimed at it. */
  function Drop(c: Cache, p: Addr): (r: Cache)
    requires Shaped(c)
    ensures Shaped(r)
  {
    Repatch(c.(entries := c.entries[p := Empty]), p, None)
  }

  /** Does the slot hold something whose span reaches past a distance of `k`? */
  predicate SpanPast(e: Entry, k: nat) { e.Refused? || (e.Block? && k < e.span) }

  /** The window loop of dbt_invalidate_for_store, from distance `k` on. */
  function DropCovering(c: Cache, addr: Addr, k: nat): (r: Cache)
    requires Shaped(c)
    ensures Shaped(r) && r.maxBytes == c.maxBytes && r.bitmap == c.bitmap && r.lastBytes == c.lastBytes
    decreases c.maxBytes - k
  {
    if k >= c.maxBytes then c
    else
      var p := Wrap(addr - k);
      DropCovering(if SpanPast(c.entries[p], k) then Drop(c, p) else c, addr, k + 1)
  }

  /** dbt_invalidate_for_store. */
  function InvalidateForStore(c: Cache, addr: Addr): (r: Cache)
    requires Shaped(c)
    ensures Shaped(r)
  {
    var c1 := DropCovering(c, addr, 0);
    c1.(bitmap := c1.bitmap[addr := false])
  }

  /** What z80_mem_w, and the inline check of translated stores, do to the cache. */
  function AfterStore(c: Cache, addr: Addr): (r: Cache)
    requires Shaped(c)
    ensures Shaped(r)
  {
    if c.bitmap[addr] then InvalidateForStore(c, addr) else c
  }

  predicate AnyMarked(c: Cache, lo: Addr, len: nat)
    requires Shaped(c)
  {
    exists a | 0 <= a < ADDRESSES :: Wrap(a - lo) < len && c.bitmap[a]
  }

  /** Distance from a block that starts at sweep position `k` up to the first written byte, in 32-bit arithmetic. */
  function Gap(window: nat, k: nat): nat {
    var reach := if window == 0 then 0xFFFF_FFFF else window - 1;
    if reach > k then reach - k else 0
  }

  /** The sweep loop shared by LDIR, LDDR and the folded loops, from position `k` on. */
  function SweepFrom(c: Cache, lo: Addr, k: nat, total: nat): (r: Cache)
    requires Shaped(c)
    ensures Shaped(r) && r.maxBytes == c.maxBytes && r.bitmap == c.bitmap && r.lastBytes == c.lastBytes
    decreases total - k
  {
    if k >= total then c
    else
      var p := Wrap(lo + k - c.maxBytes + 1);
      SweepFrom(if SpanPast(c.entries[p], Gap(c.maxBytes, k)) then Drop(c, p) else c, lo, k + 1, total)
  }

  /** smc_sweep_forward. */
  function Sweep(c: Cache, lo: Addr, len: nat): (r: Cache)
    requires Shaped(c)
    ensures Shaped(r)
  {
    if len == 0 || !AnyMarked(c, lo, len) then c else SweepFrom(c, lo, 0, len + c.maxBytes)
  }

  /** z80_mem_host_wrote, from the i-th byte on. */
  function HostWrote(c: Cache, addr: Addr, i: nat, len: nat): (r: Cache)
    requires Shaped(c)
    ensures Shaped(r)
    decreases len - i
  {
    if i >= len then c else HostWrote(AfterStore(c, Wrap(addr + i)), addr, i + 1, len)
  }
}
