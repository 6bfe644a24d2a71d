/** The link registry's storage (dbt/block_cache.c): one pool of records, threaded by `next` into a list per
    guest address and a free list. */
module LinkPool {
  import opened Bits
  import opened BlockCache

  const LINK_NONE: nat := 0xFFFF_FFFF

  /** link_head, link_pool, link_used and link_free. */
  datatype Pool = Pool(head: seq<nat>, site: seq<Site>, next: seq<nat>, used: nat, free: nat)

  /** Which list a record is on, and how many records come after it there. */
  datatype Owner = Free(depth: nat) | Of(pc: nat, depth: nat)

  /** The lists as stacks of record numbers, last recorded on top. */
  datatype Layout = Layout(stacks: seq<seq<nat>>, freed: seq<nat>, owner: seq<Owner>)

  function Top(stack: seq<nat>): nat { if stack == [] then LINK_NONE else stack[|stack| - 1] }

  /** `next` threads the stack from its top down. */
  ghost predicate Threaded(next: seq<nat>, stack: seq<nat>) {
    forall d :: 0 <= d < |stack| ==> stack[d] < |next| && next[stack[d]] == Under(stack, d)
  }

  /** The record below position `d`. */
  function Under(stack: seq<nat>, d: nat): nat
    requires d < |stack|
  {
    if d == 0 then LINK_NONE else stack[d - 1]
  }

  /** Every place on a list holds a used record that knows it; `hole` is on no list. */
  ghost predicate Placed(stacks: seq<seq<nat>>, owner: seq<Owner>, hole: nat) {
    forall p, d :: 0 <= p < |stacks| && 0 <= d < |stacks[p]| ==>
      stacks[p][d] < |owner| && stacks[p][d] != hole && owner[stacks[p][d]] == Of(p, d)
  }

  ghost predicate PlacedFree(freed: seq<nat>, owner: seq<Owner>, hole: nat) {
    forall d :: 0 <= d < |freed| ==> freed[d] < |owner| && freed[d] != hole && owner[freed[d]] == Free(d)
  }

  predicate AtPlace(stacks: seq<seq<nat>>, freed: seq<nat>, o: Owner, i: nat) {
    match o
    case Free(d) => d < |freed| && freed[d] == i
    case Of(p, d) => p < |stacks| && d < |stacks[p]| && stacks[p][d] == i
  }

  /** Every used record but `hole` is where it says it is. */
  ghost predicate Known(l: Layout, hole: nat) {
    forall i :: 0 <= i < |l.owner| && i != hole ==> AtPlace(l.stacks, l.freed, l.owner[i], i)
  }

  /** The lists are acyclic, pairwise disjoint and together hold exactly the records [0, used) other than `hole`:
      every record knows its one place, and every place holds the record that knows it. */
  ghost predicate Partition(l: Layout, used: nat, hole: nat) {
    |l.owner| == used && |l.stacks| == ADDRESSES && EachInPlace(l, hole)
  }

  ghost predicate EachInPlace(l: Layout, hole: nat) {
    Placed(l.stacks, l.owner, hole) && PlacedFree(l.freed, l.owner, hole) && Known(l, hole)
  }

  ghost predicate Sized(q: Pool) {
    |q.head| == ADDRESSES && |q.site| == LINK_POOL_SIZE && |q.next| == LINK_POOL_SIZE && q.used <= LINK_POOL_SIZE
  }

  ghost predicate Headed(q: Pool, stacks: seq<seq<nat>>)
    requires |q.head| == ADDRESSES && |stacks| == ADDRESSES
  {
    forall p :: 0 <= p < ADDRESSES ==> q.head[p] == Top(stacks[p]) && Threaded(q.next, stacks[p])
  }

  ghost predicate PoolOk(q: Pool, l: Layout, hole: nat) {
    Sized(q) && Partition(l, q.used, hole) && Headed(q, l.stacks) && q.free == Top(l.freed) && Threaded(q.next, l.freed)
  }

  /** The pool holds what the cache value says: the sites of each list in order, and the room left. */
  ghost predicate Holds(q: Pool, l: Layout, lists: seq<seq<Site>>, spare: nat) {
    PoolOk(q, l, LINK_NONE) && |lists| == ADDRESSES && spare == |l.freed| + (LINK_POOL_SIZE - q.used)
    && forall p :: 0 <= p < ADDRESSES ==> SitesOf(q, l.stacks[p], lists[p])
  }

  ghost predicate SitesOf(q: Pool, stack: seq<nat>, sites: seq<Site>) {
    |stack| == |sites| && forall d :: 0 <= d < |stack| ==> stack[d] < |q.site| && q.site[stack[d]] == sites[d]
  }

  /** No record is on two lists, or twice on one, and none of the used ones is lost. */
  lemma ListsPartition(q: Pool, l: Layout, i: nat)
    requires PoolOk(q, l, LINK_NONE)
    ensures i < q.used <==> (i in l.freed || exists p :: 0 <= p < ADDRESSES && i in l.stacks[p])
    ensures i in l.freed ==> forall p :: 0 <= p < ADDRESSES ==> i !in l.stacks[p]
    ensures forall p, r :: 0 <= p < ADDRESSES && 0 <= r < ADDRESSES && i in l.stacks[p] && i in l.stacks[r] ==> p == r
    ensures forall p, d, e ::
              && 0 <= p < ADDRESSES && 0 <= d < |l.stacks[p]| && 0 <= e < |l.stacks[p]|
              && l.stacks[p][d] == l.stacks[p][e]
              ==> d == e
  {
    if i < q.used {
      assert AtPlace(l.stacks, l.freed, l.owner[i], i);
    }
  }

  // ---- taking a record off a list, and putting it on another ----

  lemma ThreadedPop(next: seq<nat>, stack: seq<nat>)
    requires Threaded(next, stack) && stack != []
    ensures var rest := stack[..|stack| - 1];
            Threaded(next, rest) && Top(stack) < |next| && next[Top(stack)] == Top(rest)
  {
    var rest := stack[..|stack| - 1];
    forall d | 0 <= d < |rest| ensures rest[d] < |next| && next[rest[d]] == Under(rest, d) {
      assert rest[d] == stack[d] && Under(rest, d) == Under(stack, d);
    }
    assert next[stack[|stack| - 1]] == Top(rest);
  }

  lemma ThreadedFrame(next: seq<nat>, stack: seq<nat>, i: nat, v: nat)
    requires Threaded(next, stack) && i < |next| && i !in stack
    ensures Threaded(next[i := v], stack)
  {
  }

  lemma ThreadedPush(next: seq<nat>, stack: seq<nat>, i: nat)
    requires Threaded(next, stack) && i < |next| && i !in stack
    ensures Threaded(next[i := Top(stack)], stack + [i])
  {
    var s := stack + [i];
    forall d | 0 <= d < |s| ensures s[d] < |next| && next[i := Top(stack)][s[d]] == Under(s, d) {
      if d < |stack| {
        assert s[d] == stack[d] && Under(s, d) == Under(stack, d);
      }
    }
  }

  lemma NotOnLists(l: Layout, used: nat, hole: nat)
    requires Partition(l, used, hole)
    ensures hole !in l.freed && forall p :: 0 <= p < ADDRESSES ==> hole !in l.stacks[p]
  {
  }

  /** Pop the free list. */
  lemma TakeFree(q: Pool, l: Layout)
    requires PoolOk(q, l, LINK_NONE) && l.freed != []
    ensures q.free == l.freed[|l.freed| - 1] && q.free < q.used
    ensures PoolOk(q.(free := q.next[q.free]), l.(freed := l.freed[..|l.freed| - 1]), q.free)
  {
    hide Threaded;
    var n := |l.freed| - 1;
    assert l.owner[l.freed[n]] == Free(n);
    ThreadedPop(q.next, l.freed);
    FreeTaken(l, q.used);
  }

  lemma FreeTaken(l: Layout, used: nat)
    requires Partition(l, used, LINK_NONE) && l.freed != [] && used <= LINK_POOL_SIZE
    ensures Partition(l.(freed := l.freed[..|l.freed| - 1]), used, Top(l.freed))
  {
    var n := |l.freed| - 1;
    var l1 := l.(freed := l.freed[..n]);
    assert l.owner[l.freed[n]] == Free(n);
    forall i | 0 <= i < |l.owner| && i != l.freed[n] ensures AtPlace(l1.stacks, l1.freed, l.owner[i], i) {
      assert AtPlace(l.stacks, l.freed, l.owner[i], i);
    }
  }

  /** Use a fresh record. */
  lemma TakeNew(q: Pool, l: Layout)
    requires PoolOk(q, l, LINK_NONE) && q.used < LINK_POOL_SIZE
    ensures PoolOk(q.(used := q.used + 1), l.(owner := l.owner + [Free(0)]), q.used)
  {
    hide Threaded;
    var l1 := l.(owner := l.owner + [Free(0)]);
    forall i | 0 <= i < |l1.owner| && i != q.used ensures AtPlace(l1.stacks, l1.freed, l1.owner[i], i) {
      assert AtPlace(l.stacks, l.freed, l.owner[i], i);
    }
  }

  /** Pop the list of `pc`. */
  lemma TakeTop(q: Pool, l: Layout, pc: Addr)
    requires PoolOk(q, l, LINK_NONE) && l.stacks[pc] != []
    ensures q.head[pc] == Top(l.stacks[pc]) && q.head[pc] < q.used
    ensures PoolOk(q.(head := q.head[pc := q.next[q.head[pc]]]),
            l.(stacks := l.stacks[pc := l.stacks[pc][..|l.stacks[pc]| - 1]]), q.head[pc])
  {
    hide Threaded, EachInPlace;
    ThreadedPop(q.next, l.stacks[pc]);
    TopTaken(l, q.used, pc);
  }

  lemma TopTaken(l: Layout, used: nat, pc: Addr)
    requires Partition(l, used, LINK_NONE) && l.stacks[pc] != [] && used <= LINK_POOL_SIZE
    ensures Top(l.stacks[pc]) < used
    ensures Partition(l.(stacks := l.stacks[pc := l.stacks[pc][..|l.stacks[pc]| - 1]]), used, Top(l.stacks[pc]))
  {
    var n := |l.stacks[pc]| - 1;
    var l1 := l.(stacks := l.stacks[pc := l.stacks[pc][..n]]);
    assert l.owner[l.stacks[pc][n]] == Of(pc, n);
    forall i | 0 <= i < |l.owner| && i != l.stacks[pc][n] ensures AtPlace(l1.stacks, l1.freed, l.owner[i], i) {
      assert AtPlace(l.stacks, l.freed, l.owner[i], i);
    }
  }

  /** Push the loose record on the list of `pc`. */
  lemma PutOn(q: Pool, l: Layout, pc: Addr, hole: nat, site: Site)
    requires PoolOk(q, l, hole) && hole < q.used
    ensures PoolOk(q.(head := q.head[pc := hole], next := q.next[hole := q.head[pc]], site := q.site[hole := site]),
                   Layout(l.stacks[pc := l.stacks[pc] + [hole]], l.freed, l.owner[hole := Of(pc, |l.stacks[pc]|)]),
                       LINK_NONE)
  {
    hide Threaded, EachInPlace;
    NotOnLists(l, q.used, hole);
    var stacks1, next1 := l.stacks[pc := l.stacks[pc] + [hole]], q.next[hole := q.head[pc]];
    forall p | 0 <= p < ADDRESSES ensures Threaded(next1, stacks1[p]) {
      if p == pc {
        ThreadedPush(q.next, l.stacks[pc], hole);
      } else {
        ThreadedFrame(q.next, l.stacks[p], hole, q.head[pc]);
      }
    }
    ThreadedFrame(q.next, l.freed, hole, q.head[pc]);
    PutTop(l, q.used, pc, hole);
  }

  lemma PutTop(l: Layout, used: nat, pc: Addr, hole: nat)
    requires Partition(l, used, hole) && hole < used <= LINK_POOL_SIZE
    ensures Partition(Layout(l.stacks[pc := l.stacks[pc] + [hole]], l.freed, l.owner[hole := Of(pc, |l.stacks[pc]|)]),
            used, LINK_NONE)
  {
    var l1 := Layout(l.stacks[pc := l.stacks[pc] + [hole]], l.freed, l.owner[hole := Of(pc, |l.stacks[pc]|)]);
    forall i | 0 <= i < |l1.owner| ensures AtPlace(l1.stacks, l1.freed, l1.owner[i], i) {
      if i != hole {
        assert AtPlace(l.stacks, l.freed, l.owner[i], i);
      }
    }
  }

  /** Push the loose record on the free list. */
  lemma PutFree(q: Pool, l: Layout, hole: nat)
    requires PoolOk(q, l, hole) && hole < q.used
    ensures PoolOk(q.(free := hole, next := q.next[hole := q.free]),
                   l.(freed := l.freed + [hole], owner := l.owner[hole := Free(|l.freed|)]), LINK_NONE)
  {
    hide Threaded, EachInPlace;
    NotOnLists(l, q.used, hole);
    var next1 := q.next[hole := q.free];
    forall p | 0 <= p < ADDRESSES ensures Threaded(next1, l.stacks[p]) {
      ThreadedFrame(q.next, l.stacks[p], hole, q.free);
    }
    ThreadedPush(q.next, l.freed, hole);
    FreePut(l, q.used, hole);
  }

  lemma FreePut(l: Layout, used: nat, hole: nat)
    requires Partition(l, used, hole) && hole < used <= LINK_POOL_SIZE
    ensures Partition(l.(freed := l.freed + [hole], owner := l.owner[hole := Free(|l.freed|)]), used, LINK_NONE)
  {
    var l1 := l.(freed := l.freed + [hole], owner := l.owner[hole := Free(|l.freed|)]);
    forall i | 0 <= i < |l1.owner| ensures AtPlace(l1.stacks, l1.freed, l1.owner[i], i) {
      if i != hole {
        assert AtPlace(l.stacks, l.freed, l.owner[i], i);
      }
    }
  }

  // ---- the registry's operations on the pool ----

  /** The record dbt_link_record takes: the first free one, or the next unused one. */
  function TakeIndex(q: Pool): nat { if q.free != LINK_NONE then q.free else q.used }

  /** dbt_link_record on the pool, when there is room. */
  function RecordIn(q: Pool, pc: Addr, site: Site): Pool
    requires |q.head| == ADDRESSES && |q.site| == LINK_POOL_SIZE && |q.next| == LINK_POOL_SIZE
             && TakeIndex(q) < LINK_POOL_SIZE
  {
    var i := TakeIndex(q);
    Pool(q.head[pc := i], q.site[i := site], q.next[i := q.head[pc]],
         if q.free != LINK_NONE then q.used else q.used + 1,
         if q.free != LINK_NONE then q.next[i] else q.free)
  }

  lemma FreeOrNot(q: Pool, l: Layout)
    requires PoolOk(q, l, LINK_NONE)
    ensures q.free == LINK_NONE <==> l.freed == []
  {
    if l.freed != [] {
      assert l.freed[|l.freed| - 1] < q.used;
    }
  }

  lemma HeadOrNot(q: Pool, l: Layout, pc: Addr)
    requires PoolOk(q, l, LINK_NONE)
    ensures q.head[pc] == LINK_NONE <==> l.stacks[pc] == []
  {
    if l.stacks[pc] != [] {
      assert l.stacks[pc][|l.stacks[pc]| - 1] < q.used;
    }
  }

  ghost function RecordLayout(q: Pool, l: Layout, pc: Addr): Layout
    requires PoolOk(q, l, LINK_NONE) && TakeIndex(q) < LINK_POOL_SIZE
  {
    FreeOrNot(q, l);
    var i := TakeIndex(q);
    var own := Of(pc, |l.stacks[pc]|);
    if q.free != LINK_NONE then
      TakeFree(q, l);
      Layout(l.stacks[pc := l.stacks[pc] + [i]], l.freed[..|l.freed| - 1], l.owner[i := own])
    else Layout(l.stacks[pc := l.stacks[pc] + [i]], l.freed, (l.owner + [Free(0)])[i := own])
  }

  lemma RecordOk(q: Pool, l: Layout, pc: Addr, site: Site)
    requires PoolOk(q, l, LINK_NONE) && TakeIndex(q) < LINK_POOL_SIZE
    ensures PoolOk(RecordIn(q, pc, site), RecordLayout(q, l, pc), LINK_NONE)
    ensures forall p :: 0 <= p < ADDRESSES ==> TakeIndex(q) !in l.stacks[p]
  {
    hide Threaded, EachInPlace;
    FreeOrNot(q, l);
    if q.free != LINK_NONE {
      TakeFree(q, l);
      var q1, l1 := q.(free := q.next[q.free]), l.(freed := l.freed[..|l.freed| - 1]);
      NotOnLists(l1, q1.used, q.free);
      PutOn(q1, l1, pc, q.free, site);
    } else {
      TakeNew(q, l);
      var q1, l1 := q.(used := q.used + 1), l.(owner := l.owner + [Free(0)]);
      NotOnLists(l1, q1.used, q.used);
      PutOn(q1, l1, pc, q.used, site);
    }
  }

  lemma RecordHolds(q: Pool, l: Layout, lists: seq<seq<Site>>, spare: nat, pc: Addr, site: Site)
    requires Holds(q, l, lists, spare)
    ensures TakeIndex(q) < LINK_POOL_SIZE <==> spare > 0
    ensures spare > 0 ==>
            Holds(RecordIn(q, pc, site), RecordLayout(q, l, pc), lists[pc := lists[pc] + [site]], spare - 1)
  {
    hide Threaded, EachInPlace, Headed;
    FreeOrNot(q, l);
    if q.free != LINK_NONE {
      TakeFree(q, l);
    }
    if spare > 0 {
      RecordOk(q, l, pc, site);
      var q1, l1, lists1 := RecordIn(q, pc, site), RecordLayout(q, l, pc), lists[pc := lists[pc] + [site]];
      forall p | 0 <= p < ADDRESSES ensures SitesOf(q1, l1.stacks[p], lists1[p]) {
        assert SitesOf(q, l.stacks[p], lists[p]);
      }
    }
  }

  /** One turn of the unlinking loop: the top record moves to the free list. */
  function UnlinkIn(q: Pool, pc: Addr): Pool
    requires |q.head| == ADDRESSES && q.head[pc] < |q.next|
  {
    var i := q.head[pc];
    q.(head := q.head[pc := q.next[i]], next := q.next[i := q.free], free := i)
  }

  ghost function UnlinkLayout(q: Pool, l: Layout, pc: Addr): Layout
    requires PoolOk(q, l, LINK_NONE) && l.stacks[pc] != []
  {
    TakeTop(q, l, pc);
    var i := q.head[pc];
    Layout(l.stacks[pc := l.stacks[pc][..|l.stacks[pc]| - 1]], l.freed + [i], l.owner[i := Free(|l.freed|)])
  }

  lemma UnlinkHolds(q: Pool, l: Layout, lists: seq<seq<Site>>, spare: nat, pc: Addr)
    requires Holds(q, l, lists, spare) && lists[pc] != []
    ensures q.head[pc] < LINK_POOL_SIZE && l.stacks[pc] != [] && q.site[q.head[pc]] == lists[pc][|lists[pc]| - 1]
    ensures Holds(UnlinkIn(q, pc), UnlinkLayout(q, l, pc), lists[pc := lists[pc][..|lists[pc]| - 1]], spare + 1)
  {
    hide Threaded, EachInPlace, Headed;
    assert SitesOf(q, l.stacks[pc], lists[pc]);
    TakeTop(q, l, pc);
    var i := q.head[pc];
    var q1, l1 := q.(head := q.head[pc := q.next[i]]), l.(stacks := l.stacks[pc := l.stacks[pc][..|l.stacks[pc]| - 1]]);
    PutFree(q1, l1, i);
    var q2, l2, lists1 := UnlinkIn(q, pc), UnlinkLayout(q, l, pc), lists[pc := lists[pc][..|lists[pc]| - 1]];
    forall p | 0 <= p < ADDRESSES ensures SitesOf(q2, l2.stacks[p], lists1[p]) {
      assert SitesOf(q, l.stacks[p], lists[p]);
    }
  }

  /** A fresh pool. */
  lemma EmptyHolds(head: seq<nat>, site: seq<Site>, next: seq<nat>)
    requires |head| == ADDRESSES && |site| == LINK_POOL_SIZE && |next| == LINK_POOL_SIZE
             && forall p :: 0 <= p < ADDRESSES ==> head[p] == LINK_NONE
    ensures Holds(Pool(head, site, next, 0, LINK_NONE), Layout(seq(ADDRESSES, _ => []), [], []),
            seq(ADDRESSES, _ => []), LINK_POOL_SIZE)
  {
  }
}
