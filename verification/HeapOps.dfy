/** What the heap's operations do, and that every run of them keeps objects apart. */
module HeapOps {
  import opened Common
  import opened Bits
  import opened HeapModel

  // ----- The slots of a page -----

  /** Slots of `n` bytes from `a` up to `e`, as `new_slab` threads them. */
  function SlotsFrom(a: nat, n: nat, e: nat): (r: seq<nat>)
    decreases e - a, n
  {
    if n > 0 && a + n <= e then [a] + SlotsFrom(a + n, n, e) else []
  }

  function NewSlots(q: nat, c: nat): (r: seq<nat>)
    requires c < CLASSES
  {
    SlotsFrom(q + SizeOf(c), SizeOf(c), q + PAGE)
  }

  lemma {:induction false} SlotsFromFacts(a: nat, n: nat, e: nat)
    requires n > 0
    ensures NoDup(SlotsFrom(a, n, e)) && |SlotsFrom(a, n, e)| == if a <= e then (e - a) / n else 0
    ensures forall x: nat :: x in SlotsFrom(a, n, e) <==> a <= x && x + n <= e && (x - a) % n == 0
    decreases e - a
  {
    var l := SlotsFrom(a, n, e);
    if a + n <= e {
      var t := SlotsFrom(a + n, n, e);
      SlotsFromFacts(a + n, n, e);
      assert l == [a] + t;
      NoDupJoin([a], t);
      DivStep(n, e - a);
      forall x: nat ensures x in l <==> a <= x && x + n <= e && (x - a) % n == 0 {
        assert x in l <==> x == a || x in t;
        SlotStep(n, a, x);
      }
    } else if a <= e {
      DivUnique(n, 0, e - a);
    }
  }

  lemma SlotStep(n: nat, a: nat, x: nat)
    requires n > 0
    ensures a <= x && (x - a) % n == 0 <==> x == a || (a + n <= x && (x - (a + n)) % n == 0)
  {
    if a + n <= x {
      DivStep(n, x - a);
      assert x - (a + n) == (x - a) - n;
    } else if a < x {
      DivUnique(n, 0, x - a);
    } else if a == x {
      DivUnique(n, 0, 0);
    }
  }

  /** The threaded slots are the slots, and `Capacity` counts them. */
  lemma NewSlotsFacts(q: nat, c: nat)
    requires c < CLASSES
    ensures NoDup(NewSlots(q, c)) && |NewSlots(q, c)| == Capacity(c) > 0
    ensures forall s: nat :: s in NewSlots(q, c) <==> IsSlot(q, c, s)
  {
    var n := SizeOf(c);
    SlotsFromFacts(q + n, n, q + PAGE);
    DivStep(n, 4096 - n);
    forall s: nat ensures s in NewSlots(q, c) <==> IsSlot(q, c, s) {
      SlotStep(n, q, s);
      if q + n <= s {
        assert s - (q + n) == (s - q) - n;
        DivStep(n, s - q);
        MultipleIffMod(s - q, n);
      }
    }
  }

  // ----- Pigeonholes -----

  ghost function Elems(l: seq<nat>): (r: set<nat>) {
    set x | x in l
  }

  lemma {:induction false} NoDupCount(l: seq<nat>)
    requires NoDup(l)
    ensures |Elems(l)| == |l|
  {
    if l != [] {
      NoDupCount(l[1..]);
      assert l[0] !in l[1..];
      assert Elems(l) == Elems(l[1..]) + {l[0]} by { assert forall x :: x in l <==> x in l[1..] || x == l[0]; }
    }
  }

  lemma SubsetFull(a: set<nat>, b: set<nat>)
    requires a <= b && |a| == |b|
    ensures a == b
  {
    assert b == a + (b - a);
    assert b - a == {};
  }

  /** As many different slots as there are slots are all of them. */
  lemma AllThere(a: seq<nat>, b: seq<nat>)
    requires NoDup(a) && NoDup(b) && |a| == |b| && forall x :: x in a ==> x in b
    ensures forall x :: x in b ==> x in a
  {
    NoDupCount(a);
    NoDupCount(b);
    SubsetFull(Elems(a), Elems(b));
    forall x | x in b ensures x in a { assert x in Elems(b); }
  }

  // ----- Operations -----

  function ClassFrom(size: nat, c: nat): (r: Option<nat>)
    requires c <= CLASSES
    decreases CLASSES - c, size
  {
    if c == CLASSES then None else if size <= SizeOf(c) then Some(c) else ClassFrom(size, c + 1)
  }

  /** `class_index` */
  function ClassIndex(size: nat): (r: Option<nat>) {
    ClassFrom(if size < 8 then 8 else size, 0)
  }

  lemma {:induction false} ClassFromLeast(size: nat, c: nat)
    requires c <= CLASSES && forall i :: 0 <= i < c ==> SizeOf(i) < size
    ensures var r := ClassFrom(size, c);
            && (r.None? <==> size > 2048)
            && (r.Some? ==>
                  r.value < CLASSES && size <= SizeOf(r.value) && forall i :: 0 <= i < r.value ==> SizeOf(i) < size)
    decreases CLASSES - c
  {
    if c == CLASSES {
      assert SizeOf(7) < size;
    } else if size > SizeOf(c) {
      ClassFromLeast(size, c + 1);
    }
  }

  /** The class is the smallest that fits, and there is one exactly up to 2 KiB. */
  lemma ClassIndexLeast(size: nat)
    ensures var r := ClassIndex(size);
            && (r.None? <==> size > 2048)
            && (r.Some? ==>
                  r.value < CLASSES && size <= SizeOf(r.value) && forall i :: 0 <= i < r.value ==> SizeOf(i) < size)
  {
    ClassFromLeast(if size < 8 then 8 else size, 0);
  }

  datatype Route = Nothing | ToSlab(c: nat) | ToPages

  /** Which way `alloc` takes. */
  function RouteOf(l: Layout): (r: Route)
    ensures r.ToSlab? ==> r.c < CLASSES && 0 < l.size <= SizeOf(r.c) && Pow2(l.log) <= SizeOf(r.c)
    ensures r.Nothing? <==> l.size == 0
  {
    ClassIndexLeast(l.size);
    var c := ClassIndex(l.size);
    if l.size == 0 then Nothing else if c.Some? && Pow2(l.log) <= SizeOf(c.value) then ToSlab(c.value) else ToPages
  }

  /** An object gets a slot exactly when the smallest class that holds its size also has its alignment. */
  lemma SlotIff(l: Layout, c: nat)
    requires c < CLASSES
    ensures RouteOf(l) == ToSlab(c) <==>
              && 0 < l.size <= SizeOf(c) && Pow2(l.log) <= SizeOf(c)
              && forall d :: 0 <= d < c ==> SizeOf(d) < l.size
  {
    ClassIndexLeast(l.size);
    var k := ClassIndex(l.size);
    if k.Some? && k.value < c {
      assert l.size <= SizeOf(k.value);
    }
  }

  /** The first page of a chain with a free slot. */
  function FirstFree(h: Heap, chain: seq<nat>): (i: nat)
    requires forall q :: q in chain ==> q in h.free
    ensures i <= |chain| && (i < |chain| ==> h.free[chain[i]] != [])
    ensures forall k :: 0 <= k < i ==> h.free[chain[k]] == []
  {
    if chain == [] || h.free[chain[0]] != [] then 0 else 1 + FirstFree(h, chain[1..])
  }

  /** The first free slot of page `q` becomes an object. */
  function Pop(h: Heap, q: nat, l: Layout): (r: (Heap, nat))
    requires q in h.free && h.free[q] != []
  {
    var s := h.free[q][0];
    (h.(free := h.free[q := h.free[q][1..]], small := h.small[s := l]), s)
  }

  /** A new slab page at the head of its chain. */
  function AddSlab(h: Heap, c: nat, q: nat): (r: Heap)
    requires c < CLASSES == |h.chains|
  {
    h.(chains := h.chains[c := [q] + h.chains[c]], table := h.table[q := c], free := h.free[q := NewSlots(q, c)],
      blocks := h.blocks[q := PAGE])
  }

  /** The page at position `i` of chain `c` goes back. */
  function Drop(h: Heap, c: nat, i: nat): (r: Heap)
    requires c < |h.chains| && i < |h.chains[c]|
  {
    var q := h.chains[c][i];
    Heap(h.base, h.bytes, h.chains[c := h.chains[c][..i] + h.chains[c][i + 1..]], h.table - {q}, h.free - {q},
      h.blocks - {q}, h.small, h.large)
  }

  predicate IsEmpty(h: Heap, q: nat, c: nat)
    requires c < CLASSES
  {
    q in h.free && |h.free[q]| == Capacity(c)
  }

  /** The lazy sweep from position `i` of chain `c` on: empty pages go back, except heads. */
  function SweepChain(h: Heap, c: nat, i: nat): (r: Heap)
    requires |h.chains| == CLASSES && c < CLASSES && 0 < i
    ensures |r.chains| == CLASSES && forall d :: 0 <= d < CLASSES && d != c ==> r.chains[d] == h.chains[d]
    decreases |h.chains[c]| - i, h
  {
    if i >= |h.chains[c]| then h
    else if IsEmpty(h, h.chains[c][i], c) then SweepChain(Drop(h, c, i), c, i)
    else SweepChain(h, c, i + 1)
  }

  function SweepFrom(h: Heap, c: nat): (r: Heap)
    requires |h.chains| == CLASSES && c <= CLASSES
    ensures |r.chains| == CLASSES
    decreases CLASSES - c, h
  {
    if c == CLASSES then h else SweepFrom(SweepChain(h, c, 1), c + 1)
  }

  /** `sweep_empty_pages` */
  function Sweep(h: Heap): (r: Heap)
    requires |h.chains| == CLASSES
    ensures |r.chains| == CLASSES
  {
    SweepFrom(h, 0)
  }

  /** A block the page allocator may answer with: pages that are not in use. */
  ghost predicate FreshBlock(h: Heap, b: nat, n: nat) {
    && b % PAGE == 0 && 0 < h.base <= b && b + n <= h.base + h.bytes && PAGE <= n && b !in h.blocks
    && forall a :: a in h.blocks ==> Apart(a, h.blocks[a], b, n)
  }

  /** `slab_alloc`; `answer` is the page that a new slab gets. */
  function SlabAlloc(h: Heap, c: nat, l: Layout, answer: nat): (r: (Heap, nat))
    requires |h.chains| == CLASSES && c < CLASSES && forall q :: q in h.chains[c] ==> q in h.free
  {
    var i := FirstFree(h, h.chains[c]);
    if i < |h.chains[c]| then Pop(h, h.chains[c][i], l)
    else
      NewSlotsFacts(answer, c);
      Pop(AddSlab(Sweep(h), c, answer), answer, l)
  }

  /** Smallest order whose block has `pages` pages, from `o` on; `None` beyond the largest. */
  function OrderFrom(pages: nat, o: nat): (r: Option<nat>)
    requires o <= MAX_ORDER + 1
    ensures r.Some? ==> o <= r.value <= MAX_ORDER && pages <= Pow2(r.value)
    ensures forall n :: o <= n <= MAX_ORDER && (r.Some? ==> n < r.value) ==> pages > Pow2(n)
    decreases MAX_ORDER + 1 - o, pages
  {
    if o > MAX_ORDER then None else if pages <= Pow2(o) then Some(o) else OrderFrom(pages, o + 1)
  }

  /** Object, the word before it, and room for the alignment. */
  function Needed(l: Layout): (n: nat) {
    l.size + 8 + Pow2(l.log) - 1
  }

  function PagesFor(n: nat): (r: nat) {
    (n + 4095) / 4096
  }

  /** The block a large object gets is the smallest that has room for it; there is none for more than the largest. */
  lemma SmallestBlock(l: Layout)
    ensures var o := OrderFrom(PagesFor(Needed(l)), 0);
            && (o.None? <==> Needed(l) > PAGE * Pow2(MAX_ORDER))
            && (o.Some? ==>
                  && o.value <= MAX_ORDER && Needed(l) <= PAGE * Pow2(o.value)
                  && forall n :: 0 <= n < o.value ==> Needed(l) > PAGE * Pow2(n))
  {
    var pages := PagesFor(Needed(l));
    assert forall n: nat :: pages <= Pow2(n) <==> Needed(l) <= PAGE * Pow2(n);
    var o := OrderFrom(pages, 0);
    if o.Some? {
      Pow2Mono(o.value, MAX_ORDER);
    }
  }

  function AlignUp(x: nat, n: nat): (r: nat)
    requires n > 0
  {
    ((x + n - 1) / n) * n
  }

  /** `page_alloc` once the page allocator has answered with `block`, of order `o`. */
  function LargeAlloc(h: Heap, l: Layout, block: nat, o: nat): (r: (Heap, nat)) {
    var p := AlignUp(block + 8, Pow2(l.log));
    (h.(blocks := h.blocks[block := PAGE * Pow2(o)], large := h.large[p := Large(l, block)]), p)
  }

  /** The pages of all chains have free lists. */
  ghost predicate Chained(h: Heap) {
    |h.chains| == CLASSES && forall c, q :: 0 <= c < CLASSES && q in h.chains[c] ==> q in h.free
  }

  /** `alloc`; `answer` is what the page allocator says if it is asked. `None` is a panic. */
  function Alloc(h: Heap, l: Layout, answer: nat): (r: Option<(Heap, nat)>)
    requires Chained(h)
  {
    match RouteOf(l)
    case Nothing => Some((h, Pow2(l.log)))
    case ToSlab(c) => Some(SlabAlloc(h, c, l, answer))
    case ToPages =>
      var o := OrderFrom(PagesFor(Needed(l)), 0);
      if o.None? then None else Some(LargeAlloc(h, l, answer, o.value))
  }

  /** What the page allocator promises about its answer, if it is asked. */
  ghost predicate GoodAnswer(h: Heap, l: Layout, answer: nat)
    requires Chained(h)
  {
    match RouteOf(l)
    case Nothing => true
    case ToSlab(c) => FirstFree(h, h.chains[c]) == |h.chains[c]| ==> FreshBlock(Sweep(h), answer, PAGE)
    case ToPages =>
      var o := OrderFrom(PagesFor(Needed(l)), 0);
      o.Some? ==> FreshBlock(h, answer, PAGE * Pow2(o.value))
  }

  /** `dealloc`, of a live object; `None` is a panic. */
  function Dealloc(h: Heap, p: nat): (r: Option<Heap>)
    requires IsLive(h, p)
  {
    var q := PageOf(p);
    if q < h.base || q - h.base >= h.bytes then None
    else if q in h.table then
      if h.table[q] >= CLASSES || q !in h.free || !IsSlot(q, h.table[q], p) then None
      else Some(h.(free := h.free[q := [p] + h.free[q]], small := h.small - {p}))
    else if p !in h.large then None
    else Some(h.(blocks := h.blocks - {h.large[p].block}, large := h.large - {p}))
  }

  // ----- Objects are apart -----

  predicate IsLive(h: Heap, p: nat) {
    p in h.small || p in h.large
  }

  function LayoutAt(h: Heap, p: nat): (l: Layout)
    requires IsLive(h, p)
  {
    if p in h.small then h.small[p] else h.large[p].layout
  }

  /** The block an object lies in. */
  function BlockAt(h: Heap, p: nat): (b: nat)
    requires IsLive(h, p)
  {
    if p in h.small then PageOf(p) else h.large[p].block
  }

  /** A live object is aligned and lies inside one block of the heap, behind the block's first word. */
  lemma LiveInside(h: Heap, p: nat)
    requires Inv(h) && IsLive(h, p)
    ensures var b, l := BlockAt(h, p), LayoutAt(h, p);
            && b in h.blocks && b + 8 <= p && p + l.size <= b + h.blocks[b] && p % Pow2(l.log) == 0 && p % 8 == 0
            && l.size > 0
            && b % PAGE == 0 && 0 < h.base <= b && b + h.blocks[b] <= h.base + h.bytes
  {
    if p in h.small {
      var q := PageOf(p);
      assert SmallFits(h.table, p, h.small[p]) && SlabPage(h.chains, h.table, h.blocks, q);
      SlotFacts(q, h.table[q], p);
      SmallAligned(p, h.table[q], h.small[p].log);
    } else {
      assert LargeFits(h.table, h.blocks, p, h.large[p]);
      AlignedIffMod(p, h.large[p].layout.log);
    }
  }

  /** No pointer is both: the page of a large object is never a slab page, wherever in its block it lies. */
  lemma LargeOffTable(h: Heap, p: nat)
    requires Inv(h) && p in h.large
    ensures PageOf(p) !in h.table && p !in h.small
  {
    var g, q := h.large[p], PageOf(p);
    assert LargeFits(h.table, h.blocks, p, g);
    assert q in h.table ==>
      SlabPage(h.chains, h.table, h.blocks, q) && Apart(q, h.blocks[q], g.block, h.blocks[g.block]);
  }

  /** Two live objects never overlap. */
  lemma ObjectsDisjoint(h: Heap, p: nat, r: nat)
    requires Inv(h) && IsLive(h, p) && IsLive(h, r) && p != r
    ensures Apart(p, LayoutAt(h, p).size, r, LayoutAt(h, r).size)
  {
    LiveInside(h, p);
    LiveInside(h, r);
    var b, d := BlockAt(h, p), BlockAt(h, r);
    if p in h.small {
      assert SmallFits(h.table, p, h.small[p]);
    } else {
      assert LargeFits(h.table, h.blocks, p, h.large[p]);
    }
    if r in h.small {
      assert SmallFits(h.table, r, h.small[r]);
    } else {
      assert LargeFits(h.table, h.blocks, r, h.large[r]);
    }
    if b != d {
      assert Apart(b, h.blocks[b], d, h.blocks[d]);
    } else if p in h.small && r in h.small {
      SlotsApart(b, h.table[b], p, r);
    }
  }

  /** The word before a large object, which names its block, lies in no live object. */
  lemma BaseWordPrivate(h: Heap, p: nat, r: nat)
    requires Inv(h) && p in h.large && IsLive(h, r)
    ensures Apart(p - 8, 8, r, LayoutAt(h, r).size)
  {
    LiveInside(h, r);
    assert LargeFits(h.table, h.blocks, p, h.large[p]);
    assert r in h.small ==> SmallFits(h.table, r, h.small[r]);
    var b, d := h.large[p].block, BlockAt(h, r);
    if b != d {
      assert Apart(b, h.blocks[b], d, h.blocks[d]);
    }
  }

  /** Headers, where the heap keeps words of its own, are in no live object. */
  lemma HeaderPrivate(h: Heap, q: nat, r: nat)
    requires Inv(h) && q in h.table && IsLive(h, r)
    ensures Apart(q, 16, r, LayoutAt(h, r).size)
  {
    assert SlabPage(h.chains, h.table, h.blocks, q);
    LiveInside(h, r);
    var d := BlockAt(h, r);
    if r in h.small {
      assert SmallFits(h.table, r, h.small[r]);
      SlotFacts(d, h.table[d], r);
    } else {
      assert LargeFits(h.table, h.blocks, r, h.large[r]);
    }
    if q != d { assert Apart(q, h.blocks[q], d, h.blocks[d]); }
  }

  /** Neither are free slots, through which the free lists are threaded. */
  lemma FreeSlotPrivate(h: Heap, q: nat, s: nat, r: nat)
    requires Inv(h) && q in h.table && q in h.free && s in h.free[q] && IsLive(h, r)
    ensures Apart(s, 8, r, LayoutAt(h, r).size)
  {
    assert SlabPage(h.chains, h.table, h.blocks, q) && PageSlots(h.free[q], q, h.table[q], h.small);
    LiveInside(h, r);
    var d := BlockAt(h, r);
    if r in h.small {
      assert SmallFits(h.table, r, h.small[r]);
    } else {
      assert LargeFits(h.table, h.blocks, r, h.large[r]);
    }
    if q != d {
      assert Apart(q, h.blocks[q], d, h.blocks[d]);
    } else if r in h.small {
      SlotsApart(q, h.table[q], s, r);
    }
  }
}
