/**
  The kernel heap on values: slab pages with equal slots for small objects, whole blocks of pages for the
  rest. The blocks come from the page allocator, whose answers are parameters here.
*/
module HeapModel {
  import opened Common
  import opened Bits

  const PAGE: nat := 4096
  const CLASSES: nat := 8
  const MAX_ORDER: nat := 12

  /** The slot sizes, 16 bytes to 2 KiB. */
  function SizeOf(c: nat): (r: nat)
    requires c < CLASSES
    ensures 16 <= r <= 2048 && 4096 % r == 0 && r % 16 == 0
  {
    if c == 0 then 16 else if c == 1 then 32 else if c == 2 then 64 else if c == 3 then 128
    else if c == 4 then 256 else if c == 5 then 512 else if c == 6 then 1024 else 2048
  }

  function Capacity(c: nat): (r: nat)
    requires c < CLASSES
  {
    (PAGE - SizeOf(c)) / SizeOf(c)
  }

  /** A request: `size` bytes at an address that is a multiple of the power of two `Pow2(log)`. */
  datatype Layout = Layout(size: nat, log: nat)

  datatype Large = Large(layout: Layout, block: nat)

  /**
    `base` and `bytes` say where the allocator's memory is, `chains` are the slab pages of each class,
    `table` says which pages are slab pages and of which class, `free` are the free slots of each, `blocks` the
    address and bytes of what the page allocator has given,
    `small` and `large` the live objects.
  */
  datatype Heap = Heap(base: nat, bytes: nat, chains: seq<seq<nat>>, table: map<nat, nat>,
                       free: map<nat, seq<nat>>, blocks: map<nat, nat>,
                       small: map<nat, Layout>, large: map<nat, Large>)

  function PageOf(p: nat): (q: nat)
    ensures q <= p < q + PAGE && q % PAGE == 0
  {
    p - p % 4096
  }

  /** `d` is a multiple of `n`, without a division. */
  predicate Multiple(d: nat, n: nat)
    decreases d, n
  {
    n > 0 && (d == 0 || (n <= d && Multiple(d - n, n)))
  }

  /** Slots start after one slot size, where the page's header is. */
  predicate IsSlot(q: nat, c: nat, s: nat)
    requires c < CLASSES
  {
    q + SizeOf(c) <= s && s + SizeOf(c) <= q + PAGE && Multiple(s - q, SizeOf(c))
  }

  // ----- The invariant -----

  predicate Apart(a: nat, m: nat, b: nat, n: nat) {
    a + m <= b || b + n <= a
  }

  ghost predicate BlocksOk(base: nat, bytes: nat, blocks: map<nat, nat>) {
    && (forall b :: b in blocks ==>
         b % PAGE == 0 && 0 < base <= b && b + blocks[b] <= base + bytes && PAGE <= blocks[b])
    && (forall a, b {:trigger Apart(a, blocks[a], b, blocks[b])} ::
          a in blocks && b in blocks && a != b ==> Apart(a, blocks[a], b, blocks[b]))
  }

  /** A slab page is one page of the heap's and in the chain of its class. */
  predicate SlabPage(chains: seq<seq<nat>>, table: map<nat, nat>, blocks: map<nat, nat>, q: nat)
    requires q in table
  {
    table[q] < CLASSES && table[q] < |chains| && q in chains[table[q]] && q in blocks && blocks[q] == PAGE
  }

  ghost predicate TableOk(chains: seq<seq<nat>>, table: map<nat, nat>, blocks: map<nat, nat>) {
    forall q :: q in table ==> SlabPage(chains, table, blocks, q)
  }

  ghost predicate ChainsOk(chains: seq<seq<nat>>, table: map<nat, nat>) {
    && |chains| == CLASSES
    && (forall c :: 0 <= c < CLASSES ==> NoDup(chains[c]))
    && (forall c, q :: 0 <= c < CLASSES && q in chains[c] ==> q in table && table[q] == c)
  }

  /** Every slot of a slab page is free, and then listed once, or live. */
  ghost predicate PageSlots(l: seq<nat>, q: nat, c: nat, small: map<nat, Layout>)
    requires c < CLASSES
  {
    && NoDup(l)
    && (forall s :: s in l ==> IsSlot(q, c, s) && s !in small)
    && (forall s: nat :: IsSlot(q, c, s) ==> s in l || s in small)
  }

  ghost predicate SlotsOk(table: map<nat, nat>, free: map<nat, seq<nat>>, small: map<nat, Layout>) {
    && (forall q :: q in table ==> table[q] < CLASSES && q in free && PageSlots(free[q], q, table[q], small))
    && (forall q :: q in free ==> q in table)
  }

  predicate SmallFits(table: map<nat, nat>, p: nat, l: Layout) {
    var q := PageOf(p);
    q in table && table[q] < CLASSES && IsSlot(q, table[q], p) && 0 < l.size <= SizeOf(table[q]) &&
      Pow2(l.log) <= SizeOf(table[q])
  }

  ghost predicate SmallOk(table: map<nat, nat>, small: map<nat, Layout>) {
    forall p :: p in small ==> SmallFits(table, p, small[p])
  }

  ghost predicate LargeFits(table: map<nat, nat>, blocks: map<nat, nat>, p: nat, g: Large) {
    && g.block in blocks && g.block !in table && g.block + 8 <= p && p + g.layout.size <= g.block + blocks[g.block]
    && p % 8 == 0 && Aligned(p, g.layout.log) && 0 < g.layout.size
  }

  ghost predicate Owned(table: map<nat, nat>, large: map<nat, Large>, b: nat) {
    b in table || exists p :: p in large && large[p].block == b
  }

  /** Every block is a slab page or belongs to exactly one large object. */
  ghost predicate LargeOk(table: map<nat, nat>, blocks: map<nat, nat>, large: map<nat, Large>) {
    && (forall p :: p in large ==> LargeFits(table, blocks, p, large[p]))
    && (forall p, r :: p in large && r in large && large[p].block == large[r].block ==> p == r)
    && (forall b :: b in blocks ==> Owned(table, large, b))
  }

  ghost predicate Inv(h: Heap) {
    var blocks, table, chains := BlocksOk(h.base, h.bytes, h.blocks), TableOk(h.chains, h.table, h.blocks),
      ChainsOk(h.chains, h.table);
    var slots, small, large := SlotsOk(h.table, h.free, h.small), SmallOk(h.table, h.small),
      LargeOk(h.table, h.blocks, h.large);
    blocks && table && chains && slots && small && large
  }

  // ----- Arithmetic -----

  lemma MultiplesApart(n: nat, a: nat, b: nat)
    requires n > 0 && a % n == 0 && b % n == 0 && a < b
    ensures a + n <= b
  {
    var i, j := a / n, b / n;
    assert a == n * i && b == n * j;
    assert n * j >= n * (i + 1) by { assert j > i; }
  }

  lemma MulAtLeast(x: nat, k: int)
    ensures k >= 1 ==> x * k >= x
    ensures k <= -1 ==> x * k <= 0 - x
  {
    if k >= 1 {
      assert x * k == x + x * (k - 1);
    } else if k <= -1 {
      assert x * k == x * (k + 1) - x;
    }
  }

  lemma ModOfMultiple(x: nat, m: nat)
    requires x > 0
    ensures (x * m) % x == 0
  {
    var d, r := (x * m) / x, (x * m) % x;
    assert x * m == x * d + r;
    assert x * (m - d) == x * m - x * d;
    MulAtLeast(x, m - d);
  }

  lemma DivUnique(n: nat, d: nat, r: nat)
    requires r < n
    ensures (n * d + r) % n == r && (n * d + r) / n == d
  {
    var y := n * d + r;
    assert n * (y / n) + y % n == n * d + r;
    assert n * (y / n - d) == n * (y / n) - n * d;
    MulAtLeast(n, y / n - d);
  }

  lemma DivStep(n: nat, y: nat)
    requires 0 < n <= y
    ensures (y - n) % n == y % n && (y - n) / n + 1 == y / n
  {
    var d, r := y / n, y % n;
    assert y == n * d + r;
    assert d > 0 by { if d == 0 { assert false; } }
    assert n * (d - 1) == n * d - n;
    DivUnique(n, d - 1, r);
  }

  lemma {:induction false} MultipleIffMod(d: nat, n: nat)
    requires n > 0
    ensures Multiple(d, n) <==> d % n == 0
    decreases d
  {
    if n <= d {
      DivStep(n, d);
      MultipleIffMod(d - n, n);
    } else {
      DivUnique(n, 0, d);
    }
  }

  lemma ModFactor(p: nat, x: nat, y: nat)
    requires x > 0 && y > 0 && p % (x * y) == 0
    ensures p % x == 0
  {
    var k := p / (x * y);
    assert p == (x * y) * k == x * (y * k);
    ModOfMultiple(x, y * k);
  }

  lemma ModSum(n: nat, a: nat, b: nat)
    requires n > 0 && a % n == 0 && b % n == 0
    ensures (a + b) % n == 0
  {
    assert a == n * (a / n) && b == n * (b / n);
    assert a + b == n * (a / n + b / n);
    ModOfMultiple(n, a / n + b / n);
  }

  /** The page an address is in. */
  lemma PageIs(q: nat, s: nat)
    requires q % 4096 == 0 && q <= s < q + 4096
    ensures PageOf(s) == q
  {
  }

  lemma MultipleIn(n: nat, k: nat, m: nat, q: nat, s: nat)
    requires n > 0 && m > 0 && n * k == 4096 && n == 16 * m && q % 4096 == 0 && q <= s && (s - q) % n == 0
    ensures s % n == 0 && s % 16 == 0
  {
    ModFactor(q, n, k);
    ModSum(n, q, s - q);
    ModFactor(s, 16, m);
  }

  lemma EvenEight(s: nat)
    requires s % 16 == 0
    ensures s % 8 == 0
  {
  }

  lemma SizeFactors(c: nat)
    requires c < CLASSES
    ensures SizeOf(c) * (4096 / SizeOf(c)) == 4096 && SizeOf(c) == 16 * (SizeOf(c) / 16)
  {
  }

  lemma SlotFacts(q: nat, c: nat, s: nat)
    requires c < CLASSES && q % PAGE == 0 && IsSlot(q, c, s)
    ensures PageOf(s) == q && s % SizeOf(c) == 0 && s % 8 == 0 && q + 16 <= s
  {
    SizeFactors(c);
    PageIs(q, s);
    MultipleIffMod(s - q, SizeOf(c));
    MultipleIn(SizeOf(c), 4096 / SizeOf(c), SizeOf(c) / 16, q, s);
    EvenEight(s);
  }

  lemma SlotsApart(q: nat, c: nat, s: nat, t: nat)
    requires c < CLASSES && IsSlot(q, c, s) && IsSlot(q, c, t) && s != t
    ensures Apart(s, SizeOf(c), t, SizeOf(c))
  {
    MultipleIffMod(s - q, SizeOf(c));
    MultipleIffMod(t - q, SizeOf(c));
    if s < t { MultiplesApart(SizeOf(c), s - q, t - q); } else { MultiplesApart(SizeOf(c), t - q, s - q); }
  }

  lemma {:induction false} Pow2Splits(k: nat, n: nat)
    requires k <= n
    ensures Pow2(n) == Pow2(k) * Pow2(n - k)
  {
    if k < n {
      Pow2Splits(k, n - 1);
      assert Pow2(n) == 2 * Pow2(n - 1) && Pow2(n - k) == 2 * Pow2(n - 1 - k);
    }
  }

  lemma SizeIsPow2(c: nat)
    requires c < CLASSES
    ensures SizeOf(c) == Pow2(c + 4)
  {
    assert Pow2(4) == 16;
    if c >= 1 { assert Pow2(5) == 32; }
    if c >= 2 { assert Pow2(6) == 64; }
    if c >= 3 { assert Pow2(7) == 128; }
    if c >= 4 { assert Pow2(8) == 256; }
    if c >= 5 { assert Pow2(9) == 512; }
    if c >= 6 { assert Pow2(10) == 1024; }
    if c >= 7 { assert Pow2(11) == 2048; }
  }

  /** A power of two that is no larger than a slot size divides it. */
  lemma SmallAligned(p: nat, c: nat, log: nat)
    requires c < CLASSES && p % SizeOf(c) == 0 && Pow2(log) <= SizeOf(c)
    ensures p % Pow2(log) == 0
  {
    SizeIsPow2(c);
    if log > c + 4 {
      Pow2Mono(c + 5, log);
    }
    Pow2Splits(log, c + 4);
    ModFactor(p, Pow2(log), Pow2(c + 4 - log));
  }

  lemma MulMod(k: nat, n: nat)
    requires n > 0
    ensures (k * n) % n == 0
  {
    assert k * n == n * k;
    ModOfMultiple(n, k);
  }

  lemma ExactQuotient(p: nat, n: nat)
    requires n > 0 && p % n == 0
    ensures p == (p / n) * n
  {
  }

  lemma ModAligned(p: nat, log: nat)
    requires p % Pow2(log) == 0
    ensures Aligned(p, log)
  {
    ExactQuotient(p, Pow2(log));
    ShlIsMul(p / Pow2(log), log);
  }

  /** Being a multiple, as a remainder and as the buddy allocator's `Aligned`. */
  lemma AlignedIffMod(p: nat, log: nat)
    ensures Aligned(p, log) <==> p % Pow2(log) == 0
  {
    if Aligned(p, log) {
      var k: nat :| Shl(k, log) == p;
      ShlIsMul(k, log);
      MulMod(k, Pow2(log));
    }
    if p % Pow2(log) == 0 { ModAligned(p, log); }
  }
}
