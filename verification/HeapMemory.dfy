/**
  How the heap is laid out in memory: chains and free lists threaded through pages, and a word before each
  large object.
*/
module HeapMemory {
  import opened Common
  import opened HeapModel
  import opened HeapOps

  const NIL: nat := 0xFFFF_FFFF_FFFF_FFFF
  const NOT_SLAB: nat := 0xFF

  type Memory = map<nat, nat>

  function Word(w: Memory, a: nat): (v: nat) {
    if a in w then w[a] else 0
  }

  /** Element `i`, or `end` behind the last. */
  function At(l: seq<nat>, i: nat, end: nat): (x: nat) {
    if i < |l| then l[i] else end
  }

  /** `l` is threaded from `first` through the first word of each element, up to `end`. */
  ghost predicate Links(w: Memory, first: nat, l: seq<nat>, end: nat) {
    first == At(l, 0, end) && forall i {:trigger Word(w, l[i])} :: 0 <= i < |l| ==> Word(w, l[i]) == At(l, i + 1, end)
  }

  lemma LinksTail(w: Memory, first: nat, l: seq<nat>, end: nat)
    requires Links(w, first, l, end) && l != []
    ensures Links(w, Word(w, first), l[1..], end)
  {
    var t := l[1..];
    assert Word(w, l[0]) == At(l, 1, end) == At(t, 0, end);
    forall i | 0 <= i < |t| ensures Word(w, t[i]) == At(t, i + 1, end) { assert t[i] == l[i + 1]; }
  }

  lemma LinksCons(w: Memory, x: nat, l: seq<nat>, end: nat)
    requires Links(w, Word(w, x), l, end)
    ensures Links(w, x, [x] + l, end)
  {
    var k := [x] + l;
    forall i | 0 <= i < |k| ensures Word(w, k[i]) == At(k, i + 1, end) {
      if i > 0 { assert k[i] == l[i - 1] && At(k, i + 1, end) == At(l, i, end); }
    }
  }

  lemma LinksKeep(w: Memory, w': Memory, first: nat, l: seq<nat>, end: nat)
    requires Links(w, first, l, end) && forall x :: x in l ==> Word(w', x) == Word(w, x)
    ensures Links(w', first, l, end)
  {
    forall i | 0 <= i < |l| ensures Word(w', l[i]) == At(l, i + 1, end) { assert l[i] in l; }
  }

  /** Cutting out the element at `i`, by changing the link of the one before. */
  lemma LinksCut(w: Memory, first: nat, l: seq<nat>, end: nat, i: nat)
    requires Links(w, first, l, end) && NoDup(l) && 0 < i < |l|
    ensures Links(w[l[i - 1] := Word(w, l[i])], first, l[..i] + l[i + 1..], end)
  {
    var k, w' := l[..i] + l[i + 1..], w[l[i - 1] := Word(w, l[i])];
    forall j | 0 <= j < |k| ensures Word(w', k[j]) == At(k, j + 1, end) {
      if j + 1 < i {
        assert Word(w, l[j]) == At(l, j + 1, end);
        assert k[j] == l[j] && At(k, j + 1, end) == At(l, j + 1, end);
      } else if j + 1 == i {
        assert k[j] == l[i - 1] && Word(w, l[i]) == At(l, i + 1, end) == At(k, i, end);
      } else {
        assert Word(w, l[j + 1]) == At(l, j + 2, end);
        assert k[j] == l[j + 1] && At(k, j + 1, end) == At(l, j + 2, end);
      }
    }
  }

  // ----- The representation -----

  ghost predicate Linked(w: Memory, heads: seq<nat>, chains: seq<seq<nat>>) {
    |heads| == CLASSES == |chains| && forall c :: 0 <= c < CLASSES ==> Links(w, heads[c], chains[c], 0)
  }

  ghost predicate Threaded(w: Memory, free: map<nat, seq<nat>>) {
    forall q :: q in free ==> Links(w, Word(w, q + 8), free[q], NIL)
  }

  ghost predicate Based(w: Memory, large: map<nat, Large>) {
    forall p :: p in large ==> p >= 8 && Word(w, p - 8) == large[p].block
  }

  function Index(base: nat, q: nat): (i: nat)
    requires base <= q
  {
    (q - base) / 4096
  }

  ghost predicate TableIs(bytes: seq<nat>, base: nat, table: map<nat, nat>) {
    forall i :: 0 <= i < |bytes| ==> bytes[i] == if base + 4096 * i in table then table[base + 4096 * i] else NOT_SLAB
  }

  ghost predicate Repr(w: Memory, heads: seq<nat>, bytes: seq<nat>, h: Heap) {
    var linked, threaded, based := Linked(w, heads, h.chains), Threaded(w, h.free), Based(w, h.large);
    var tabled := TableIs(bytes, h.base, h.table);
    linked && threaded && based && tabled
  }

  /** The region the heap is in. */
  ghost predicate Region(h: Heap, bytes: seq<nat>) {
    h.base % 4096 == 0 && h.base > 0 && h.bytes == 4096 * |bytes| && h.base + h.bytes <= NIL
  }

  // ----- Which words are whose -----

  /** The free slots of a page lie behind its header. */
  ghost predicate PageSpot(free: map<nat, seq<nat>>, q: nat) {
    q in free && forall s :: s in free[q] ==> q + 16 <= s && s + 16 <= q + PAGE
  }

  predicate InRange(h: Heap, q: nat) {
    0 < h.base <= q && q + PAGE <= h.base + h.bytes && q % 4096 == 0
  }

  predicate OffPage(a: nat, q: nat) {
    a + 8 <= q || q + PAGE <= a
  }

  ghost predicate ChainsIn(chains: seq<seq<nat>>, table: map<nat, nat>) {
    |chains| == CLASSES && forall c, q :: 0 <= c < CLASSES && q in chains[c] ==> q in table && table[q] == c
  }

  ghost predicate Spots(h: Heap) {
    && (forall q :: q in h.table ==> PageSpot(h.free, q) && InRange(h, q))
    && (forall q :: q in h.free ==> q in h.table)
  }

  ghost predicate PagesApart(table: map<nat, nat>) {
    forall p, q {:trigger Apart(p, PAGE, q, PAGE)} :: p in table && q in table && p != q ==> Apart(p, PAGE, q, PAGE)
  }

  ghost predicate BasesOff(table: map<nat, nat>, large: map<nat, Large>) {
    forall p :: p in large ==> p >= 8 && forall q :: q in table ==> OffPage(p - 8, q)
  }

  /** Where the heap keeps its words: slab pages apart from each other, and base words in none of them. */
  ghost predicate Places(h: Heap) {
    var chains, spots, apart, bases := ChainsIn(h.chains, h.table), Spots(h), PagesApart(h.table),
      BasesOff(h.table, h.large);
    chains && spots && apart && bases
  }

  lemma InvPageSpot(h: Heap, q: nat)
    requires Inv(h) && q in h.table
    ensures PageSpot(h.free, q) && InRange(h, q)
  {
    assert SlabPage(h.chains, h.table, h.blocks, q) && PageSlots(h.free[q], q, h.table[q], h.small);
  }

  lemma InvBaseOff(h: Heap, p: nat, q: nat)
    requires Inv(h) && p in h.large && q in h.table
    ensures p >= 8 && OffPage(p - 8, q)
  {
    assert LargeFits(h.table, h.blocks, p, h.large[p]) && SlabPage(h.chains, h.table, h.blocks, q);
    assert Apart(q, h.blocks[q], h.large[p].block, h.blocks[h.large[p].block]);
  }

  lemma InvApart(h: Heap, p: nat, q: nat)
    requires Inv(h) && p in h.table && q in h.table && p != q
    ensures Apart(p, PAGE, q, PAGE)
  {
    assert SlabPage(h.chains, h.table, h.blocks, p) && SlabPage(h.chains, h.table, h.blocks, q);
    assert Apart(p, h.blocks[p], q, h.blocks[q]);
  }

  lemma InvSpots(h: Heap)
    requires Inv(h)
    ensures Spots(h)
  {
    forall q | q in h.table ensures PageSpot(h.free, q) && InRange(h, q) { InvPageSpot(h, q); }
  }

  lemma InvBases(h: Heap)
    requires Inv(h)
    ensures BasesOff(h.table, h.large)
  {
    forall p | p in h.large ensures p >= 8 { assert LargeFits(h.table, h.blocks, p, h.large[p]); }
    forall p, q | p in h.large && q in h.table ensures OffPage(p - 8, q) { InvBaseOff(h, p, q); }
  }

  lemma InvPlaces(h: Heap)
    requires Inv(h)
    ensures Places(h)
  {
    InvSpots(h);
    InvBases(h);
    forall p, q | p in h.table && q in h.table && p != q ensures Apart(p, PAGE, q, PAGE) { InvApart(h, p, q); }
  }

  // ----- Frames -----

  ghost predicate SameOutside(w: Memory, w': Memory, b: nat, n: nat) {
    forall a: nat :: a < b || b + n <= a ==> Word(w', a) == Word(w, a)
  }

  /** A free list is kept by writes that leave its page alone but for the link. */
  lemma ThreadKeeps(w: Memory, w': Memory, free: map<nat, seq<nat>>, q: nat)
    requires PageSpot(free, q) && Links(w, Word(w, q + 8), free[q], NIL)
    requires forall a: nat :: q + 8 <= a < q + PAGE ==> Word(w', a) == Word(w, a)
    ensures Links(w', Word(w', q + 8), free[q], NIL)
  {
    LinksKeep(w, w', Word(w, q + 8), free[q], NIL);
  }

  lemma ChainsKeep(w: Memory, w': Memory, heads: seq<nat>, chains: seq<seq<nat>>)
    requires Linked(w, heads, chains) && forall c, q :: 0 <= c < CLASSES && q in chains[c] ==> Word(w', q) == Word(w, q)
    ensures Linked(w', heads, chains)
  {
    forall c | 0 <= c < CLASSES ensures Links(w', heads[c], chains[c], 0) {
      LinksKeep(w, w', heads[c], chains[c], 0);
    }
  }

  /** Writes inside slab page `q`, its link apart, leave everything but its own free list as it was. */
  lemma PageFrame(w: Memory, w': Memory, heads: seq<nat>, h: Heap, q: nat)
    requires Places(h) && Linked(w, heads, h.chains) && Threaded(w, h.free) && Based(w, h.large)
    requires q in h.table && SameOutside(w, w', q + 8, PAGE - 8)
    ensures Linked(w', heads, h.chains) && Based(w', h.large)
    ensures forall p :: p in h.free && p != q ==> Links(w', Word(w', p + 8), h.free[p], NIL)
  {
    forall p | p in h.table ensures Word(w', p) == Word(w, p) {
      assert p != q ==> Apart(p, PAGE, q, PAGE);
    }
    forall p | p in h.free && p != q ensures Links(w', Word(w', p + 8), h.free[p], NIL) {
      assert Apart(p, PAGE, q, PAGE);
      ThreadKeeps(w, w', h.free, p);
    }
    ChainsKeep(w, w', heads, h.chains);
    forall p | p in h.large ensures p >= 8 && Word(w', p - 8) == h.large[p].block { assert OffPage(p - 8, q); }
  }

  /** Writing the link of a slab page touches no free list and no base word. */
  lemma LinkFrame(w: Memory, h: Heap, q: nat, v: nat)
    requires Places(h) && Threaded(w, h.free) && Based(w, h.large) && q in h.table
    ensures Threaded(w[q := v], h.free) && Based(w[q := v], h.large)
  {
    forall p | p in h.free ensures Links(w[q := v], Word(w[q := v], p + 8), h.free[p], NIL) {
      assert p != q ==> Apart(p, PAGE, q, PAGE);
      ThreadKeeps(w, w[q := v], h.free, p);
    }
    forall p | p in h.large ensures p >= 8 && Word(w[q := v], p - 8) == h.large[p].block { assert OffPage(p - 8, q); }
  }

  /** No word of the heap is in the range. */
  ghost predicate Foreign(h: Heap, b: nat, n: nat) {
    && (forall q :: q in h.table ==> Apart(q, PAGE, b, n))
    && (forall p :: p in h.large ==> p >= 8 && Apart(p - 8, 8, b, n))
  }

  lemma FreshForeign(h: Heap, b: nat, n: nat)
    requires Inv(h) && FreshBlock(h, b, n)
    ensures Foreign(h, b, n)
  {
    forall q | q in h.table ensures Apart(q, PAGE, b, n) { assert SlabPage(h.chains, h.table, h.blocks, q); }
    forall p | p in h.large ensures p >= 8 && Apart(p - 8, 8, b, n) {
      assert LargeFits(h.table, h.blocks, p, h.large[p]);
      assert Apart(h.large[p].block, h.blocks[h.large[p].block], b, n);
    }
  }

  /** Writes into memory that is not the heap's leave everything as it was. */
  lemma ForeignFrame(w: Memory, w': Memory, heads: seq<nat>, bytes: seq<nat>, h: Heap, b: nat, n: nat)
    requires Places(h) && Repr(w, heads, bytes, h) && Foreign(h, b, n) && SameOutside(w, w', b, n)
    ensures Repr(w', heads, bytes, h)
  {
    forall p | p in h.free ensures Links(w', Word(w', p + 8), h.free[p], NIL) {
      assert Apart(p, PAGE, b, n);
      ThreadKeeps(w, w', h.free, p);
    }
    forall p | p in h.table ensures Word(w', p) == Word(w, p) { assert Apart(p, PAGE, b, n); }
    ChainsKeep(w, w', heads, h.chains);
    forall p | p in h.large ensures p >= 8 && Word(w', p - 8) == h.large[p].block { assert Apart(p - 8, 8, b, n); }
  }

  // ----- Owners -----

  /** Word `a` is none of the heap's. */
  ghost predicate NotHeaps(h: Heap, a: nat) {
    && (forall q :: q in h.table ==> q in h.free && a != q && a != q + 8 && a !in h.free[q])
    && (forall p :: p in h.large ==> p != a + 8)
  }

  lemma OwnersWord(h: Heap, p: nat, a: nat)
    requires Inv(h) && IsLive(h, p) && a % 8 == 0 && p <= a < p + LayoutAt(h, p).size
    ensures NotHeaps(h, a)
  {
    forall q | q in h.table ensures q in h.free && a != q && a != q + 8 && a !in h.free[q] {
      OwnersWordPage(h, p, a, q);
    }
    forall r | r in h.large ensures r != a + 8 { BaseWordPrivate(h, r, p); }
  }

  lemma OwnersWordPage(h: Heap, p: nat, a: nat, q: nat)
    requires Inv(h) && IsLive(h, p) && a % 8 == 0 && p <= a < p + LayoutAt(h, p).size && q in h.table
    ensures q in h.free && a != q && a != q + 8 && a !in h.free[q]
  {
    HeaderPrivate(h, q, p);
    forall s | s in h.free[q] ensures s != a { FreeSlotPrivate(h, q, s, p); }
  }

  /**
    Whatever the owner of a live object writes into it, the heap's own words stay: the word at `a` overlaps
    the object at `p`.
  */
  lemma OwnerWrites(w: Memory, heads: seq<nat>, bytes: seq<nat>, h: Heap, p: nat, a: nat, v: nat)
    requires Inv(h) && Repr(w, heads, bytes, h) && IsLive(h, p) && a % 8 == 0 && p <= a < p + LayoutAt(h, p).size
    ensures Repr(w[a := v], heads, bytes, h)
  {
    OwnersWord(h, p, a);
    InvPlaces(h);
    OtherWord(w, heads, bytes, h, a, v);
  }

  lemma OtherWord(w: Memory, heads: seq<nat>, bytes: seq<nat>, h: Heap, a: nat, v: nat)
    requires Places(h) && Repr(w, heads, bytes, h) && NotHeaps(h, a)
    ensures Repr(w[a := v], heads, bytes, h)
  {
    forall q | q in h.free ensures Links(w[a := v], Word(w[a := v], q + 8), h.free[q], NIL) {
      LinksKeep(w, w[a := v], Word(w, q + 8), h.free[q], NIL);
    }
    forall c, q | 0 <= c < CLASSES && q in h.chains[c] ensures Word(w[a := v], q) == Word(w, q) { assert q in h.table; }
    ChainsKeep(w, w[a := v], heads, h.chains);
  }
}
