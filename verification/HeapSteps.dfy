/** Each operation's writes take the representation of one heap to that of the next. */
module HeapSteps {
  import opened Common
  import opened Bits
  import opened HeapModel
  import opened HeapOps
  import opened HeapMemory
  import opened HeapRuns

  /** Memory `w`, with these chain heads and page classes, holds the sound heap `h`. */
  ghost predicate Sound(w: Memory, heads: seq<nat>, bytes: seq<nat>, h: Heap) {
    var inv, places, repr, region := Inv(h), Places(h), Repr(w, heads, bytes, h), Region(h, bytes);
    inv && places && repr && region
  }

  // ----- A slot is taken or given back -----

  lemma PopLinks(w: Memory, q: nat, l: seq<nat>)
    requires Links(w, Word(w, q + 8), l, NIL) && l != [] && q + 8 !in l
    ensures Word(w, q + 8) == l[0]
    ensures var w' := w[q + 8 := Word(w, Word(w, q + 8))]; Links(w', Word(w', q + 8), l[1..], NIL)
  {
    LinksTail(w, Word(w, q + 8), l, NIL);
    LinksKeep(w, w[q + 8 := Word(w, l[0])], Word(w, l[0]), l[1..], NIL);
  }

  /** Taking the first free slot changes the page's header only. */
  lemma PopRepr(w: Memory, heads: seq<nat>, bytes: seq<nat>, h: Heap, q: nat, l: Layout)
    requires Places(h) && Repr(w, heads, bytes, h) && q in h.table && q in h.free && h.free[q] != []
    ensures Word(w, q + 8) == h.free[q][0]
    ensures Repr(w[q + 8 := Word(w, Word(w, q + 8))], heads, bytes, Pop(h, q, l).0)
  {
    assert PageSpot(h.free, q);
    PopLinks(w, q, h.free[q]);
    PageFrame(w, w[q + 8 := Word(w, Word(w, q + 8))], heads, h, q);
  }

  /** There is room on the free list of page `q` for the slot at `p`. */
  ghost predicate Room(h: Heap, q: nat, p: nat) {
    q in h.table && q in h.free && q + 16 <= p && p + 16 <= q + PAGE && p !in h.free[q]
  }

  /** The heap without the small object at `p`, whose page is `q`. */
  function Pushed(h: Heap, q: nat, p: nat): (r: Heap)
    requires q in h.free
  {
    h.(free := h.free[q := [p] + h.free[q]], small := h.small - {p})
  }

  /** Giving a slot back threads it through its own first word. */
  lemma PushRepr(w: Memory, heads: seq<nat>, bytes: seq<nat>, h: Heap, q: nat, p: nat)
    requires Room(h, q, p) && Places(h) && Repr(w, heads, bytes, h)
    ensures Repr(w[p := Word(w, q + 8)][q + 8 := p], heads, bytes, Pushed(h, q, p))
  {
    var w' := w[p := Word(w, q + 8)][q + 8 := p];
    assert PageSpot(h.free, q);
    LinksKeep(w, w', Word(w, q + 8), h.free[q], NIL);
    LinksCons(w', p, h.free[q], NIL);
    PageFrame(w, w', heads, h, q);
  }

  // ----- Large objects -----

  lemma LargeRepr(w: Memory, heads: seq<nat>, bytes: seq<nat>, h: Heap, g: Large, p: nat, n: nat)
    requires Places(h) && Repr(w, heads, bytes, h) && Foreign(h, g.block, n) && g.block + 8 <= p <= g.block + n
    ensures Repr(w[p - 8 := g.block], heads, bytes, h.(blocks := h.blocks[g.block := n], large := h.large[p := g]))
  {
    ForeignFrame(w, w[p - 8 := g.block], heads, bytes, h, g.block, n);
  }

  lemma LargeFreeRepr(w: Memory, heads: seq<nat>, bytes: seq<nat>, h: Heap, p: nat)
    requires Repr(w, heads, bytes, h) && p in h.large
    ensures Repr(w, heads, bytes, h.(blocks := h.blocks - {h.large[p].block}, large := h.large - {p}))
  {
  }

  // ----- Slab pages come and go -----

  lemma TableSet(bytes: seq<nat>, base: nat, table: map<nat, nat>, q: nat, v: nat)
    requires TableIs(bytes, base, table) && base <= q && (q - base) % 4096 == 0 && Index(base, q) < |bytes|
    ensures TableIs(bytes[Index(base, q) := v], base, table[q := v])
    ensures v == NOT_SLAB ==> TableIs(bytes[Index(base, q) := v], base, table - {q})
  {
  }

  lemma InBytes(h: Heap, bytes: seq<nat>, q: nat)
    requires Region(h, bytes) && q % PAGE == 0 && h.base <= q && q + PAGE <= h.base + h.bytes
    ensures (q - h.base) % 4096 == 0 && Index(h.base, q) < |bytes|
  {
  }

  lemma DropLinked(w: Memory, heads: seq<nat>, h: Heap, c: nat, i: nat)
    requires ChainsOk(h.chains, h.table) && Linked(w, heads, h.chains) && c < CLASSES && 0 < i < |h.chains[c]|
    ensures Linked(w[h.chains[c][i - 1] := Word(w, h.chains[c][i])], heads, Drop(h, c, i).chains)
  {
    var a := h.chains[c][i - 1];
    var w' := w[a := Word(w, h.chains[c][i])];
    assert a in h.chains[c] && h.table[a] == c;
    forall d | 0 <= d < CLASSES ensures Links(w', heads[d], Drop(h, c, i).chains[d], 0) {
      if d == c {
        LinksCut(w, heads[c], h.chains[c], 0, i);
      } else {
        LinksKeep(w, w', heads[d], h.chains[d], 0);
      }
    }
  }

  /** Linking a page out of its chain and clearing its class. */
  lemma DropRepr(w: Memory, heads: seq<nat>, bytes: seq<nat>, h: Heap, c: nat, i: nat)
    requires Places(h) && ChainsOk(h.chains, h.table) && Repr(w, heads, bytes, h) && Region(h, bytes)
    requires c < CLASSES && 0 < i < |h.chains[c]|
    ensures var q := h.chains[c][i];
            && h.base <= q && Index(h.base, q) < |bytes|
            && Repr(w[h.chains[c][i - 1] := Word(w, q)], heads, bytes[Index(h.base, q) := NOT_SLAB], Drop(h, c, i))
  {
    var q, a := h.chains[c][i], h.chains[c][i - 1];
    assert q in h.chains[c] && a in h.chains[c] && InRange(h, q);
    InBytes(h, bytes, q);
    TableSet(bytes, h.base, h.table, q, NOT_SLAB);
    DropLinked(w, heads, h, c, i);
    LinkFrame(w, h, a, Word(w, q));
  }

  /** A freshly threaded page is linked in front of its chain. */
  lemma AddSlabRepr(w: Memory, heads: seq<nat>, bytes: seq<nat>, h: Heap, c: nat, q: nat)
    requires Repr(w, heads, bytes, h) && Region(h, bytes) && c < CLASSES == |h.chains| && FreshBlock(h, q, PAGE)
    requires Links(w, Word(w, q + 8), NewSlots(q, c), NIL) && Word(w, q) == heads[c]
    ensures Index(h.base, q) < |bytes|
    ensures Repr(w, heads[c := q], bytes[Index(h.base, q) := c], AddSlab(h, c, q))
  {
    InBytes(h, bytes, q);
    TableSet(bytes, h.base, h.table, q, c);
    LinksCons(w, q, h.chains[c], 0);
    var heads', r := heads[c := q], AddSlab(h, c, q);
    forall d | 0 <= d < CLASSES ensures Links(w, heads'[d], r.chains[d], 0) {
      assert Links(w, heads[d], h.chains[d], 0);
    }
  }

  // ----- Soundness is kept -----

  lemma SoundAgain(w: Memory, heads: seq<nat>, bytes: seq<nat>, h: Heap)
    requires Inv(h) && Repr(w, heads, bytes, h) && Region(h, bytes)
    ensures Sound(w, heads, bytes, h)
  {
    InvPlaces(h);
  }

  lemma DropSound(w: Memory, heads: seq<nat>, bytes: seq<nat>, h: Heap, c: nat, i: nat)
    requires Sound(w, heads, bytes, h) && c < CLASSES && 0 < i < |h.chains[c]| && IsEmpty(h, h.chains[c][i], c)
    ensures var q := h.chains[c][i];
            && h.base <= q && Index(h.base, q) < |bytes|
            && Sound(w[h.chains[c][i - 1] := Word(w, q)], heads, bytes[Index(h.base, q) := NOT_SLAB], Drop(h, c, i))
  {
    DropRepr(w, heads, bytes, h, c, i);
    DropInv(h, c, i);
    SoundAgain(w[h.chains[c][i - 1] := Word(w, h.chains[c][i])], heads,
      bytes[Index(h.base, h.chains[c][i]) := NOT_SLAB], Drop(h, c, i));
  }

  lemma PopSound(w: Memory, heads: seq<nat>, bytes: seq<nat>, h: Heap, q: nat, l: Layout)
    requires Sound(w, heads, bytes, h) && q in h.table && h.table[q] < CLASSES && q in h.free && h.free[q] != []
    requires 0 < l.size <= SizeOf(h.table[q]) && Pow2(l.log) <= SizeOf(h.table[q])
    ensures Word(w, q + 8) == Pop(h, q, l).1
    ensures Sound(w[q + 8 := Word(w, Word(w, q + 8))], heads, bytes, Pop(h, q, l).0)
  {
    PopRepr(w, heads, bytes, h, q, l);
    PopInv(h, q, l);
    SoundAgain(w[q + 8 := Word(w, Word(w, q + 8))], heads, bytes, Pop(h, q, l).0);
  }

  /** The words of a fresh page are written, and then the page is linked in. */
  lemma AddSlabSound(w: Memory, w': Memory, heads: seq<nat>, bytes: seq<nat>, h: Heap, c: nat, q: nat)
    requires Sound(w, heads, bytes, h) && c < CLASSES && FreshBlock(h, q, PAGE) && SameOutside(w, w', q, PAGE)
    requires Links(w', Word(w', q + 8), NewSlots(q, c), NIL) && Word(w', q) == heads[c]
    ensures h.base <= q && Index(h.base, q) < |bytes|
    ensures Sound(w', heads[c := q], bytes[Index(h.base, q) := c], AddSlab(h, c, q))
  {
    FreshForeign(h, q, PAGE);
    ForeignFrame(w, w', heads, bytes, h, q, PAGE);
    AddSlabRepr(w', heads, bytes, h, c, q);
    AddSlabInv(h, c, q);
    SoundAgain(w', heads[c := q], bytes[Index(h.base, q) := c], AddSlab(h, c, q));
  }

  lemma LargeSound(w: Memory, heads: seq<nat>, bytes: seq<nat>, h: Heap, l: Layout, block: nat, o: nat)
    requires Sound(w, heads, bytes, h) && PagesFor(Needed(l)) <= Pow2(o) && l.size > 0
    requires FreshBlock(h, block, PAGE * Pow2(o))
    ensures var (r, p) := LargeAlloc(h, l, block, o); p >= 8 && Sound(w[p - 8 := block], heads, bytes, r)
  {
    var (r, p) := LargeAlloc(h, l, block, o);
    FreshForeign(h, block, PAGE * Pow2(o));
    LargeRoom(l, block, o);
    LargeRepr(w, heads, bytes, h, Large(l, block), p, PAGE * Pow2(o));
    LargeAllocInv(h, l, block, o);
    SoundAgain(w[p - 8 := block], heads, bytes, r);
  }

  lemma PushRoom(h: Heap, p: nat)
    requires Inv(h) && p in h.small
    ensures Room(h, PageOf(p), p)
  {
    var q := PageOf(p);
    assert SmallFits(h.table, p, h.small[p]) && PageSlots(h.free[q], q, h.table[q], h.small);
  }

  function Returned(h: Heap, p: nat): (r: Heap)
    requires p in h.large
  {
    h.(blocks := h.blocks - {h.large[p].block}, large := h.large - {p})
  }

  lemma DeallocIs(h: Heap, p: nat)
    requires Inv(h) && IsLive(h, p)
    ensures p in h.small ==> PageOf(p) in h.free && Dealloc(h, p) == Some(Pushed(h, PageOf(p), p))
    ensures p !in h.small ==> p in h.large && Dealloc(h, p) == Some(Returned(h, p))
  {
    DeallocInv(h, p);
  }

  lemma PushedInv(h: Heap, p: nat)
    requires Inv(h) && p in h.small
    ensures Room(h, PageOf(p), p) && Inv(Pushed(h, PageOf(p), p))
  {
    PushRoom(h, p);
    SmallReleased(h, p);
  }

  /** Releasing a large object: the word before it names its block. */
  lemma LargeFreeSound(w: Memory, heads: seq<nat>, bytes: seq<nat>, h: Heap, p: nat)
    requires Sound(w, heads, bytes, h) && p in h.large
    ensures p >= 8 && Word(w, p - 8) == h.large[p].block && Sound(w, heads, bytes, Returned(h, p))
  {
    DropLargeObject(h, p);
    LargeReleased(h, p);
    LargeFreeRepr(w, heads, bytes, h, p);
    SoundAgain(w, heads, bytes, Returned(h, p));
  }

  lemma IndexOf(base: nat, q: nat, n: nat)
    requires base % 4096 == 0 && q % 4096 == 0 && base <= q && q - base < 4096 * n
    ensures Index(base, q) < n && base + 4096 * Index(base, q) == q
  {
  }

  /** The table sends a pointer back to the path it came from. */
  lemma TableSays(bytes: seq<nat>, h: Heap, p: nat)
    requires Inv(h) && TableIs(bytes, h.base, h.table) && Region(h, bytes) && IsLive(h, p)
    ensures h.base <= PageOf(p) && PageOf(p) - h.base < h.bytes && Index(h.base, PageOf(p)) < |bytes|
    ensures bytes[Index(h.base, PageOf(p))] != NOT_SLAB <==> p in h.small
  {
    InRegion(h, p);
    IndexOf(h.base, PageOf(p), |bytes|);
    PathOf(h, p);
  }

  lemma PathOf(h: Heap, p: nat)
    requires Inv(h) && IsLive(h, p)
    ensures if p in h.small then PageOf(p) in h.table && h.table[PageOf(p)] < CLASSES else PageOf(p) !in h.table
  {
    if p in h.small { assert SmallFits(h.table, p, h.small[p]); } else { LargeOffTable(h, p); }
  }
}
