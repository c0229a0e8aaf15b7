/** The kernel heap as it works in memory. */
module HeapObject {
  import opened Common
  import opened Bits
  import opened HeapModel
  import opened HeapOps
  import opened HeapRuns
  import opened HeapMemory
  import opened HeapSteps

  class KernelHeap {
    /** The first page of each chain, or zero. */
    var heads: seq<nat>
    /** The class of each page of the region, or `NOT_SLAB`. */
    var table: seq<nat>
    var words: Memory
    const base: nat
    /** The heap this memory represents. */
    ghost var h: Heap

    ghost predicate Valid()
      reads this
    {
      var sound := Sound(words, heads, table, h);
      sound && h.base == base
    }

    constructor (base: nat, pages: nat)
      requires base % 4096 == 0 && 0 < base && base + 4096 * pages <= NIL
      ensures Valid() && h == EmptyHeap(base, 4096 * pages)
    {
      this.base := base;
      heads := seq(CLASSES, c => 0);
      table := seq(pages, i => NOT_SLAB);
      words := map[];
      h := EmptyHeap(base, 4096 * pages);
    }

    method Write(a: nat, v: nat)
      modifies this`words
      ensures words == old(words)[a := v]
    {
      words := words[a := v];
    }

    /** `class_index` */
    method ClassOf(size: nat) returns (r: Option<nat>)
      ensures r == ClassIndex(size) && (r.Some? ==> r.value < CLASSES)
    {
      var s := if size < 8 then 8 else size;
      var i: nat := 0;
      while i < CLASSES
        invariant i <= CLASSES && ClassFrom(s, i) == ClassFrom(s, 0)
      {
        if s <= SizeOf(i) {
          return Some(i);
        }
        i := i + 1;
      }
      return None;
    }

    /** The first page of a chain whose free list is not empty, or zero. */
    method FindFree(c: nat) returns (page: nat)
      requires Places(h) && Linked(words, heads, h.chains) && Threaded(words, h.free) && h.base + h.bytes <= NIL
      requires Chained(h) && c < CLASSES
      ensures page == At(h.chains[c], FirstFree(h, h.chains[c]), 0)
    {
      ghost var chain := h.chains[c];
      ghost var i: nat := 0;
      page := heads[c];
      assert Links(words, heads[c], chain, 0);
      while page != 0
        invariant i <= FirstFree(h, chain) && page == At(chain, i, 0)
        decreases |chain| - i
      {
        ChainPage(words, heads, h, c, i);
        if Word(words, page + 8) != NIL {
          FirstFreeIs(h, chain, i);
          return;
        }
        FirstFreeAfter(h, chain, i);
        page := Word(words, page);
        i := i + 1;
      }
      if i < |chain| { ChainPage(words, heads, h, c, i); }
    }

    /** `slab_page_empty` */
    method PageEmpty(page: nat, c: nat) returns (r: bool)
      requires Places(h) && Threaded(words, h.free) && h.base + h.bytes <= NIL && c < CLASSES && page in h.table
      ensures r == IsEmpty(h, page, c)
    {
      ghost var l := h.free[page];
      assert PageSpot(h.free, page) && InRange(h, page) && Links(words, Word(words, page + 8), l, NIL);
      assert forall k :: 0 <= k < |l| ==> l[k] < NIL by { assert forall k :: 0 <= k < |l| ==> l[k] in l; }
      var capacity := (PAGE - SizeOf(c)) / SizeOf(c);
      var slot := Word(words, page + 8);
      var n: nat := 0;
      while slot != NIL
        invariant n <= |l| && slot == At(l, n, NIL) && n <= capacity
        decreases |l| - n
      {
        assert Word(words, l[n]) == At(l, n + 1, NIL);
        n := n + 1;
        if n > capacity {
          return false;
        }
        slot := Word(words, slot);
      }
      return n == capacity;
    }

    /** An empty page is linked out behind `prev`, its class cleared, and the page given back, which leaves heap `r`. */
    method DropPage(prev: nat, page: nat, next: nat, ghost r: Heap)
      requires base <= page && Index(base, page) < |table| && r.base == base
      requires Sound(words[prev := next], heads, table[Index(base, page) := NOT_SLAB], r)
      modifies this
      ensures Valid() && h == r
    {
      Write(prev, next);
      table := table[Index(base, page) := NOT_SLAB];
      h := r;
    }

    method SweepClass(c: nat)
      requires Valid() && c < CLASSES
      modifies this
      ensures Valid() && h == SweepChain(old(h), c, 1)
    {
      if heads[c] == 0 {
        assert h.chains[c] == [] by { if h.chains[c] != [] { ChainPage(words, heads, h, c, 0); assert false; } }
        return;
      }
      ghost var i: nat := 1;
      ChainStart(words, heads, h, c);
      var prev := heads[c];
      var page := Word(words, heads[c]);
      while page != 0
        invariant Valid() && 0 < i <= |h.chains[c]| && prev == h.chains[c][i - 1] && page == At(h.chains[c], i, 0)
        invariant SweepChain(h, c, i) == SweepChain(old(h), c, 1)
        decreases |h.chains[c]| - i
      {
        ChainPage(words, heads, h, c, i);
        var next := Word(words, page);
        var empty := PageEmpty(page, c);
        if empty {
          DropSound(words, heads, table, h, c, i);
          DropPage(prev, page, next, Drop(h, c, i));
        } else {
          prev := page;
          i := i + 1;
        }
        page := next;
      }
      assert i == |h.chains[c]| by { if i < |h.chains[c]| { ChainPage(words, heads, h, c, i); assert false; } }
    }

    /** `sweep_empty_pages` */
    method SweepAll()
      requires Valid()
      modifies this
      ensures Valid() && h == Sweep(old(h))
    {
      var c: nat := 0;
      while c < CLASSES
        invariant Valid() && c <= CLASSES && |h.chains| == |old(h.chains)| == CLASSES
        invariant SweepFrom(h, c) == SweepFrom(old(h), 0)
      {
        SweepClass(c);
        c := c + 1;
      }
    }

    /** The slots of a new page are threaded, from the first to the last. */
    method ThreadSlots(q: nat, c: nat)
      requires c < CLASSES
      modifies this`words
      ensures Links(words, q + SizeOf(c), NewSlots(q, c), NIL) && SameOutside(old(words), words, q + 16, PAGE - 16)
    {
      var n := SizeOf(c);
      var prev: nat, slot: nat := 0, q + n;
      ghost var done: seq<nat> := [];
      ThreadingStarts(words, q, c);
      while slot + n <= q + PAGE
        invariant Threading(old(words), words, q, c, done, prev, slot)
        decreases q + PAGE - slot
      {
        ThreadingStep(old(words), words, q, c, done, prev, slot);
        if prev != 0 {
          Write(prev, slot);
        }
        prev := slot;
        slot := slot + n;
        done := done + [prev];
      }
      ThreadingEnds(old(words), words, q, c, done, prev, slot);
      Write(prev, NIL);
    }

    /** The page `q` is entered, with its header and link written, which makes heap `r`. */
    method Enter(c: nat, q: nat, ghost r: Heap)
      requires c < |heads| && base <= q && Index(base, q) < |table| && r.base == base
      requires Sound(words, heads[c := q], table[Index(base, q) := c], r)
      modifies this
      ensures Valid() && h == r
    {
      table := table[Index(base, q) := c];
      heads := heads[c := q];
      h := r;
    }

    /** The words of a new slab page. */
    method WritePage(c: nat, q: nat)
      requires c < CLASSES && c < |heads|
      modifies this`words
      ensures Links(words, Word(words, q + 8), NewSlots(q, c), NIL) && Word(words, q) == heads[c]
      ensures SameOutside(old(words), words, q, PAGE)
    {
      ThreadSlots(q, c);
      HeaderApart(words, q, c, heads[c], q + SizeOf(c));
      Write(q, heads[c]);
      Write(q + 8, q + SizeOf(c));
    }

    /** `new_slab` and the linking in that follows it; `q` is the page the page allocator has given. */
    method AddPage(c: nat, q: nat)
      requires Valid() && c < CLASSES && FreshBlock(h, q, PAGE)
      modifies this
      ensures Valid() && h == AddSlab(old(h), c, q)
    {
      ghost var w := words;
      WritePage(c, q);
      AddSlabSound(w, words, heads, table, h, c, q);
      Enter(c, q, AddSlab(h, c, q));
    }

    /** The first slot of page `q` is taken off its free list, which makes heap `r`. */
    method TakeSlot(q: nat, ghost r: Heap) returns (slot: nat)
      requires r.base == base && Sound(words[q + 8 := Word(words, Word(words, q + 8))], heads, table, r)
      modifies this
      ensures Valid() && h == r && slot == Word(old(words), q + 8)
    {
      slot := Word(words, q + 8);
      Write(q + 8, Word(words, slot));
      h := r;
    }

    /** The first free slot of page `q`. */
    method PopSlot(q: nat, ghost l: Layout) returns (slot: nat)
      requires Valid() && q in h.table && h.table[q] < CLASSES && q in h.free && h.free[q] != []
      requires 0 < l.size <= SizeOf(h.table[q]) && Pow2(l.log) <= SizeOf(h.table[q])
      modifies this
      ensures Valid() && (h, slot) == Pop(old(h), q, l)
    {
      PopSound(words, heads, table, h, q, l);
      slot := TakeSlot(q, Pop(h, q, l).0);
    }

    /** `slab_alloc` */
    method AllocSlot(c: nat, l: Layout, answer: nat) returns (p: nat)
      requires Valid() && Chained(h) && c < CLASSES && 0 < l.size <= SizeOf(c) && Pow2(l.log) <= SizeOf(c)
      requires FirstFree(h, h.chains[c]) == |h.chains[c]| ==> FreshBlock(Sweep(h), answer, PAGE)
      modifies this
      ensures Valid() && (h, p) == SlabAlloc(old(h), c, l, answer)
    {
      var page := FindFree(c);
      ghost var i := FirstFree(h, h.chains[c]);
      if i < |h.chains[c]| { ChainPage(words, heads, h, c, i); }
      if page != 0 {
        p := PopSlot(page, l);
      } else {
        SweepAll();
        AddPage(c, answer);
        NewSlotsFacts(answer, c);
        p := PopSlot(answer, l);
      }
    }

    /** The order of the block for `pages` pages, at most `MAX_ORDER`. */
    method OrderOf(pages: nat) returns (o: Option<nat>)
      ensures o == OrderFrom(pages, 0)
    {
      var i: nat := 0;
      while i <= MAX_ORDER
        invariant i <= MAX_ORDER + 1 && OrderFrom(pages, i) == OrderFrom(pages, 0)
      {
        if pages <= Pow2(i) {
          return Some(i);
        }
        i := i + 1;
      }
      return None;
    }

    /** `page_alloc`; `None` is a panic. */
    method AllocBlock(l: Layout, answer: nat) returns (p: Option<nat>)
      requires Valid() && l.size > 0
      requires var o := OrderFrom(PagesFor(Needed(l)), 0); o.Some? ==> FreshBlock(h, answer, PAGE * Pow2(o.value))
      modifies this
      ensures Valid()
      ensures var o := OrderFrom(PagesFor(Needed(l)), 0);
              if o.None? then p == None && h == old(h)
              else p.Some? && (h, p.value) == LargeAlloc(old(h), l, answer, o.value)
    {
      var o := OrderOf(PagesFor(Needed(l)));
      if o.None? {
        return None;
      }
      LargeSound(words, heads, table, h, l, answer, o.value);
      var a := AlignUp(answer + 8, Pow2(l.log));
      Write(a - 8, answer);
      h := LargeAlloc(h, l, answer, o.value).0;
      return Some(a);
    }

    /** `alloc`; `None` is a panic. */
    method Allocate(l: Layout, answer: nat) returns (p: Option<nat>)
      requires Valid() && Chained(h) && GoodAnswer(h, l, answer)
      modifies this
      ensures Valid()
      ensures var r := Alloc(old(h), l, answer);
              if r.None? then p == None && h == old(h) else p.Some? && (h, p.value) == r.value
    {
      if l.size == 0 {
        return Some(Pow2(l.log));
      }
      var c := ClassOf(l.size);
      ClassIndexLeast(l.size);
      if c.Some? && Pow2(l.log) <= SizeOf(c.value) {
        var s := AllocSlot(c.value, l, answer);
        return Some(s);
      }
      p := AllocBlock(l, answer);
    }

    /** A small object goes onto its page's free list, which makes heap `r`. */
    method PutSlot(page: nat, p: nat, ghost r: Heap)
      requires r.base == base && Region(r, table) && Inv(r)
      requires Repr(words[p := Word(words, page + 8)][page + 8 := p], heads, table, r)
      modifies this
      ensures Valid() && h == r
    {
      SoundAgain(words[p := Word(words, page + 8)][page + 8 := p], heads, table, r);
      Write(p, Word(words, page + 8));
      Write(page + 8, p);
      h := r;
    }

    /** The page allocator takes back `block`, which leaves heap `r`. */
    method GiveBack(block: nat, ghost r: Heap)
      requires block in h.blocks && r.base == base && r.blocks == h.blocks - {block} && Sound(words, heads, table, r)
      modifies this`h
      ensures Valid() && h == r
    {
      h := r;
    }

    /** `dealloc` of a live object: it does not panic. */
    method Release(p: nat)
      requires Valid() && IsLive(h, p)
      modifies this
      ensures Valid() && Some(h) == Dealloc(old(h), p)
    {
      TableSays(table, h, p);
      DeallocIs(h, p);
      var page := PageOf(p);
      if table[Index(base, page)] != NOT_SLAB {
        PushedInv(h, p);
        PushRepr(words, heads, table, h, page, p);
        PutSlot(page, p, Pushed(h, page, p));
      } else {
        LargeFreeSound(words, heads, table, h, p);
        BlockIn(h, p);
        var block := Word(words, p - 8);
        GiveBack(block, Returned(h, p));
      }
    }

    /** The owner of an object writes a word of it. */
    method OwnerWrites(p: nat, a: nat, v: nat)
      requires Valid() && IsLive(h, p) && a % 8 == 0 && p <= a < p + LayoutAt(h, p).size
      modifies this`words
      ensures Valid() && words == old(words)[a := v]
    {
      HeapMemory.OwnerWrites(words, heads, table, h, p, a, v);
      Write(a, v);
    }
  }

  lemma BlockIn(h: Heap, p: nat)
    requires Inv(h) && p in h.large
    ensures h.large[p].block in h.blocks
  {
    assert LargeFits(h.table, h.blocks, p, h.large[p]);
  }

  // ----- Threading the slots of a new page -----

  /** Each element but the last leads to the next. */
  ghost predicate Joined(w: Memory, l: seq<nat>) {
    forall i {:trigger Word(w, l[i])} :: 0 <= i < |l| - 1 ==> Word(w, l[i]) == l[i + 1]
  }

  ghost predicate Rising(l: seq<nat>, lo: nat, hi: nat) {
    (forall i, j :: 0 <= i < j < |l| ==> l[i] < l[j]) && forall i :: 0 <= i < |l| ==> lo <= l[i] < hi
  }

  lemma JoinedGrows(w: Memory, l: seq<nat>, lo: nat, x: nat, hi: nat)
    requires Joined(w, l) && Rising(l, lo, x) && lo <= x < hi
    ensures Rising(l + [x], lo, hi)
    ensures if l == [] then Joined(w, l + [x]) else Joined(w[l[|l| - 1] := x], l + [x])
  {
    if l != [] {
      var w', k := w[l[|l| - 1] := x], l + [x];
      forall i | 0 <= i < |k| - 1 ensures Word(w', k[i]) == k[i + 1] {
        if i < |l| - 1 { assert Word(w, l[i]) == l[i + 1]; }
      }
    }
  }

  lemma JoinedEnds(w: Memory, l: seq<nat>, lo: nat, hi: nat)
    requires Joined(w, l) && Rising(l, lo, hi) && l != []
    ensures Links(w[l[|l| - 1] := NIL], l[0], l, NIL)
  {
    var w' := w[l[|l| - 1] := NIL];
    forall i | 0 <= i < |l| ensures Word(w', l[i]) == At(l, i + 1, NIL) {
      if i < |l| - 1 { assert Word(w, l[i]) == l[i + 1]; }
    }
  }

  /** The slots before `slot` are threaded up to `prev`, the last of them. */
  ghost predicate Threading(w0: Memory, w: Memory, q: nat, c: nat, done: seq<nat>, prev: nat, slot: nat)
    requires c < CLASSES
  {
    && q + SizeOf(c) <= slot && Joined(w, done) && Rising(done, q + 16, slot) && SameOutside(w0, w, q + 16, PAGE - 16)
    && done + SlotsFrom(slot, SizeOf(c), q + PAGE) == NewSlots(q, c)
    && if done == [] then prev == 0 else prev == done[|done| - 1] && 0 < prev && prev + 16 <= q + PAGE
  }

  lemma ThreadingStarts(w: Memory, q: nat, c: nat)
    requires c < CLASSES
    ensures Threading(w, w, q, c, [], 0, q + SizeOf(c))
  {
    assert [] + NewSlots(q, c) == NewSlots(q, c);
  }

  lemma ThreadingStep(w0: Memory, w: Memory, q: nat, c: nat, done: seq<nat>, prev: nat, slot: nat)
    requires c < CLASSES && Threading(w0, w, q, c, done, prev, slot) && slot + SizeOf(c) <= q + PAGE
    ensures Threading(w0, if prev != 0 then w[prev := slot] else w, q, c, done + [slot], slot, slot + SizeOf(c))
  {
    var rest := SlotsFrom(slot + SizeOf(c), SizeOf(c), q + PAGE);
    assert done + ([slot] + rest) == done + [slot] + rest;
    JoinedGrows(w, done, q + 16, slot, slot + SizeOf(c));
    assert done != [] ==> done[|done| - 1] >= q + 16;
  }

  lemma ThreadingEnds(w0: Memory, w: Memory, q: nat, c: nat, done: seq<nat>, prev: nat, slot: nat)
    requires c < CLASSES && Threading(w0, w, q, c, done, prev, slot) && slot + SizeOf(c) > q + PAGE
    ensures Links(w[prev := NIL], q + SizeOf(c), NewSlots(q, c), NIL)
    ensures SameOutside(w0, w[prev := NIL], q + 16, PAGE - 16)
  {
    NewSlotsFacts(q, c);
    assert done == NewSlots(q, c);
    JoinedEnds(w, done, q + 16, slot);
    NewSlotsStart(q, c);
    assert done[|done| - 1] >= q + 16;
  }

  lemma NewSlotsStart(q: nat, c: nat)
    requires c < CLASSES && NewSlots(q, c) != []
    ensures NewSlots(q, c)[0] == q + SizeOf(c)
  {
  }

  /** The header is before the slots. */
  lemma HeaderApart(w: Memory, q: nat, c: nat, next: nat, first: nat)
    requires c < CLASSES && Links(w, first, NewSlots(q, c), NIL)
    ensures Links(w[q := next][q + 8 := first], first, NewSlots(q, c), NIL)
  {
    NewSlotsFacts(q, c);
    forall s | s in NewSlots(q, c) ensures s >= q + 16 { assert IsSlot(q, c, s); }
    LinksKeep(w, w[q := next][q + 8 := first], first, NewSlots(q, c), NIL);
  }

  lemma FirstFreeIs(h: Heap, chain: seq<nat>, i: nat)
    requires forall q :: q in chain ==> q in h.free
    requires i < |chain| && i <= FirstFree(h, chain) && h.free[chain[i]] != []
    ensures FirstFree(h, chain) == i
  {
  }

  lemma FirstFreeAfter(h: Heap, chain: seq<nat>, i: nat)
    requires forall q :: q in chain ==> q in h.free
    requires i < |chain| && i <= FirstFree(h, chain) && h.free[chain[i]] == []
    ensures i < FirstFree(h, chain)
  {
  }

  /** A page in a chain: its link leads on, and its header says whether a slot is free. */
  lemma ChainPage(w: Memory, heads: seq<nat>, h: Heap, c: nat, i: nat)
    requires Places(h) && Linked(w, heads, h.chains) && Threaded(w, h.free) && c < CLASSES && i < |h.chains[c]|
    requires h.base + h.bytes <= NIL
    ensures var q := h.chains[c][i];
            && q != 0 && q in h.table && q in h.free && Word(w, q) == At(h.chains[c], i + 1, 0)
            && (Word(w, q + 8) == NIL <==> h.free[q] == [])
  {
    var q := h.chains[c][i];
    assert q in h.chains[c] && PageSpot(h.free, q) && InRange(h, q);
    assert Links(w, heads[c], h.chains[c], 0) && Links(w, Word(w, q + 8), h.free[q], NIL);
    assert h.free[q] != [] ==> h.free[q][0] in h.free[q];
  }

  lemma ChainStart(w: Memory, heads: seq<nat>, h: Heap, c: nat)
    requires Places(h) && Linked(w, heads, h.chains) && c < CLASSES && heads[c] != 0
    ensures h.chains[c] != [] && heads[c] == h.chains[c][0] && Word(w, heads[c]) == At(h.chains[c], 1, 0)
  {
    assert Links(w, heads[c], h.chains[c], 0);
  }
}
