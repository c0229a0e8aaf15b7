/** Every heap operation keeps the invariant, over every run. */
module HeapRuns {
  import opened Common
  import opened Bits
  import opened HeapModel
  import opened HeapOps

  // ----- Slabs -----

  /** The live objects of `r` are those of `h` and, with layout `l`, a new one at `p`. */
  ghost predicate Gains(h: Heap, r: Heap, p: nat, l: Layout) {
    && !IsLive(h, p) && (forall x :: IsLive(r, x) <==> IsLive(h, x) || x == p)
    && (forall x :: IsLive(h, x) && IsLive(r, x) ==> LayoutAt(r, x) == LayoutAt(h, x))
    && IsLive(r, p) && LayoutAt(r, p) == l
  }

  /** The slots of a page do not depend on what is live elsewhere. */
  lemma OtherPage(l: seq<nat>, q: nat, c: nat, small: map<nat, Layout>, small': map<nat, Layout>, s: nat)
    requires c < CLASSES && q % PAGE == 0 && PageOf(s) != q && PageSlots(l, q, c, small)
    requires forall x :: x != s ==> (x in small' <==> x in small)
    ensures PageSlots(l, q, c, small')
  {
    assert !IsSlot(q, c, s) by { if IsSlot(q, c, s) { SlotFacts(q, c, s); assert false; } }
  }

  lemma PopPage(l: seq<nat>, q: nat, c: nat, small: map<nat, Layout>, small': map<nat, Layout>)
    requires c < CLASSES && l != [] && PageSlots(l, q, c, small)
    requires forall x :: x in small' <==> x in small || x == l[0]
    ensures PageSlots(l[1..], q, c, small')
  {
    assert forall x :: x in l <==> x == l[0] || x in l[1..];
    assert l[0] !in l[1..];
  }

  /** One page's free list and the liveness of one of its slots change. */
  lemma OneSlot(h: Heap, q: nat, l: seq<nat>, small': map<nat, Layout>, s: nat)
    requires Inv(h) && q in h.table && h.table[q] < CLASSES && PageOf(s) == q
    requires PageSlots(l, q, h.table[q], small') && SmallOk(h.table, small')
    requires forall x :: x != s ==> (x in small' <==> x in h.small)
    ensures Inv(h.(free := h.free[q := l], small := small'))
  {
    forall p | p in h.table ensures h.table[p] < CLASSES && PageSlots(h.free[q := l][p], p, h.table[p], small') {
      assert SlabPage(h.chains, h.table, h.blocks, p) && PageSlots(h.free[p], p, h.table[p], h.small);
      if p != q { OtherPage(h.free[p], p, h.table[p], h.small, small', s); }
    }
  }

  lemma PopGains(h: Heap, q: nat, l: Layout)
    requires q in h.free && h.free[q] != [] && !IsLive(h, h.free[q][0])
    ensures Gains(h, Pop(h, q, l).0, h.free[q][0], l)
  {
  }

  lemma PopInv(h: Heap, q: nat, l: Layout)
    requires Inv(h) && q in h.table && h.table[q] < CLASSES && q in h.free && h.free[q] != []
    requires 0 < l.size <= SizeOf(h.table[q]) && Pow2(l.log) <= SizeOf(h.table[q])
    ensures var (r, s) := Pop(h, q, l); Inv(r) && Gains(h, r, s, l)
  {
    var s, small := h.free[q][0], h.small[h.free[q][0] := l];
    assert SlabPage(h.chains, h.table, h.blocks, q) && PageSlots(h.free[q], q, h.table[q], h.small) && s in h.free[q];
    SlotFacts(q, h.table[q], s);
    assert s !in h.large by { if s in h.large { LargeOffTable(h, s); assert false; } }
    PopPage(h.free[q], q, h.table[q], h.small, small);
    forall p | p in small ensures SmallFits(h.table, p, small[p]) {
      if p != s { assert SmallFits(h.table, p, h.small[p]); }
    }
    OneSlot(h, q, h.free[q][1..], small, s);
    PopGains(h, q, l);
  }

  lemma NewPageSlots(h: Heap, c: nat, q: nat)
    requires Inv(h) && c < CLASSES && q % PAGE == 0 && q !in h.table
    ensures PageSlots(NewSlots(q, c), q, c, h.small)
  {
    NewSlotsFacts(q, c);
    forall s | s in NewSlots(q, c) ensures IsSlot(q, c, s) && s !in h.small {
      SlotFacts(q, c, s);
      assert s in h.small ==> SmallFits(h.table, s, h.small[s]);
    }
  }

  lemma AddBlock(h: Heap, b: nat, n: nat)
    requires BlocksOk(h.base, h.bytes, h.blocks) && FreshBlock(h, b, n)
    ensures BlocksOk(h.base, h.bytes, h.blocks[b := n])
  {
  }

  lemma AddSlabLarge(h: Heap, c: nat, q: nat)
    requires LargeOk(h.table, h.blocks, h.large) && q !in h.blocks
    ensures LargeOk(h.table[q := c], h.blocks[q := PAGE], h.large)
  {
    forall p | p in h.large ensures LargeFits(h.table[q := c], h.blocks[q := PAGE], p, h.large[p]) {
      assert LargeFits(h.table, h.blocks, p, h.large[p]);
    }
    var blocks' := h.blocks[q := PAGE];
    forall b | b in blocks' ensures Owned(h.table[q := c], h.large, b) {
      if b != q { assert Owned(h.table, h.large, b); }
    }
  }

  lemma AddSlabSmall(h: Heap, c: nat, q: nat)
    requires SmallOk(h.table, h.small) && q !in h.table
    ensures SmallOk(h.table[q := c], h.small)
  {
    forall p | p in h.small ensures SmallFits(h.table[q := c], p, h.small[p]) {
      assert SmallFits(h.table, p, h.small[p]);
    }
  }

  lemma AddSlabSlots(h: Heap, c: nat, q: nat)
    requires SlotsOk(h.table, h.free, h.small) && c < CLASSES && PageSlots(NewSlots(q, c), q, c, h.small)
    ensures SlotsOk(h.table[q := c], h.free[q := NewSlots(q, c)], h.small)
  {
  }

  lemma AddSlabInv(h: Heap, c: nat, q: nat)
    requires Inv(h) && c < CLASSES && FreshBlock(h, q, PAGE)
    ensures Inv(AddSlab(h, c, q)) && NewSlots(q, c) != []
  {
    assert q !in h.table by { assert q in h.table ==> SlabPage(h.chains, h.table, h.blocks, q); }
    NewSlotsFacts(q, c);
    NewPageSlots(h, c, q);
    AddSlabSlots(h, c, q);
    AddSlabTable(h, c, q);
    AddBlock(h, q, PAGE);
    AddSlabLarge(h, c, q);
    AddSlabSmall(h, c, q);
  }

  lemma AddSlabTable(h: Heap, c: nat, q: nat)
    requires ChainsOk(h.chains, h.table) && TableOk(h.chains, h.table, h.blocks) && c < CLASSES && q !in h.table
    ensures var r := AddSlab(h, c, q); ChainsOk(r.chains, r.table) && TableOk(r.chains, r.table, r.blocks)
  {
    var r := AddSlab(h, c, q);
    NoDupJoin([q], h.chains[c]);
    forall p | p in r.table ensures SlabPage(r.chains, r.table, r.blocks, p) {
      if p != q { assert SlabPage(h.chains, h.table, h.blocks, p); }
    }
  }

  /** In a page with as many free slots as it has slots, nothing is live. */
  lemma EmptyPage(h: Heap, q: nat, p: nat)
    requires Inv(h) && q in h.table && h.table[q] < CLASSES && IsEmpty(h, q, h.table[q]) && p in h.small
    ensures PageOf(p) != q
  {
    assert PageSlots(h.free[q], q, h.table[q], h.small) && SmallFits(h.table, p, h.small[p]);
    NewSlotsFacts(q, h.table[q]);
    AllThere(h.free[q], NewSlots(q, h.table[q]));
  }

  lemma {:induction false} NoDupCut(l: seq<nat>, i: nat)
    requires NoDup(l) && i < |l|
    ensures NoDup(l[..i] + l[i + 1..]) && forall x :: x in l[..i] + l[i + 1..] <==> x in l && x != l[i]
  {
    var r := l[..i] + l[i + 1..];
    forall x ensures x in r <==> x in l && x != l[i] {
      if x in l && x != l[i] {
        var k :| 0 <= k < |l| && l[k] == x;
        assert x == if k < i then r[k] else r[k - 1];
      }
      if x in r {
        var k :| 0 <= k < |r| && r[k] == x;
        assert x == if k < i then l[k] else l[k + 1];
      }
    }
  }

  lemma DropChains(h: Heap, c: nat, i: nat)
    requires ChainsOk(h.chains, h.table) && c < CLASSES && i < |h.chains[c]|
    ensures ChainsOk(Drop(h, c, i).chains, Drop(h, c, i).table)
  {
    var q, r := h.chains[c][i], Drop(h, c, i);
    NoDupCut(h.chains[c], i);
    assert q in h.chains[c] && h.table[q] == c;
    forall d, p | 0 <= d < CLASSES && p in r.chains[d] ensures p in r.table && r.table[p] == d {
      assert p in h.chains[d] && h.table[p] == d;
      assert d == c ==> p != q;
    }
  }

  lemma DropTable(h: Heap, c: nat, i: nat)
    requires ChainsOk(h.chains, h.table) && TableOk(h.chains, h.table, h.blocks) && c < CLASSES && i < |h.chains[c]|
    ensures TableOk(Drop(h, c, i).chains, Drop(h, c, i).table, Drop(h, c, i).blocks)
  {
    var r := Drop(h, c, i);
    NoDupCut(h.chains[c], i);
    forall p | p in r.table ensures SlabPage(r.chains, r.table, r.blocks, p) {
      assert SlabPage(h.chains, h.table, h.blocks, p);
    }
  }

  lemma DropSmall(h: Heap, q: nat)
    requires Inv(h) && q in h.table && h.table[q] < CLASSES && IsEmpty(h, q, h.table[q])
    ensures SmallOk(h.table - {q}, h.small)
  {
    forall p | p in h.small ensures SmallFits(h.table - {q}, p, h.small[p]) {
      assert SmallFits(h.table, p, h.small[p]);
      EmptyPage(h, q, p);
    }
  }

  lemma DropLarge(h: Heap, q: nat)
    requires LargeOk(h.table, h.blocks, h.large) && q in h.table
    ensures LargeOk(h.table - {q}, h.blocks - {q}, h.large)
  {
    forall p | p in h.large ensures LargeFits(h.table - {q}, h.blocks - {q}, p, h.large[p]) {
      assert LargeFits(h.table, h.blocks, p, h.large[p]);
    }
    forall b | b in h.blocks - {q} ensures Owned(h.table - {q}, h.large, b) { assert Owned(h.table, h.large, b); }
  }

  /** Giving back an empty slab page loses no object. */
  lemma DropInv(h: Heap, c: nat, i: nat)
    requires Inv(h) && c < CLASSES && i < |h.chains[c]| && IsEmpty(h, h.chains[c][i], c)
    ensures Inv(Drop(h, c, i))
  {
    var q := h.chains[c][i];
    assert q in h.chains[c] && q in h.table && h.table[q] == c;
    DropChains(h, c, i);
    DropTable(h, c, i);
    DropSmall(h, q);
    DropLarge(h, q);
    assert BlocksOk(h.base, h.bytes, h.blocks - {q});
    assert SlotsOk(h.table - {q}, h.free - {q}, h.small);
  }

  /** The page heads the chain of its class. */
  predicate IsHead(h: Heap, q: nat) {
    q in h.table && h.table[q] < |h.chains| && h.chains[h.table[q]] != [] && h.chains[h.table[q]][0] == q
  }

  ghost predicate SameHeads(a: seq<seq<nat>>, b: seq<seq<nat>>) {
    && |a| == |b| == CLASSES
    && forall c :: 0 <= c < CLASSES ==> (a[c] == [] <==> b[c] == []) && (a[c] != [] ==> a[c][0] == b[c][0])
  }

  /** An empty slab page that does not head its chain. */
  predicate Idle(h: Heap, q: nat) {
    q in h.table && h.table[q] < CLASSES && IsEmpty(h, q, h.table[q]) && !IsHead(h, q)
  }

  /** `r` is `h` with the idle pages `gone` given back. */
  ghost predicate Thinned(h: Heap, r: Heap, gone: set<nat>) {
    && r == h.(chains := r.chains, table := h.table - gone, free := h.free - gone, blocks := h.blocks - gone)
    && SameHeads(h.chains, r.chains)
    && forall q :: q in gone ==> Idle(h, q)
  }

  lemma ThinnedOn(h: Heap, m: Heap, r: Heap, a: set<nat>, b: set<nat>)
    requires Thinned(h, m, a) && Thinned(m, r, b)
    ensures Thinned(h, r, a + b)
  {
    assert h.table - a - b == h.table - (a + b) && h.free - a - b == h.free - (a + b);
    assert h.blocks - a - b == h.blocks - (a + b);
    forall q | q in a + b ensures Idle(h, q) {
      if q in b { assert Idle(m, q); }
    }
  }

  lemma DropThins(h: Heap, c: nat, i: nat)
    requires ChainsOk(h.chains, h.table) && c < CLASSES && 0 < i < |h.chains[c]| && IsEmpty(h, h.chains[c][i], c)
    ensures Thinned(h, Drop(h, c, i), {h.chains[c][i]})
    ensures forall d, k :: 0 <= d < CLASSES && d != c && 0 <= k < |h.chains[d]| ==> h.chains[d][k] != h.chains[c][i]
    ensures forall k :: 0 <= k < |h.chains[c]| && k != i ==> h.chains[c][k] != h.chains[c][i]
  {
    var q := h.chains[c][i];
    assert q in h.chains[c] && h.table[q] == c;
    forall d, k | 0 <= d < CLASSES && d != c && 0 <= k < |h.chains[d]| ensures h.chains[d][k] != q {
      assert h.chains[d][k] in h.chains[d];
    }
  }

  /** No page of chain `c` but its head, before position `j`, is empty. */
  ghost predicate Swept(h: Heap, c: nat, j: nat)
    requires c < CLASSES == |h.chains|
  {
    forall k :: 1 <= k < j && k < |h.chains[c]| ==> !IsEmpty(h, h.chains[c][k], c)
  }

  lemma DropSwept(h: Heap, c: nat, i: nat)
    requires ChainsOk(h.chains, h.table) && c < CLASSES && 0 < i < |h.chains[c]| && IsEmpty(h, h.chains[c][i], c)
    requires Swept(h, c, i)
    ensures Swept(Drop(h, c, i), c, i)
    ensures forall d :: 0 <= d < CLASSES && d != c && Swept(h, d, |h.chains[d]|) ==>
      Swept(Drop(h, c, i), d, |h.chains[d]|)
  {
    DropThins(h, c, i);
  }

  lemma {:induction false} SweepChainInv(h: Heap, c: nat, i: nat)
    requires Inv(h) && c < CLASSES && 0 < i
    ensures Inv(SweepChain(h, c, i))
    decreases |h.chains[c]| - i
  {
    if i < |h.chains[c]| {
      if IsEmpty(h, h.chains[c][i], c) {
        DropInv(h, c, i);
        SweepChainInv(Drop(h, c, i), c, i);
      } else {
        SweepChainInv(h, c, i + 1);
      }
    }
  }

  lemma {:induction false} SweepFromInv(h: Heap, c: nat)
    requires Inv(h) && c <= CLASSES
    ensures Inv(SweepFrom(h, c))
    decreases CLASSES - c
  {
    if c < CLASSES {
      SweepChainInv(h, c, 1);
      SweepFromInv(SweepChain(h, c, 1), c + 1);
    }
  }

  lemma ThinnedNothing(h: Heap)
    requires |h.chains| == CLASSES
    ensures Thinned(h, h, {})
  {
    assert h.table - {} == h.table && h.free - {} == h.free && h.blocks - {} == h.blocks;
  }

  lemma {:induction false} SweepChainFacts(h: Heap, c: nat, i: nat) returns (gone: set<nat>)
    requires ChainsOk(h.chains, h.table) && c < CLASSES && 0 < i && Swept(h, c, i)
    ensures var r := SweepChain(h, c, i);
            && ChainsOk(r.chains, r.table) && Thinned(h, r, gone) && Swept(r, c, |r.chains[c]|)
            && forall d :: 0 <= d < CLASSES && d != c && Swept(h, d, |h.chains[d]|) ==> Swept(r, d, |r.chains[d]|)
    decreases |h.chains[c]| - i
  {
    if i >= |h.chains[c]| {
      gone := {};
      ThinnedNothing(h);
    } else if IsEmpty(h, h.chains[c][i], c) {
      var m := Drop(h, c, i);
      DropChains(h, c, i);
      DropThins(h, c, i);
      DropSwept(h, c, i);
      var more := SweepChainFacts(m, c, i);
      gone := {h.chains[c][i]} + more;
      ThinnedOn(h, m, SweepChain(m, c, i), {h.chains[c][i]}, more);
    } else {
      gone := SweepChainFacts(h, c, i + 1);
    }
  }

  lemma {:induction false} SweepFromFacts(h: Heap, c: nat) returns (gone: set<nat>)
    requires ChainsOk(h.chains, h.table) && c <= CLASSES && forall d :: 0 <= d < c ==> Swept(h, d, |h.chains[d]|)
    ensures var r := SweepFrom(h, c);
            Thinned(h, r, gone) && forall d :: 0 <= d < CLASSES ==> Swept(r, d, |r.chains[d]|)
    decreases CLASSES - c
  {
    if c == CLASSES {
      gone := {};
      ThinnedNothing(h);
    } else {
      var m := SweepChain(h, c, 1);
      var a := SweepChainFacts(h, c, 1);
      var b := SweepFromFacts(m, c + 1);
      gone := a + b;
      ThinnedOn(h, m, SweepFrom(m, c + 1), a, b);
    }
  }

  /**
    The sweep gives back exactly the empty slab pages that do not head their chain; everything else stays as it
    was, and no live object is in a page it gives back.
  */
  lemma SweepCorrect(h: Heap) returns (gone: set<nat>)
    requires Inv(h)
    ensures Inv(Sweep(h)) && Thinned(h, Sweep(h), gone) && forall q :: q in gone <==> Idle(h, q)
    ensures forall p :: p in h.small ==> PageOf(p) !in gone
  {
    gone := SweepFromFacts(h, 0);
    SweepFromInv(h, 0);
    SweptExactly(h, Sweep(h), gone);
    forall p | p in h.small ensures PageOf(p) !in gone {
      if PageOf(p) in gone { EmptyPage(h, PageOf(p), p); assert false; }
    }
  }

  lemma SweptExactly(h: Heap, r: Heap, gone: set<nat>)
    requires Thinned(h, r, gone) && TableOk(r.chains, r.table, r.blocks)
    requires forall d :: 0 <= d < CLASSES ==> Swept(r, d, |r.chains[d]|)
    ensures forall q :: q in gone <==> Idle(h, q)
  {
    forall q | Idle(h, q) ensures q in gone {
      if q !in gone { StaysBusy(h, r, gone, q); assert false; }
    }
  }

  lemma StaysBusy(h: Heap, r: Heap, gone: set<nat>, q: nat)
    requires Thinned(h, r, gone) && TableOk(r.chains, r.table, r.blocks) && q in h.table && q !in gone
    requires forall d :: 0 <= d < CLASSES ==> Swept(r, d, |r.chains[d]|)
    ensures !Idle(h, q)
  {
    var c := r.table[q];
    assert SlabPage(r.chains, r.table, r.blocks, q);
    var k :| 0 <= k < |r.chains[c]| && r.chains[c][k] == q;
    assert Swept(r, c, |r.chains[c]|);
  }

  // ----- Large objects -----

  lemma AlignUpFacts(x: nat, n: nat)
    requires n > 0
    ensures x <= AlignUp(x, n) <= x + n - 1 && AlignUp(x, n) % n == 0
  {
    var y := x + n - 1;
    assert y == n * (y / n) + y % n;
    assert AlignUp(x, n) == n * (y / n);
    ModOfMultiple(n, y / n);
  }

  /** A multiple needs no padding. */
  lemma AlignUpSame(x: nat, n: nat)
    requires n > 0 && x % n == 0
    ensures AlignUp(x, n) == x
  {
    var k := AlignUp(x, n);
    AlignUpFacts(x, n);
    if x < k { MultiplesApart(n, x, k); }
  }

  /** A multiple of eight is one of the smaller powers. */
  lemma AlignUpExact(x: nat, log: nat)
    requires x % 8 == 0 && log <= 3
    ensures AlignUp(x, Pow2(log)) == x
  {
    assert Pow2(0) == 1 && Pow2(1) == 2 && Pow2(2) == 4 && Pow2(3) == 8;
    Pow2Splits(log, 3);
    ModFactor(x, Pow2(log), Pow2(3 - log));
    AlignUpSame(x, Pow2(log));
  }

  lemma MultipleOfEight(p: nat, log: nat)
    requires log >= 3 && p % Pow2(log) == 0
    ensures p % 8 == 0
  {
    assert Pow2(0) == 1 && Pow2(1) == 2 && Pow2(2) == 4 && Pow2(3) == 8;
    Pow2Splits(3, log);
    ModFactor(p, 8, Pow2(log - 3));
  }

  lemma AlignUpWord(block: nat, log: nat)
    requires block % PAGE == 0
    ensures AlignUp(block + 8, Pow2(log)) % 8 == 0
  {
    if log >= 3 {
      AlignUpFacts(block + 8, Pow2(log));
      MultipleOfEight(AlignUp(block + 8, Pow2(log)), log);
    } else {
      AlignUpExact(block + 8, log);
    }
  }

  /** The block is large enough for the object behind its base word. */
  lemma LargeRoom(l: Layout, block: nat, o: nat)
    requires block % PAGE == 0 && PagesFor(Needed(l)) <= Pow2(o) && l.size > 0
    ensures var p := AlignUp(block + 8, Pow2(l.log));
            block + 8 <= p && p + l.size <= block + PAGE * Pow2(o) && p % 8 == 0 && Aligned(p, l.log)
    ensures PAGE * Pow2(o) >= PAGE
  {
    AlignUpFacts(block + 8, Pow2(l.log));
    AlignUpWord(block, l.log);
    AlignedIffMod(AlignUp(block + 8, Pow2(l.log)), l.log);
    assert Needed(l) <= 4096 * PagesFor(Needed(l));
  }

  lemma LargeNotLive(h: Heap, block: nat, n: nat, p: nat)
    requires Inv(h) && FreshBlock(h, block, n) && block <= p < block + n
    ensures !IsLive(h, p)
  {
    if IsLive(h, p) {
      LiveInside(h, p);
      assert false;
    }
  }

  lemma LargeAllocLarge(h: Heap, l: Layout, block: nat, n: nat, p: nat)
    requires LargeOk(h.table, h.blocks, h.large) && block !in h.blocks && block !in h.table && p !in h.large
    requires LargeFits(h.table, h.blocks[block := n], p, Large(l, block))
    ensures LargeOk(h.table, h.blocks[block := n], h.large[p := Large(l, block)])
  {
    var blocks, large := h.blocks[block := n], h.large[p := Large(l, block)];
    forall x | x in large ensures LargeFits(h.table, blocks, x, large[x]) {
      if x != p { assert LargeFits(h.table, h.blocks, x, h.large[x]); }
    }
    assert forall x :: x in h.large ==> LargeFits(h.table, h.blocks, x, h.large[x]);
    forall b | b in blocks ensures Owned(h.table, large, b) {
      if b == block {
        assert large[p].block == b;
      } else {
        assert Owned(h.table, h.large, b);
        if b !in h.table {
          var x :| x in h.large && h.large[x].block == b;
          assert large[x].block == b;
        }
      }
    }
  }

  lemma LargeGains(h: Heap, l: Layout, block: nat, o: nat)
    requires !IsLive(h, LargeAlloc(h, l, block, o).1)
    ensures var (r, p) := LargeAlloc(h, l, block, o); Gains(h, r, p, l)
  {
  }

  lemma LargeTable(h: Heap, block: nat, n: nat)
    requires TableOk(h.chains, h.table, h.blocks) && block !in h.blocks
    ensures block !in h.table && TableOk(h.chains, h.table, h.blocks[block := n])
  {
    assert block in h.table ==> SlabPage(h.chains, h.table, h.blocks, block);
    forall q | q in h.table ensures SlabPage(h.chains, h.table, h.blocks[block := n], q) {
      assert SlabPage(h.chains, h.table, h.blocks, q);
    }
  }

  lemma LargeAllocInv(h: Heap, l: Layout, block: nat, o: nat)
    requires Inv(h) && PagesFor(Needed(l)) <= Pow2(o) && l.size > 0 && FreshBlock(h, block, PAGE * Pow2(o))
    ensures var (r, p) := LargeAlloc(h, l, block, o); Inv(r) && Gains(h, r, p, l)
  {
    var p, n := AlignUp(block + 8, Pow2(l.log)), PAGE * Pow2(o);
    LargeRoom(l, block, o);
    LargeNotLive(h, block, n, p);
    LargeTable(h, block, n);
    AddBlock(h, block, n);
    LargeAllocLarge(h, l, block, n, p);
    LargeGains(h, l, block, o);
  }

  // ----- Allocation and release -----

  lemma ChainsFree(h: Heap)
    requires Inv(h)
    ensures Chained(h) && forall c, q :: 0 <= c < CLASSES && q in h.chains[c] ==> q in h.table && h.table[q] == c
  {
  }

  lemma GrowInv(h: Heap, c: nat, l: Layout, answer: nat)
    requires Inv(h) && c < CLASSES && 0 < l.size <= SizeOf(c) && Pow2(l.log) <= SizeOf(c) && FreshBlock(h, answer, PAGE)
    ensures NewSlots(answer, c) != []
    ensures var (r, p) := Pop(AddSlab(h, c, answer), answer, l); Inv(r) && Gains(h, r, p, l)
  {
    AddSlabInv(h, c, answer);
    PopInv(AddSlab(h, c, answer), answer, l);
    SameGains(h, AddSlab(h, c, answer), Pop(AddSlab(h, c, answer), answer, l).0,
      Pop(AddSlab(h, c, answer), answer, l).1, l);
  }

  lemma SameGains(h: Heap, m: Heap, r: Heap, p: nat, l: Layout)
    requires m.small == h.small && m.large == h.large && Gains(m, r, p, l)
    ensures Gains(h, r, p, l)
  {
    assert forall x :: IsLive(m, x) <==> IsLive(h, x);
  }

  lemma SlabAllocInv(h: Heap, c: nat, l: Layout, answer: nat)
    requires Inv(h) && Chained(h) && c < CLASSES && 0 < l.size <= SizeOf(c) && Pow2(l.log) <= SizeOf(c)
    requires forall q :: q in h.chains[c] ==> q in h.table && h.table[q] == c
    requires FirstFree(h, h.chains[c]) == |h.chains[c]| ==> FreshBlock(Sweep(h), answer, PAGE)
    ensures var (r, p) := SlabAlloc(h, c, l, answer); Inv(r) && Gains(h, r, p, l)
  {
    var i := FirstFree(h, h.chains[c]);
    if i < |h.chains[c]| {
      assert h.chains[c][i] in h.chains[c];
      PopInv(h, h.chains[c][i], l);
    } else {
      var gone := SweepCorrect(h);
      GrowInv(Sweep(h), c, l, answer);
      var (r, p) := SlabAlloc(h, c, l, answer);
      SameGains(h, Sweep(h), r, p, l);
    }
  }

  /**
    An allocation that returns keeps the invariant, and adds an object that was not live before, aligned as
    asked; an object of no size is not in memory at all.
  */
  lemma AllocInv(h: Heap, l: Layout, answer: nat)
    requires Inv(h) && Chained(h) && GoodAnswer(h, l, answer) && Alloc(h, l, answer).Some?
    ensures var (r, p) := Alloc(h, l, answer).value;
            Inv(r) && if l.size == 0 then r == h && p == Pow2(l.log) else Gains(h, r, p, l) && p % Pow2(l.log) == 0
  {
    var (r, p) := Alloc(h, l, answer).value;
    ChainsFree(h);
    match RouteOf(l) {
      case Nothing =>
      case ToSlab(c) => SlabAllocInv(h, c, l, answer);
      case ToPages => LargeAllocInv(h, l, answer, OrderFrom(PagesFor(Needed(l)), 0).value);
    }
    if l.size > 0 { LiveInside(r, p); }
  }

  lemma PushPage(l: seq<nat>, q: nat, c: nat, small: map<nat, Layout>, p: nat)
    requires c < CLASSES && PageSlots(l, q, c, small) && p in small && IsSlot(q, c, p)
    ensures PageSlots([p] + l, q, c, small - {p})
  {
    NoDupJoin([p], l);
  }

  lemma DropLargeObject(h: Heap, p: nat)
    requires LargeOk(h.table, h.blocks, h.large) && p in h.large
    ensures LargeOk(h.table, h.blocks - {h.large[p].block}, h.large - {p})
  {
    var b, large := h.large[p].block, h.large - {p};
    forall x | x in large ensures LargeFits(h.table, h.blocks - {b}, x, large[x]) {
      assert LargeFits(h.table, h.blocks, x, h.large[x]);
    }
    forall d | d in h.blocks - {b} ensures Owned(h.table, large, d) {
      assert Owned(h.table, h.large, d);
      if d !in h.table {
        var x :| x in h.large && h.large[x].block == d;
        assert x in large && large[x].block == d;
      }
    }
  }

  lemma SmallReleased(h: Heap, p: nat)
    requires Inv(h) && p in h.small
    ensures var q := PageOf(p);
            && q in h.table && h.table[q] < CLASSES && q in h.free && IsSlot(q, h.table[q], p)
            && Inv(h.(free := h.free[q := [p] + h.free[q]], small := h.small - {p}))
  {
    var q, small := PageOf(p), h.small - {p};
    assert SmallFits(h.table, p, h.small[p]) && PageSlots(h.free[q], q, h.table[q], h.small);
    PushPage(h.free[q], q, h.table[q], h.small, p);
    forall x | x in small ensures SmallFits(h.table, x, small[x]) { assert SmallFits(h.table, x, h.small[x]); }
    OneSlot(h, q, [p] + h.free[q], small, p);
  }

  lemma InRegion(h: Heap, p: nat)
    requires Inv(h) && IsLive(h, p)
    ensures h.base <= PageOf(p) && PageOf(p) - h.base < h.bytes
  {
    LiveInside(h, p);
    PageAbove(BlockAt(h, p), p);
  }

  lemma PageAbove(b: nat, p: nat)
    requires b % PAGE == 0 && b <= p
    ensures b <= PageOf(p)
  {
  }

  lemma DeallocLoses(h: Heap, p: nat)
    requires IsLive(h, p) && Dealloc(h, p).Some? && (PageOf(p) in h.table <==> p in h.small)
    requires (p in h.small <==> p !in h.large)
    ensures Gains(Dealloc(h, p).value, h, p, LayoutAt(h, p))
  {
  }

  /**
    Releasing a live object never panics, takes the path that allocated it, keeps the invariant and removes
    that object alone.
  */
  lemma DeallocInv(h: Heap, p: nat)
    requires Inv(h) && IsLive(h, p)
    ensures (PageOf(p) in h.table <==> p in h.small) && (p in h.small <==> p !in h.large)
    ensures Dealloc(h, p).Some? && Inv(Dealloc(h, p).value) && Gains(Dealloc(h, p).value, h, p, LayoutAt(h, p))
  {
    InRegion(h, p);
    if p in h.large {
      LargeOffTable(h, p);
      DropLargeObject(h, p);
      LargeReleased(h, p);
    } else {
      SmallReleased(h, p);
    }
    DeallocLoses(h, p);
  }

  lemma LargeReleased(h: Heap, p: nat)
    requires Inv(h) && p in h.large && LargeOk(h.table, h.blocks - {h.large[p].block}, h.large - {p})
    ensures Inv(h.(blocks := h.blocks - {h.large[p].block}, large := h.large - {p}))
  {
    var b := h.large[p].block;
    assert LargeFits(h.table, h.blocks, p, h.large[p]);
    assert BlocksOk(h.base, h.bytes, h.blocks - {b});
    forall q | q in h.table ensures SlabPage(h.chains, h.table, h.blocks - {b}, q) {
      assert SlabPage(h.chains, h.table, h.blocks, q);
    }
  }

  // ----- Releasing what was allocated -----

  /** Releasing a slot from a page that had one free, or a large object, brings back the very heap there was. */
  lemma ReleaseRestores(h: Heap, l: Layout, answer: nat)
    requires Inv(h) && Chained(h) && GoodAnswer(h, l, answer) && Alloc(h, l, answer).Some? && l.size > 0
    requires RouteOf(l).ToSlab? ==> FirstFree(h, h.chains[RouteOf(l).c]) < |h.chains[RouteOf(l).c]|
    ensures var (r, p) := Alloc(h, l, answer).value; IsLive(r, p) && Dealloc(r, p) == Some(h)
  {
    var (r, p) := Alloc(h, l, answer).value;
    AllocInv(h, l, answer);
    DeallocInv(r, p);
    if RouteOf(l).ToSlab? {
      var c := RouteOf(l).c;
      var q := h.chains[c][FirstFree(h, h.chains[c])];
      ChainsFree(h);
      assert q in h.chains[c];
      SlotReturns(h, q, l, p);
    } else {
      BlockReturns(h, l, answer, OrderFrom(PagesFor(Needed(l)), 0).value);
    }
  }

  lemma SlotReturns(h: Heap, q: nat, l: Layout, p: nat)
    requires q in h.table && q in h.free && h.free[q] != [] && p == h.free[q][0] && !IsLive(h, p)
    requires SlotsOk(h.table, h.free, h.small) && q % PAGE == 0
    ensures IsLive(Pop(h, q, l).0, p) && (Dealloc(Pop(h, q, l).0, p).Some? ==> Dealloc(Pop(h, q, l).0, p) == Some(h))
  {
    assert PageSlots(h.free[q], q, h.table[q], h.small) && p in h.free[q];
    SlotFacts(q, h.table[q], p);
    assert [p] + h.free[q][1..] == h.free[q];
    assert h.free[q := h.free[q][1..]][q := h.free[q]] == h.free;
    assert h.small[p := l] - {p} == h.small;
  }

  lemma BlockReturns(h: Heap, l: Layout, block: nat, o: nat)
    requires block !in h.blocks && !IsLive(h, LargeAlloc(h, l, block, o).1)
    ensures var (r, p) := LargeAlloc(h, l, block, o);
            Dealloc(r, p).Some? && PageOf(p) !in h.table ==> Dealloc(r, p) == Some(h)
  {
    var p := LargeAlloc(h, l, block, o).1;
    assert h.blocks[block := PAGE * Pow2(o)] - {block} == h.blocks;
    assert h.large[p := Large(l, block)] - {p} == h.large;
  }

  // ----- All runs -----

  datatype Op = Allocating(l: Layout, answer: nat) | Releasing(p: nat)

  ghost predicate Enabled(h: Heap, op: Op) {
    match op
    case Allocating(l, answer) => Chained(h) && GoodAnswer(h, l, answer) && Alloc(h, l, answer).Some?
    case Releasing(p) => IsLive(h, p) && Dealloc(h, p).Some?
  }

  ghost function Step(h: Heap, op: Op): (r: Heap)
    requires Enabled(h, op)
  {
    match op
    case Allocating(l, answer) => Alloc(h, l, answer).value.0
    case Releasing(p) => Dealloc(h, p).value
  }

  lemma StepInv(h: Heap, op: Op)
    requires Inv(h) && Enabled(h, op)
    ensures Inv(Step(h, op))
  {
    match op
    case Allocating(l, answer) => AllocInv(h, l, answer);
    case Releasing(p) => DeallocInv(h, p);
  }

  ghost predicate Legal(h: Heap, ops: seq<Op>)
    decreases |ops|
  {
    ops != [] ==> Enabled(h, ops[0]) && Legal(Step(h, ops[0]), ops[1..])
  }

  ghost function Run(h: Heap, ops: seq<Op>): (r: Heap)
    requires Legal(h, ops)
    decreases |ops|
  {
    if ops == [] then h else Run(Step(h, ops[0]), ops[1..])
  }

  function EmptyHeap(base: nat, bytes: nat): (h: Heap) {
    Heap(base, bytes, seq(CLASSES, c => []), map[], map[], map[], map[], map[])
  }

  lemma {:induction false} RunInv(h: Heap, ops: seq<Op>)
    requires Inv(h) && Legal(h, ops)
    ensures Inv(Run(h, ops))
    decreases |ops|
  {
    if ops != [] {
      StepInv(h, ops[0]);
      RunInv(Step(h, ops[0]), ops[1..]);
    }
  }

  /** From the empty heap on, live objects are always apart, aligned and inside the heap's memory. */
  lemma RunSeparates(base: nat, bytes: nat, ops: seq<Op>, p: nat, r: nat)
    requires Legal(EmptyHeap(base, bytes), ops)
    requires var h := Run(EmptyHeap(base, bytes), ops); IsLive(h, p) && IsLive(h, r) && p != r
    ensures var h := Run(EmptyHeap(base, bytes), ops);
            && Apart(p, LayoutAt(h, p).size, r, LayoutAt(h, r).size)
            && p % Pow2(LayoutAt(h, p).log) == 0 && h.base <= p && p + LayoutAt(h, p).size <= h.base + h.bytes
  {
    var h := Run(EmptyHeap(base, bytes), ops);
    RunInv(EmptyHeap(base, bytes), ops);
    ObjectsDisjoint(h, p, r);
    LiveInside(h, p);
  }
}
